# Caro game server: a verified model of the server core

This project models `server/server.py` of a two-player Caro (five in a row on a 15x15
board) server. Clients connect over TCP and send newline-terminated JSON messages. The
server keeps a set of module-level registries:

- the waitlist and the player names;
- the game pairs and the player symbols;
- the boards, turns and last moves;
- the rematch votes (requests and declines).

It pairs waiting players first come, first served, validates and applies moves, detects
wins and draws, relays chat, negotiates rematches, and cleans games up on disconnect.

The model has two layers.

- **Step functions on values.** `Registry.State` holds every registry as a value. Each
  server operation is a function from a `State` (and the message) to a `Step`: the new
  `State` and the messages sent, in order. These are `CleanupStep`, `DisconnectStep`,
  `UsernameStep`, `MoveStep`, `LooseMoveStep`, `ChatStep`, `RematchRequestStep`, `RematchDeclinedStep`,
  `DispatchStep`, `Feed` (the generic loop `Run` over `LineStep`), `ReceiveStep` and `Session`. The properties are proved about these
  functions, with an invariant `State.Valid` that every handler keeps.
- **The server object.** `CaroServer.Server` is a class with the registries as fields and a
  `log` of every `send_to_client` call. Its methods update the fields in place, statement
  by statement, in the order the source runs them. Each method is proved to leave exactly
  the state and the log that its step function describes, so the lemmas about the step
  functions hold of the object too.

Board scanning (`check_win`, `is_board_full`) and line framing (the `while '\n' in buffer`
loop) are methods with loops. Each is proved equal to a specification function, and that
function's properties are proved as lemmas.

The model reproduces these behaviours of the code as written:

- **No game-over state.** After a win or a draw the turn has already passed to the
  opponent, who may keep placing stones on the same board.
- **Declines survive a rematch.** A restart clears only the rematch requests. A decline
  recorded before the restart still counts, so one more decline ends the new game.
- **The disconnecting player is requeued.** `cleanup_game` runs while the disconnecting
  handle still has its name, so it is appended to the waitlist together with its
  opponent. Its name is deleted only afterwards.
- **An empty name counts as stale.** A player named `""` fails the pairing guard.
- **Two deletions never fire.** `cleanup_game` deletes `current_turns[p1_socket]` and
  `current_turns[p2_socket]`. `current_turns` is keyed by game id, never by socket, so the
  model treats these as no-ops.

Three behaviours of the code that a reader might not expect:

- On disconnect, both players are requeued, the surviving one and the disconnecting one
  (see `Registry.DisconnectRequeuesBoth`).
- On rematch, only the requests are cleared; the declines stay
  (see `Handlers.StaleDeclineEndsRematch`).
- A disconnected handle can stay on the waitlist with no name. Pairing skips it later
  (see `Handlers.PairOldestStaleNoGame`).

Modules:

- `Board` (board.dfy): the board.
- `Protocol` (protocol.dfy): handles, game ids and messages.
- `Framer` (framer.dfy): line framing.
- `Registry` (registry.dfy): the registries, `cleanup_game` and `handle_disconnect`.
- `Handlers` (handlers.dfy): the per-message branches.
- `Client` (client.dfy): `handle_client` as a function.
- `CaroServer` (server.dfy): the server object.

Inputs the model takes as parameters rather than computing:

- A socket is a `Handle` (a natural number). It is both the registry key and the file
  number that `generate_game_id` sorts.
- The coin `time.time() % 2 < 1` is a `bool` parameter, or `flip(k)` for the k-th
  handled line.
- `json.loads`, together with the handler's field reads, is a parameter
  `decode: string -> Option<Message>`. `None` means the line is not JSON.
  `Message.Broken` stands for a message with a field missing, whose handler always raises.
  `Message.LooseMove` is a move with a coordinate that is not an integer (a `Coord`: a
  float, reduced to whether it lies on the board, or another JSON value). Its handler
  raises or not depending on the registries (`Handlers.LooseMoveStep`).
- The successive results of `recv` are a sequence of chunks.
- Message texts are reduced to their kind (`WaitNote`, `Fault`). The data clients act
  on is kept: symbols, turn flags, boards, last moves, opponent names, chat text and
  sender.

## Model

| member | source | states |
|---|---|---|
| Board.NewBoard | server/server.py:28-29 | a fresh board is 15x15 and every cell is empty |
| Board.NewBoardNotFull | server/server.py:54-59 | a fresh board is never reported full |
| Board.Place | server/server.py:223 | exactly the played cell takes the symbol; every other cell keeps its value |
| Board.PlaceExtends | server/server.py:222-223 | placing on an empty cell never overwrites a stone: every non-empty cell survives |
| Board.CheckWin | server/server.py:34-52 | the loop over four directions, with its two early-exit counting walks, answers exactly `Wins` (the placed cell plus both capped runs reach 5 in some direction) |
| Board.WinsIffFiveThrough | server/server.py:34-52 | check_win is true if and only if some window of five consecutive cells through the played cell, in one of the four directions, holds the symbol |
| Board.LongerLinesWin | server/server.py:50-51 | there is no exactly-five rule: a line of six or more through the played cell also wins |
| Board.IsBoardFull | server/server.py:54-59 | the row-major scan returns true if and only if no cell is empty |
| Protocol.GameIdOf | server/server.py:31-32 | the id is the two file numbers in sorted order |
| Protocol.GameIdSymmetric | server/server.py:31-32 | both players of a game compute the same id |
| Protocol.GameIdInjective | server/server.py:31-32 | two pairs share an id if and only if they are the same unordered pair |
| Framer.FirstNewline | server/server.py:143 | the cut point of `split('\n', 1)` is the first newline, and no newline precedes it |
| Framer.Split | server/server.py:142-143 | repeated `split('\n', 1)`: neither the lines nor the tail contain a newline; `Framer.SplitJoin` and `Framer.JoinSplit` state that it inverts joining |
| Framer.NonBlank | server/server.py:144-145 | only non-blank lines are kept, each one from the input |
| Framer.Drain | server/server.py:142-145 | the inner loop yields exactly the non-blank complete lines of the buffer, in order, and keeps exactly the unterminated tail |
| Framer.SplitJoin | server/server.py:141-143 | nothing is lost or invented: the lines, each with its newline restored, followed by the tail, give back the buffer |
| Framer.JoinSplit | server/server.py:142-143 | framing inverts joining: newline-free lines plus a newline-free tail split back into exactly those lines and tail |
| Framer.SplitChunked | server/server.py:136-145 | framing two chunks one after the other, carrying the tail, gives the same lines and tail as framing them together |
| Framer.MessagesChunked | server/server.py:136-145 | the messages handed to the decoder do not depend on where recv cut the stream |
| Registry.RemoveFirst | server/server.py:113 | `list.remove`: exactly one occurrence is removed when present; duplicate-freedom is kept |
| Registry.RemoveFirstSplices | server/server.py:113 | `list.remove(x)` removes exactly the first occurrence of `x`: the result is the part before it followed by the part after it, in order |
| Registry.Insert | server/server.py:181-182 | after `game_pairs[k] = v` the key order lists the old keys plus the new one, each once |
| Registry.FirstWithId | server/server.py:81-86 | the search returns the first game_pairs key, in insertion order, whose pair has the id: no earlier key's pair has it; None only when no key's pair has it |
| Registry.FirstIsEarlier | server/server.py:81-86 | the key the search finds comes before every other key with the same id |
| Registry.Requeue | server/server.py:92-97 | a participant is appended only when it has a name and is not already waiting |
| Registry.RequeueNote | server/server.py:92-97 | a requeue sends at most one notice, the game-ended `wait` |
| Registry.InitialValid | server/server.py:14-22 | the empty registries at module load satisfy the invariant |
| Registry.Games.Without | server/server.py:71-80 | the five guarded deletions of cleanup_game: each per-game registry loses exactly the id and keeps every other entry, and well-formedness and keying survive |
| Registry.CleanupStep | server/server.py:69-106 | after cleanup none of the five per-game registries holds the id, and every other game's board, turn, last move and votes are kept (`Games.Without` removes exactly that id from each); no name changes |
| Registry.EndPairStep | server/server.py:87-101 | game_pairs and player_symbols lose exactly the two players of the found pair, every other entry unchanged, and no game or name changes |
| Registry.SessionFound | server/server.py:81-86 | under the invariant, the search for a player's game finds that player or its opponent |
| Registry.SessionIsFound | server/server.py:81-86 | under the invariant, the search finds every live game |
| Registry.CleanupOfNoGame | server/server.py:71-87 | cleanup of an id no pair has changes nothing and sends nothing |
| Registry.CleanupKeepsValid | server/server.py:69-106 | cleanup keeps the invariant: a duplicate-free waitlist of players in no game, symmetric pairs, and keys matching the live games |
| Registry.CleanupUnpairsBoth | server/server.py:87-91 | cleanup of a live game unpairs both of its players |
| Registry.CleanupRequeuesBoth | server/server.py:81-101 | both players of a cleaned-up live game are appended to the waitlist, the one whose game_pairs key was inserted first going first, each with a game-ended notice in the same order, and nothing else is sent |
| Registry.RequeueTwo | server/server.py:92-97 | two named players not waiting are appended in order, each with its notice |
| Registry.EndPairRequeues | server/server.py:92-97 | when both players of the found pair are named and not waiting, both are appended, the found key first, each with its notice |
| Registry.DisconnectStep | server/server.py:108-126 | after a disconnect the handle has no name and no symbol |
| Registry.DisconnectKeepsValid | server/server.py:108-126 | handle_disconnect keeps the invariant |
| Registry.DisconnectRequeuesBoth | server/server.py:115-124 | a player in a game disconnects: the opponent is told first, then both leave the game and are appended to the waitlist, the one whose game_pairs key came first going first, each with a game-ended notice; the nameless disconnected handle is requeued too |
| Registry.DisconnectWhileWaiting | server/server.py:112-114 | a player in no game disconnects: the waitlist is exactly `list.remove` of it, the others kept in order; nothing is sent and no game changes |
| Handlers.DealIsFair | server/server.py:185-203 | each player is told the symbol it is given; the two symbols differ; exactly one is told it moves first, and that player holds the turn and plays X; the board is fresh and there is no last move |
| Handlers.Deal | server/server.py:179-190 | the deal keeps the registries well-formed; `Handlers.DealIsFair` states what it sets |
| Handlers.StartGame | server/server.py:176-203 | starting a game keeps the registries well-formed; `Handlers.StartGameKeepsValid` and `Handlers.PairOldestPairsFirstTwo` state its effect |
| Handlers.StartGameKeepsValid | server/server.py:176-203 | pairing two named players who are in no game keeps the invariant |
| Handlers.Readmit | server/server.py:171-174 | the stale branch puts back at most one of the two popped handles, at the front, and only a named one |
| Handlers.PairOldestPairsFirstTwo | server/server.py:166-203 | first come, first served: when the two oldest both have names, they are paired with each other and leave the queue, and the game is a fresh `Deal` on the pair: a new board, the turn to the coin's player, the symbols stored equal to those told; each gets game_start naming the other, and only the coin's player is told it moves first |
| Handlers.PairOldestStaleNoGame | server/server.py:169-175 | when either of the two oldest lacks a name, no game starts, nothing is sent, and at most one named handle goes back to the front |
| Handlers.PairOldestNeedsTwo | server/server.py:166 | with fewer than two waiting, nothing happens |
| Handlers.PairOldestKeepsNames | server/server.py:166-203 | pairing never changes the names |
| Handlers.PairOldestKeepsNamed | server/server.py:166-203 | a named handle that is waiting or in a game is still waiting or in a game after pairing |
| Handlers.PairOldest | server/server.py:166-203 | the pairing block keeps the registries well-formed; the four lemmas above state each of its branches |
| Handlers.Enrol | server/server.py:159-161 | the sender's name is recorded and no other name changes; the sender ends up waiting unless it is in a game; every waiting handle still waits and only the sender is added; pairs and games are untouched |
| Handlers.UsernameStep | server/server.py:156-203 | username_set keeps the registries well-formed; `Handlers.UsernameEnrols` and `Handlers.UsernameKeepsValid` state its effect |
| Handlers.UsernameEnrols | server/server.py:156-175 | the name is recorded; the first message tells the sender whether it was queued; with a non-empty name the sender ends up waiting or in a game |
| Handlers.UsernameKeepsValid | server/server.py:156-203 | username_set keeps the invariant |
| Handlers.MoveFault | server/server.py:209-222 | when no guard fails, the sender has an opponent and a symbol, holds the turn, and the cell is on the board and empty |
| Handlers.GameFault | server/server.py:209-221 | the first three guards of move: an error is only ever no-opponent, not-your-turn or missing board or symbol; none means the sender has an opponent and a symbol, holds the turn and the game has a board |
| Handlers.MoveStep | server/server.py:205-243 | move keeps the registries well-formed; `Handlers.MoveRejected`, `Handlers.MoveAccepted` and `Handlers.MoveNotices` state its two outcomes |
| Handlers.Play | server/server.py:222-241 | the accepted branch keeps the registries well-formed; `Handlers.MoveAccepted` states its effect |
| Handlers.MoveFaults | server/server.py:209-221 | under the invariant, each error is sent exactly when its condition holds, and the board-or-symbol-missing error cannot happen |
| Handlers.MoveRejected | server/server.py:209-221 | a move is rejected if and only if the registries stay unchanged and the only message is an error to the sender |
| Handlers.MoveAccepted | server/server.py:222-225 | an accepted move fills only the empty played cell with the mover's symbol; last_moves and current_turns change only at this game, to the played cell and to the opponent; nothing else changes |
| Handlers.MoveNotices | server/server.py:226-241 | an accepted move sends the new board to the mover, then to the opponent, then the verdict |
| Handlers.Verdict | server/server.py:228-241 | the verdict is two messages, one to each player, and it is a game_over exactly when the move wins or fills the board |
| Handlers.VerdictCases | server/server.py:228-241 | a win if and only if five in a row run through the cell; a draw if and only if there is no such line and the board is full; otherwise your_turn to the opponent and wait_turn to the mover |
| Handlers.MoveKeepsValid | server/server.py:205-243 | move keeps the invariant |
| Handlers.PlayOnAfterWin | server/server.py:225-233 | no game-over state: after any accepted move, including a winning one, the opponent may still play any empty cell |
| Handlers.LooseMoveStep | server/server.py:205-222 | a move with coordinates of any JSON type keeps the registries well-formed; `Handlers.LooseMoveLikeOffBoard` states its outcomes |
| Handlers.IllTypedMoveStep | server/server.py:209-222 | the branch with a coordinate that is not an integer keeps the registries well-formed; `Handlers.LooseMoveLikeOffBoard` states its outcomes |
| Handlers.IntegersNeverRaise | server/server.py:221 | with two integer coordinates the cell test never raises, and the move is the ordinary one |
| Handlers.LooseMoveLikeOffBoard | server/server.py:209-222 | a move with a coordinate that is not an integer, when it does not raise, is handled exactly like a move to a cell off the board: the same guard error or cell error and nothing changed; it raises only after all three guards pass, and then the sender is disconnected |
| Handlers.LooseMoveKeepsValid | server/server.py:205-222 | a move with coordinates of any JSON type keeps the invariant, the disconnect after a raise included |
| Handlers.ChatStep | server/server.py:245-255 | chat changes no registry and sends exactly one message |
| Handlers.ChatRelays | server/server.py:245-255 | chat changes no registry and sends one message: the text to the sender's opponent (whose opponent is the sender), or else an error to the sender |
| Handlers.VoteCount | server/server.py:270 | a vote set of the two players reaches two if and only if the opponent had voted |
| Handlers.GameVotes | server/server.py:264-270 | a live game's vote sets exist and hold only its two players; adding the sender's vote completes a set if and only if the opponent's vote is in it |
| Handlers.RematchWithoutPartner | server/server.py:260-263 | a request from a player with no opponent is only answered with an error, if and only if |
| Handlers.RematchRestarts | server/server.py:264-293 | the second request restarts the same game id as a fresh `Deal` with requests cleared: new board, no last move, the turn to the coin's player, who is the one told it moves first and whose stored symbol is X; both stored symbols equal the ones sent; declines and pairs untouched; the messages are request, start, start, then both game_start messages |
| Handlers.RematchWaits | server/server.py:264-268 | the first request only records the vote and tells the opponent |
| Handlers.RematchRequestKeepsValid | server/server.py:258-293 | rematch_request keeps the invariant |
| Handlers.RedealKeepsValid | server/server.py:273-293 | the restart of a rematch keeps the invariant |
| Handlers.DeclineWithoutPartner | server/server.py:297-299 | a decline from a player with no opponent does nothing, if and only if |
| Handlers.FirstDeclineWaits | server/server.py:300-304 | the first decline only records the vote and tells the opponent |
| Handlers.BothDeclineEndsGame | server/server.py:300-307 | the second decline removes the game and unpairs both; the waitlist gains exactly the two players, the one whose game_pairs key came first going first; the messages are exactly the refusal to the opponent, then the two game-ended notices in that same order |
| Handlers.DeclinedCleanup | server/server.py:300-307 | the cleanup after the second decline, stated on the registries from before the decline: exact waitlist and exactly the two game-ended notices, the earlier game_pairs key first |
| Handlers.StaleDeclineEndsRematch | server/server.py:267-307 | a decline recorded before a rematch restart still counts: one later decline by the restarting player ends the new game |
| Handlers.RematchDeclinedKeepsValid | server/server.py:295-307 | rematch_declined keeps the invariant |
| Handlers.RematchRequestStep | server/server.py:258-293 | rematch_request keeps the registries well-formed; `Handlers.RematchWithoutPartner`, `Handlers.RematchWaits` and `Handlers.RematchRestarts` state its outcomes |
| Handlers.RematchDeclinedStep | server/server.py:295-307 | rematch_declined keeps the registries well-formed; `Handlers.DeclineWithoutPartner`, `Handlers.FirstDeclineWaits` and `Handlers.BothDeclineEndsGame` state its outcomes |
| Client.DispatchStep | server/server.py:156-315 | the `msg_type` chain keeps the registries well-formed; `Client.DispatchKeepsValid` states that it keeps the invariant |
| Client.RaisesDisconnects | server/server.py:310-313 | a message whose handler raises ends in handle_disconnect and nothing else |
| Client.DispatchKeepsValid | server/server.py:156-315 | every branch keeps the invariant, including the disconnect after a handler raises |
| Client.FeedKeepsValid | server/server.py:142-155 | the inner loop keeps the invariant |
| Client.Feed | server/server.py:142-155 | the inner loop keeps the registries well-formed; `Client.FeedClosesOnBroken`, `Client.FeedAppend` and `Client.FeedLine` state how it runs |
| Client.LineStep | server/server.py:146-155 | one line keeps the registries well-formed; `Client.FeedLine` states that the inner loop is a run of these |
| Client.LineCloses | server/server.py:146-155 | one line closes the connection whenever it has a missing field, only when it has one or is a move with a coordinate that is not an integer, and closing forgets the handle |
| Client.LineKeepsValid | server/server.py:146-155 | one line keeps the invariant |
| Client.RunKeepsWf | server/server.py:142-155 | the inner loop over any per-line step that keeps the registries well-formed keeps them well-formed |
| Client.RunAppend | server/server.py:142-155 | for any per-line step, running two batches is running the first, then, unless it closed the connection, the second from where it stopped |
| Client.RunLine | server/server.py:142-155 | for any per-line step, one more line after a prefix that left the connection open is one more step |
| Client.FeedCons | server/server.py:142-155 | a non-empty batch is its first line's `LineStep`, then, unless that closed the connection, the rest with the next coin |
| Client.FeedClosesOnBroken | server/server.py:146-315 | a line with a missing field always closes the connection; only such a line or a move with a coordinate that is not an integer can close it; a closed connection's handle is forgotten |
| Client.FeedAppend | server/server.py:142-155 | lines are handled one after another: two batches run as the first, then the second from where it stopped, unless the first closed the connection |
| Client.FeedLine | server/server.py:142-155 | one more line, while the connection is open, is one more dispatch with the next coin |
| Client.ReceiveKeepsValid | server/server.py:137-145 | one pass of the read loop keeps the invariant |
| Client.ReceiveStep | server/server.py:137-145 | one recv pass keeps the registries well-formed; `Client.ReceiveCloses` and `Client.ReceiveKeepsValid` state its effect |
| Client.ReceiveCloses | server/server.py:138-140 | a pass closes the connection when the peer closed it or a line has a missing field, and only then or on a move with a coordinate that is not an integer; a closed connection's handle has no name |
| Client.SessionKeepsValid | server/server.py:137-145 | the whole read loop keeps the invariant |
| Client.SessionEndsAtEof | server/server.py:138-140 | once recv returns nothing, the session ends and the handle is forgotten, whatever would have followed |
| Client.Session | server/server.py:137-155 | the outer read loop keeps the registries well-formed; `Client.SessionKeepsValid` and `Client.SessionEndsAtEof` state its effect |
| Client.Connection | server/server.py:132-155 | a whole connection, from the welcome notice on, keeps the registries well-formed; `CaroServer.Server.HandleClient` runs it in place |
| CaroServer.Server.constructor | server/server.py:14-22 | at module load every registry is empty, the invariant holds and nothing has been sent |
| CaroServer.Server.SendToClient | server/server.py:61-64 | a send appends one message to the log and changes no registry |
| CaroServer.Server.FindGame | server/server.py:81-86 | the loop over game_pairs returns exactly the first key, in insertion order, whose pair has the id |
| CaroServer.Server.RequeuePlayer | server/server.py:92-97 | the in-place requeue leaves exactly the waitlist and the notices of `Requeue` |
| CaroServer.Server.EndPair | server/server.py:87-101 | the in-place unpairing leaves exactly the state and messages of `EndPairStep` |
| CaroServer.Server.Cleanup | server/server.py:69-106 | cleanup_game in place equals `CleanupStep` and keeps the invariant |
| CaroServer.Server.LeaveGame | server/server.py:115-121 | the opponent is told and the game cleaned up exactly when the handle is in a game |
| CaroServer.Server.Disconnect | server/server.py:108-126 | handle_disconnect in place equals `DisconnectStep` and keeps the invariant |
| CaroServer.Server.RecordName | server/server.py:158-165 | the name is recorded, the sender enrolled unless it is waiting or in a game, and told which |
| CaroServer.Server.PairUp | server/server.py:181-184 | the pair is recorded both ways, with empty vote sets |
| CaroServer.Server.DealGame | server/server.py:179-203 | board, last move, turn and symbols are set as `Deal` says, and the two game_start messages are sent |
| CaroServer.Server.StartNewGame | server/server.py:176-203 | a new game in place equals `StartGame` |
| CaroServer.Server.PairWaiting | server/server.py:166-203 | the pairing block in place equals `PairOldest` |
| CaroServer.Server.UsernameSet | server/server.py:156-203 | username_set in place equals `UsernameStep` and keeps the invariant |
| CaroServer.Server.Announce | server/server.py:228-241 | the verdict messages are exactly `Verdict`, computed with the CheckWin and IsBoardFull methods |
| CaroServer.Server.PlayMove | server/server.py:222-241 | the accepted move in place equals `Play` |
| CaroServer.Server.Move | server/server.py:205-243 | move in place equals `MoveStep` and keeps the invariant |
| CaroServer.Server.LooseMove | server/server.py:205-222 | move with coordinates of any JSON type in place equals `LooseMoveStep`, reports exactly when the cell test raised, and keeps the invariant |
| CaroServer.Server.IllTypedMove | server/server.py:209-222 | the guards and the cell test in place equal `IllTypedMoveStep`, and it reports exactly when the cell test raised |
| CaroServer.Server.Chat | server/server.py:245-255 | chat in place equals `ChatStep` |
| CaroServer.Server.AddRequest | server/server.py:265-268 | the sender's request is added, the set created when missing, and the opponent told |
| CaroServer.Server.AddDecline | server/server.py:301-304 | the sender's decline is added, the set created when missing, and the opponent told |
| CaroServer.Server.RematchRequest | server/server.py:258-293 | rematch_request in place equals `RematchRequestStep` and keeps the invariant |
| CaroServer.Server.RematchDeclined | server/server.py:295-307 | rematch_declined in place equals `RematchDeclinedStep` and keeps the invariant |
| CaroServer.Server.Connect | server/server.py:134 | the welcome notice is sent |
| CaroServer.Server.Dispatch | server/server.py:156-315 | one decoded message in place equals `DispatchStep`, reports exactly when the handler raised, and keeps the invariant |
| CaroServer.Server.HandleLine | server/server.py:146-155 | one line in place equals `LineStep` |
| CaroServer.Server.HandleLines | server/server.py:142-155 | the inner loop in place equals `Feed` over the lines |
| CaroServer.Server.Receive | server/server.py:137-145 | one recv pass in place equals `ReceiveStep`, framing the buffer with `Drain` |
| CaroServer.Server.HandleClient | server/server.py:132-315 | a whole connection in place equals `Connection` over the chunks and keeps the invariant |

## Left out

- The lock is not modelled. Each handler runs as one atomic step. In the source,
  `handle_disconnect` (lines 109-121) and the `rematch_declined` branch (lines 296-307) call
  `cleanup_game` while holding the non-reentrant `threading.Lock`, which `cleanup_game`
  tries to acquire again (line 70). The model runs the cleanup as if the lock were
  reentrant. It does not capture that these two paths block forever.
- Threads and interleaving between connections are not modelled: `start_server`, the
  listening socket and the per-connection threads. One connection's lines are handled in
  order. Several connections are modelled by calling the methods in any order.
- The send-failure path of `send_to_client` (lines 65-67) is left out. There, a failed send
  runs `handle_disconnect` from inside another handler. In the model, every send
  succeeds and is appended to `log`.
- `json.dumps`, the exact wire texts and the Vietnamese message strings are left out. An
  outbound message is an `Event` value, and prose texts are reduced to their kind.
- `json.loads` and the field reads are a `decode` parameter, not a parser. A line with a
  field missing (`data`, `username`, `row`, `col`), or with `data` or the line not an object, is
  given as `Message.Broken`. A move with a coordinate that is not an integer is given as
  `Message.LooseMove`, whose handler runs the guards and raises only when they pass. The
  model does not work out which lines decode to which message.
- The UTF-8 decoding of received bytes is left out. The chunks are already text, so a
  decoding error, which in the source ends the connection, is not modelled.
- `print`, `client_address` and the logging are left out. They only feed log output.
- `getpeername` is assumed to succeed. In the source it is called eagerly at lines 110-111,
  before handle_disconnect changes anything, and at line 230, in the win branch between
  the update_board and game_over messages. On a socket that is no longer connected it
  raises. The model does not capture the cleanup that this aborts, or the game_over
  messages that are then never sent.
- `socket.close` is left out. Closing is the `closed` flag.
- File-number reuse is not modelled. Each connection is assumed to get a fresh `Handle`.
  In the source the registry key is the socket object. After `close` (line 128) the OS
  may hand the same file number to a new connection, while the old socket can stay in
  `players_in_waitlist` as a separate key. A model caller that reuses a `Handle` for a
  new connection gets `AlreadyQueued` where the source would queue the newcomer.
- JSON values other than strings in `username`, `message` and `sender` are not modelled
  as such. `decode` maps each of them to a string: a falsy value (`null`, `false`, `0`,
  `""`, `[]`, `{}`) to `""`, and any other value to a non-empty string. So the
  truthiness test at line 169 gets the same answer. The JSON type of the name or text
  that is forwarded in `game_start` and `chat` is not kept.
- The coin `time.time() % 2 < 1` is a parameter, not a clock.
- Board aliasing is not modelled. The board is a value. The source mutates the board list
  in place (line 223) and sends that same list. No other registry holds it, so this is
  unobservable here.
- `Client.Session` and `CaroServer.Server.HandleClient` take a finite sequence of `recv`
  results. A connection that stays open past the last chunk ends with `closed` false.
- `Client.Feed` and `CaroServer.Server.Receive` frame the whole buffer first and then
  handle its lines. The source handles each line as soon as it is cut. No handler reads
  the buffer, so the lines and their order are the same (`Framer.Drain`,
  `Framer.MessagesChunked`).
- The client program (`client.py`) is not part of this model.
