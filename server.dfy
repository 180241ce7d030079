/** The module-level registries of server/server.py as the fields of one object, and the
    server's functions as methods that update them in place, statement by statement in
    the order the source runs them. Every send_to_client call appends to `log`. Each
    method is proved to leave exactly the registries and the messages that the matching
    step function of Registry, Handlers or Client describes, so everything proved there
    (the invariant Valid, the rematch and pairing properties, ...) holds of the object. */
module CaroServer {
  import opened Board
  import opened Protocol
  import opened Registry
  import opened Handlers
  import opened Framer
  import opened Client

  /** The state cleanup_game leaves, one registry at a time. */
  lemma MinusTwo<K, V>(m: map<K, V>, a: K, b: K)
    ensures m - {a} - {b} == m - {a, b}
  {
  }

  /** The state handle_disconnect leaves, given what its first three statements left. */
  lemma DisconnectIs(r: State, h: Handle, r1: State, r2: State, r': State, sent: seq<Outbound>)
    requires r.Wf()
    requires r1 == r.(lobby := r.lobby.(waitlist := RemoveFirst(r.lobby.waitlist, h)))
    requires h in r.pairing.partner ==>
      var opp := r.pairing.partner[h];
      var c := CleanupStep(r1, GameIdOf(h, opp));
      r2 == c.reg && sent == [Send(opp, OpponentDisconnected)] + c.out
    requires h !in r.pairing.partner ==> r2 == r1 && sent == []
    requires r' == r2.(lobby := r2.lobby.(names := r2.lobby.names - {h}), pairing := r2.pairing.(symbols := r2.pairing.symbols - {h}))
    ensures DisconnectStep(r, h) == Step(r', sent)
  {
  }

  /** username_set is its enrolment followed by its pairing. */
  lemma UsernameIs(r: State, h: Handle, name: string, coin: bool, r': State, sent: seq<Outbound>)
    requires r.Wf()
    requires var p := PairOldest(Enrol(r, h, name), coin);
      r' == p.reg && sent == [Send(h, Wait(if Enrols(r, h) then Queued else AlreadyQueued))] + p.out
    ensures UsernameStep(r, h, name, coin) == Step(r', sent)
  {
  }


  /** rematch_declined, given the decline it recorded and what followed. */
  lemma DeclinedIs(r: State, h: Handle, r1: State, r': State, sent: seq<Outbound>)
    requires r.Wf() && h in r.pairing.partner
    requires var gid := GameIdOf(h, r.pairing.partner[h]);
      r1 == SetDeclined(r, gid, Votes(r.games.declined, gid) + {h})
    requires var opp := r.pairing.partner[h];
      var gid := GameIdOf(h, opp);
      if |r1.games.declined[gid]| == 2 then
        var c := CleanupStep(r1, gid);
        r' == c.reg && sent == [Send(opp, RematchRefused)] + c.out
      else r' == r1 && sent == [Send(opp, RematchRefused)]
    ensures RematchDeclinedStep(r, h) == Step(r', sent)
  {
  }

  /** The read loop's invariant carried over one more line. */
  lemma NextIs(r0: State, h: Handle, lines: seq<string>, i: nat, decode: string -> Option<Message>, flip: nat -> bool,
               k: nat, log0: seq<Outbound>, mid: seq<Outbound>, r': State, log': seq<Outbound>, closed: bool)
    requires r0.Wf() && i < |lines|
    requires var o1 := Feed(r0, h, lines[..i], decode, flip, k);
      var l := LineStep(o1.reg, h, lines[i], decode, flip(k + i));
      && !o1.closed && mid == log0 + o1.out
      && r' == l.reg && log' == mid + l.out && closed == l.closed
    ensures var o := Feed(r0, h, lines[..i + 1], decode, flip, k);
      r' == o.reg && log' == log0 + o.out && closed == o.closed
  {
    var o1 := Feed(r0, h, lines[..i], decode, flip, k);
    var l := LineStep(o1.reg, h, lines[i], decode, flip(k + i));
    FeedLine(r0, h, lines, i, decode, flip, k);
    AppendAssoc(log0, o1.out, l.out);
  }

  /** The outer read loop's invariant carried over one more pass: `o` is the session from
      this pass on, `p` the pass and `o'` the session after it. */
  lemma SessionNext(total: Outcome, done: seq<Outbound>, o: Outcome, p: Read, o': Outcome)
    requires total == Outcome(o.reg, done + o.out, o.closed)
    requires if p.closed then o == Outcome(p.reg, p.out, true) else o == Outcome(o'.reg, p.out + o'.out, o'.closed)
    ensures p.closed ==> total == Outcome(p.reg, done + p.out, true)
    ensures !p.closed ==> total == Outcome(o'.reg, (done + p.out) + o'.out, o'.closed)
  {
    if !p.closed {
      AppendAssoc(done, p.out, o'.out);
    }
  }

  /** Session at chunk `j` is the pass over chunk `j`, then, unless it closed the
      connection, the session from chunk `j + 1`. */
  lemma SessionUnfold(r: State, h: Handle, buffer: string, chunks: seq<string>, j: nat, decode: string -> Option<Message>,
                      flip: nat -> bool, k: nat, p: Read)
    requires r.Wf() && j < |chunks| && p == ReceiveStep(r, h, buffer, chunks[j], decode, flip, k)
    ensures p.reg.Wf()
    ensures var o := Session(r, h, buffer, chunks, j, decode, flip, k);
      if p.closed then o == Outcome(p.reg, p.out, true)
      else
        var o' := Session(p.reg, h, p.buffer, chunks, j + 1, decode, flip, k + Handled(buffer, chunks[j]));
        o == Outcome(o'.reg, p.out + o'.out, o'.closed)
  {
  }

  /** What the outer read loop leaves when it stops. */
  lemma ConnectionIs(r0: State, h: Handle, chunks: seq<string>, decode: string -> Option<Message>, flip: nat -> bool,
                     total: Outcome, done: seq<Outbound>, closed: bool, j: nat, buffer: string, k: nat, r': State,
                     log0: seq<Outbound>, log': seq<Outbound>)
    requires r0.Wf() && j <= |chunks| && r'.Wf()
    requires total == Session(r0, h, "", chunks, 0, decode, flip, 0)
    requires !closed ==> j == |chunks|
    requires !closed ==> var o := Session(r', h, buffer, chunks, j, decode, flip, k);
      total == Outcome(o.reg, done + o.out, o.closed)
    requires closed ==> total == Outcome(r', done, true)
    requires log' == (log0 + [Send(h, Wait(Welcome))]) + done
    ensures var o := Connection(r0, h, chunks, decode, flip);
      o.reg == r' && log' == log0 + o.out && o.closed == closed
  {
    if !closed {
      assert done + [] == done;
    }
    AppendAssoc(log0, [Send(h, Wait(Welcome))], done);
  }

  lemma ConnectionKeepsValidIf(r: State, h: Handle, chunks: seq<string>, decode: string -> Option<Message>, flip: nat -> bool)
    requires r.Wf()
    ensures r.Valid() ==> Connection(r, h, chunks, decode, flip).reg.Valid()
  {
    if r.Valid() {
      SessionKeepsValid(r, h, "", chunks, 0, decode, flip, 0);
    }
  }

  lemma CleanupKeepsValidIf(r: State, gid: GameId)
    requires r.Wf()
    ensures r.Valid() ==> CleanupStep(r, gid).reg.Valid()
  {
    if r.Valid() {
      CleanupKeepsValid(r, gid);
    }
  }

  lemma DisconnectKeepsValidIf(r: State, h: Handle)
    requires r.Wf()
    ensures r.Valid() ==> DisconnectStep(r, h).reg.Valid()
  {
    if r.Valid() {
      DisconnectKeepsValid(r, h);
    }
  }

  lemma UsernameKeepsValidIf(r: State, h: Handle, name: string, coin: bool)
    requires r.Wf()
    ensures r.Valid() ==> UsernameStep(r, h, name, coin).reg.Valid()
  {
    if r.Valid() {
      UsernameKeepsValid(r, h, name, coin);
    }
  }

  lemma MoveKeepsValidIf(r: State, h: Handle, row: int, col: int)
    requires r.Wf()
    ensures r.Valid() ==> MoveStep(r, h, row, col).reg.Valid()
  {
    if r.Valid() {
      MoveKeepsValid(r, h, row, col);
    }
  }

  lemma RematchRequestKeepsValidIf(r: State, h: Handle, coin: bool)
    requires r.Wf()
    ensures r.Valid() ==> RematchRequestStep(r, h, coin).reg.Valid()
  {
    if r.Valid() {
      RematchRequestKeepsValid(r, h, coin);
    }
  }

  lemma RematchDeclinedKeepsValidIf(r: State, h: Handle)
    requires r.Wf()
    ensures r.Valid() ==> RematchDeclinedStep(r, h).reg.Valid()
  {
    if r.Valid() {
      RematchDeclinedKeepsValid(r, h);
    }
  }

  class Server {
    var lobby: Lobby      // players_in_waitlist, player_names
    var pairing: Pairing  // game_pairs (with its key order), player_symbols
    var games: Games      // game_boards, current_turns, last_moves, rematch_requests, rematch_declined_flags
    var log: seq<Outbound> // every message sent, in order

    /** The registries as a value. */
    ghost function Registries(): State
      reads this
    {
      Registry.State(lobby, pairing, games)
    }

    /** Module load: every registry empty, nothing sent. */
    constructor ()
      ensures Registries() == Initial && Registries().Valid() && log == []
    {
      lobby := Lobby([], map[]);
      pairing := Pairing(map[], [], map[]);
      games := Games(map[], map[], map[], map[], map[]);
      log := [];
      InitialValid();
    }

    /** send_to_client. */
    method SendToClient(to: Handle, e: Event)
      modifies this
      ensures Registries() == old(Registries()) && log == old(log) + [Send(to, e)]
    {
      log := log + [Send(to, e)];
    }

    // -------------------------------------------------------------------------
    // cleanup_game and handle_disconnect

    /** cleanup_game's search: the first entry of game_pairs, in insertion order, whose
        pair has id `gid`. */
    method FindGame(gid: GameId) returns (p: Option<Handle>)
      requires pairing.Wf()
      ensures p == FirstWithId(pairing.order, pairing.partner, gid)
    {
      var order, partner := pairing.order, pairing.partner;
      var i := 0;
      while i < |order|
        invariant 0 <= i <= |order|
        invariant FirstWithId(order, partner, gid) == FirstWithId(order[i..], partner, gid)
      {
        var a := order[i];
        if GameIdOf(a, partner[a]) == gid {
          return Some(a);
        }
        assert order[i..][1..] == order[i + 1..];
        i := i + 1;
      }
      return None;
    }

    /** cleanup_game's requeue of one participant, with its `wait` notice. */
    method RequeuePlayer(p: Handle)
      modifies this
      ensures lobby == old(lobby).(waitlist := Requeue(old(lobby.waitlist), lobby.names, p))
      ensures pairing == old(pairing) && games == old(games)
      ensures log == old(log) + RequeueNote(old(lobby.waitlist), lobby.names, p)
    {
      if p in lobby.names && p !in lobby.waitlist {
        lobby := lobby.(waitlist := lobby.waitlist + [p]);
        SendToClient(p, Wait(GameEnded));
      }
    }

    /** cleanup_game once its search has found `p1`: unpair both players, requeue each with
        a notice, drop both symbols. */
    method EndPair(p1: Handle)
      requires p1 in pairing.partner && Registries().Wf()
      modifies this
      ensures Registries() == EndPairStep(old(Registries()), p1).reg
      ensures log == old(log) + EndPairStep(old(Registries()), p1).out
    {
      ghost var r, log0 := Registries(), log;
      var p2 := pairing.partner[p1];
      MinusTwo(pairing.partner, p1, p2);
      MinusTwo(pairing.symbols, p1, p2);
      pairing := pairing.(partner := pairing.partner - {p1}, order := RemoveFirst(pairing.order, p1));
      pairing := pairing.(partner := pairing.partner - {p2}, order := RemoveFirst(pairing.order, p2));
      RequeuePlayer(p1);
      RequeuePlayer(p2);
      pairing := pairing.(symbols := pairing.symbols - {p1});
      pairing := pairing.(symbols := pairing.symbols - {p2});
      AppendAssoc(log0, RequeueNote(r.lobby.waitlist, r.lobby.names, p1),
                  RequeueNote(Requeue(r.lobby.waitlist, r.lobby.names, p1), r.lobby.names, p2));
    }

    /** cleanup_game. */
    method Cleanup(gid: GameId)
      requires Registries().Wf()
      modifies this
      ensures Registries() == CleanupStep(old(Registries()), gid).reg
      ensures log == old(log) + CleanupStep(old(Registries()), gid).out
      ensures old(Registries().Valid()) ==> Registries().Valid()
    {
      CleanupKeepsValidIf(Registries(), gid);
      games := games.Without(gid);
      var found := FindGame(gid);
      if found.Some? {
        EndPair(found.value);
      }
    }

    /** The middle of handle_disconnect: when `h` is in a game, tell the opponent and clean
        the game up. */
    method LeaveGame(h: Handle)
      requires Registries().Wf()
      modifies this
      ensures h in old(pairing.partner) ==>
        var opp := old(pairing.partner[h]);
        var c := CleanupStep(old(Registries()), GameIdOf(h, opp));
        Registries() == c.reg && log == old(log) + ([Send(opp, OpponentDisconnected)] + c.out)
      ensures h !in old(pairing.partner) ==> Registries() == old(Registries()) && log == old(log)
    {
      if h in pairing.partner {
        var opp := pairing.partner[h];
        ghost var log0 := log;
        ghost var c := CleanupStep(Registries(), GameIdOf(h, opp));
        SendToClient(opp, OpponentDisconnected);
        Cleanup(GameIdOf(h, opp));
        AppendAssoc(log0, [Send(opp, OpponentDisconnected)], c.out);
      }
    }

    /** handle_disconnect. */
    method Disconnect(h: Handle)
      requires Registries().Wf()
      modifies this
      ensures Registries() == DisconnectStep(old(Registries()), h).reg
      ensures log == old(log) + DisconnectStep(old(Registries()), h).out
      ensures old(Registries().Valid()) ==> Registries().Valid()
    {
      ghost var r, log0 := Registries(), log;
      if h in lobby.waitlist {
        lobby := lobby.(waitlist := RemoveFirst(lobby.waitlist, h));
      }
      ghost var r1 := Registries();
      LeaveGame(h);
      ghost var r2 := Registries();
      lobby := lobby.(names := lobby.names - {h});
      pairing := pairing.(symbols := pairing.symbols - {h});
      DisconnectIs(r, h, r1, r2, Registries(), log[|log0|..]);
      DisconnectKeepsValidIf(r, h);
    }

    // -------------------------------------------------------------------------
    // username_set

    /** The first half of username_set: record the name; enrol the sender unless it is
        waiting or in a game, and tell it which. */
    method RecordName(h: Handle, name: string)
      modifies this
      ensures Registries() == Enrol(old(Registries()), h, name)
      ensures log == old(log) + [Send(h, Wait(if Enrols(old(Registries()), h) then Queued else AlreadyQueued))]
    {
      lobby := lobby.(names := lobby.names[h := name]);
      if h !in lobby.waitlist && h !in pairing.partner {
        lobby := lobby.(waitlist := lobby.waitlist + [h]);
        SendToClient(h, Wait(Queued));
      } else {
        SendToClient(h, Wait(AlreadyQueued));
      }
    }

    /** `game_pairs[p1] = p2; game_pairs[p2] = p1` and the empty vote sets of the new game. */
    method PairUp(p1: Handle, p2: Handle)
      requires Registries().Wf()
      modifies this
      ensures Registries() == Pair(old(Registries()), p1, p2) && log == old(log)
    {
      var gid := GameIdOf(p1, p2);
      pairing := pairing.(partner := pairing.partner[p1 := p2], order := Insert(pairing.order, p1));
      pairing := pairing.(partner := pairing.partner[p2 := p1], order := Insert(pairing.order, p2));
      games := games.(requests := games.requests[gid := {}]);
      games := games.(declined := games.declined[gid := {}]);
    }

    /** A deal on game id `gid`: fresh board, no last move, the coin picks the first mover,
        who plays X; each player is sent game_start with the other's name. */
    method DealGame(a: Handle, b: Handle, gid: GameId, coin: bool, nameOfB: string, nameOfA: string)
      requires Registries().Wf()
      modifies this
      ensures Registries() == Deal(old(Registries()), gid, a, b, coin)
      ensures log == old(log) + Starts(a, b, coin, nameOfB, nameOfA)
    {
      games := games.(boards := games.boards[gid := NewBoard()]);
      games := games.(lastMoves := games.lastMoves[gid := None]);
      var first := if coin then a else b;
      games := games.(turns := games.turns[gid := first]);
      var symbol1 := if first == a then X else O;
      var symbol2 := if first == a then O else X;
      pairing := pairing.(symbols := pairing.symbols[a := symbol1]);
      pairing := pairing.(symbols := pairing.symbols[b := symbol2]);
      SendToClient(a, GameStart(symbol1, first == a, games.boards[gid], nameOfB));
      SendToClient(b, GameStart(symbol2, first == b, games.boards[gid], nameOfA));
    }

    /** The start of a game between the two popped players. The source writes the board
        and the last move before the pairs and the vote sets; those are other registries,
        so the order does not change the result. */
    method StartNewGame(p1: Handle, p2: Handle, coin: bool)
      requires Registries().Wf() && p1 in lobby.names && p2 in lobby.names
      modifies this
      ensures Registries() == StartGame(old(Registries()), p1, p2, coin).reg
      ensures log == old(log) + StartGame(old(Registries()), p1, p2, coin).out
    {
      var name1, name2 := lobby.names[p1], lobby.names[p2];
      PairUp(p1, p2);
      DealGame(p1, p2, GameIdOf(p1, p2), coin, name2, name1);
    }

    /** The pairing half of username_set: with two or more waiting, pop the two oldest;
        when either lacks a truthy name put the first named one that is not waiting back
        at the front, else start their game. */
    method PairWaiting(coin: bool)
      requires Registries().Wf()
      modifies this
      ensures Registries() == PairOldest(old(Registries()), coin).reg
      ensures log == old(log) + PairOldest(old(Registries()), coin).out
    {
      ghost var w := lobby.waitlist;
      if |lobby.waitlist| >= 2 {
        var p1 := lobby.waitlist[0];
        lobby := lobby.(waitlist := lobby.waitlist[1..]);
        var p2 := lobby.waitlist[0];
        lobby := lobby.(waitlist := lobby.waitlist[1..]);
        assert lobby.waitlist == w[2..];
        if !Named(lobby.names, p1) || !Named(lobby.names, p2) {
          if Named(lobby.names, p1) && p1 !in lobby.waitlist {
            lobby := lobby.(waitlist := [p1] + lobby.waitlist);
          } else if Named(lobby.names, p2) && p2 !in lobby.waitlist {
            lobby := lobby.(waitlist := [p2] + lobby.waitlist);
          }
        } else {
          StartNewGame(p1, p2, coin);
        }
      }
    }

    /** username_set. */
    method UsernameSet(h: Handle, name: string, coin: bool)
      requires Registries().Wf()
      modifies this
      ensures Registries() == UsernameStep(old(Registries()), h, name, coin).reg
      ensures log == old(log) + UsernameStep(old(Registries()), h, name, coin).out
      ensures old(Registries().Valid()) ==> Registries().Valid()
    {
      ghost var r, log0 := Registries(), log;
      UsernameKeepsValidIf(r, h, name, coin);
      ghost var note := [Send(h, Wait(if Enrols(r, h) then Queued else AlreadyQueued))];
      RecordName(h, name);
      ghost var p := PairOldest(Registries(), coin);
      PairWaiting(coin);
      AppendAssoc(log0, note, p.out);
      UsernameIs(r, h, name, coin, Registries(), note + p.out);
    }

    // -------------------------------------------------------------------------
    // move

    /** The verdict after an accepted move: check_win, and only when it fails,
        is_board_full; both players are told the outcome. */
    method Announce(b: Grid, row: int, col: int, sym: char, h: Handle, opp: Handle)
      requires Shaped(b)
      modifies this
      ensures Registries() == old(Registries())
      ensures log == old(log) + Verdict(b, row, col, sym, h, opp)
    {
      var won := CheckWin(b, row, col, sym);
      if won {
        SendToClient(h, GameOver(Some(true)));
        SendToClient(opp, GameOver(Some(false)));
      } else {
        var full := IsBoardFull(b);
        if full {
          SendToClient(h, GameOver(None));
          SendToClient(opp, GameOver(None));
        } else {
          SendToClient(opp, YourTurn);
          SendToClient(h, WaitTurn);
        }
      }
    }

    /** The accepted branch of move: place the symbol, record the last move, hand the turn
        to the opponent, send the new board to both, then the verdict. */
    method PlayMove(h: Handle, row: int, col: int)
      requires Registries().Wf() && MoveFault(Registries(), h, row, col).None?
      modifies this
      ensures Registries() == Play(old(Registries()), h, row, col).reg
      ensures log == old(log) + Play(old(Registries()), h, row, col).out
    {
      var opp := pairing.partner[h];
      var gid := GameIdOf(h, opp);
      var symbol := pairing.symbols[h];
      var board := Place(games.boards[gid], row, col, symbol);
      games := games.(boards := games.boards[gid := board]);
      games := games.(lastMoves := games.lastMoves[gid := Some(Pos(row, col))]);
      games := games.(turns := games.turns[gid := opp]);
      SendToClient(h, UpdateBoard(board, Pos(row, col)));
      SendToClient(opp, UpdateBoard(board, Pos(row, col)));
      Announce(board, row, col, symbol, h, opp);
    }

    /** move: each guard in turn sends its error to the sender and stops the handler. */
    method Move(h: Handle, row: int, col: int)
      requires Registries().Wf()
      modifies this
      ensures Registries() == MoveStep(old(Registries()), h, row, col).reg
      ensures log == old(log) + MoveStep(old(Registries()), h, row, col).out
      ensures old(Registries().Valid()) ==> Registries().Valid()
    {
      MoveKeepsValidIf(Registries(), h, row, col);
      if h !in pairing.partner {
        SendToClient(h, Error(NotInGame));
        return;
      }
      var opp := pairing.partner[h];
      var gid := GameIdOf(h, opp);
      if gid !in games.turns || games.turns[gid] != h {
        SendToClient(h, Error(NotYourTurn));
        return;
      }
      if gid !in games.boards || h !in pairing.symbols {
        SendToClient(h, Error(BadGameData));
        return;
      }
      var board := games.boards[gid];
      if InBounds(row, col) && board[row][col] == Empty {
        PlayMove(h, row, col);
      } else {
        SendToClient(h, Error(BadCell));
      }
    }

    /** move with coordinates of any JSON type: integers are the ordinary move; otherwise
        the same three guards, then the cell test, which either raises (`raised`: the
        connection is then cleaned up) or sends the cell error. */
    method LooseMove(h: Handle, row: Coord, col: Coord) returns (raised: bool)
      requires Registries().Wf()
      modifies this
      ensures Registries() == LooseMoveStep(old(Registries()), h, row, col).reg
      ensures log == old(log) + LooseMoveStep(old(Registries()), h, row, col).out
      ensures raised == LooseMoveRaises(old(Registries()), h, row, col)
      ensures old(Registries().Valid()) ==> Registries().Valid()
    {
      if Registries().Valid() {
        LooseMoveKeepsValid(Registries(), h, row, col);
      }
      if row.Int? && col.Int? {
        Move(h, row.value, col.value);
        raised := false;
      } else {
        raised := IllTypedMove(h, row, col);
      }
    }

    /** The move branch when some coordinate is not an integer. */
    method IllTypedMove(h: Handle, row: Coord, col: Coord) returns (raised: bool)
      requires Registries().Wf() && !(row.Int? && col.Int?)
      modifies this
      ensures Registries() == IllTypedMoveStep(old(Registries()), h, row, col).reg
      ensures log == old(log) + IllTypedMoveStep(old(Registries()), h, row, col).out
      ensures raised == LooseMoveRaises(old(Registries()), h, row, col)
    {
      raised := false;
      if h !in pairing.partner {
        SendToClient(h, Error(NotInGame));
        return;
      }
      var opp := pairing.partner[h];
      var gid := GameIdOf(h, opp);
      if gid !in games.turns || games.turns[gid] != h {
        SendToClient(h, Error(NotYourTurn));
        return;
      }
      if gid !in games.boards || h !in pairing.symbols {
        SendToClient(h, Error(BadGameData));
        return;
      }
      raised := CellTestRaises(row, col);
      if raised {
        Disconnect(h);
      } else {
        SendToClient(h, Error(BadCell));
      }
    }

    // -------------------------------------------------------------------------
    // chat, rematch_request, rematch_declined

    /** chat. */
    method Chat(h: Handle, text: string, sender: Option<string>)
      modifies this
      ensures Registries() == ChatStep(old(Registries()), h, text, sender).reg
      ensures log == old(log) + ChatStep(old(Registries()), h, text, sender).out
    {
      var name := if sender.Some? then sender.value else StrangerName;
      if h in pairing.partner {
        SendToClient(pairing.partner[h], ChatLine(text, name));
      } else {
        SendToClient(h, Error(NoChatPartner));
      }
    }

    /** The sender's rematch vote is added (the set is created when missing) and the
        opponent told. */
    method AddRequest(h: Handle, opp: Handle)
      modifies this
      ensures var gid := GameIdOf(h, opp);
        Registries() == SetRequests(old(Registries()), gid, Votes(old(games.requests), gid) + {h})
      ensures log == old(log) + [Send(opp, RematchRequested)]
    {
      var gid := GameIdOf(h, opp);
      if gid !in games.requests {
        games := games.(requests := games.requests[gid := {}]);
      }
      games := games.(requests := games.requests[gid := games.requests[gid] + {h}]);
      SendToClient(opp, RematchRequested);
    }

    /** The sender's decline is added (the set is created when missing) and the opponent
        told. */
    method AddDecline(h: Handle, opp: Handle)
      modifies this
      ensures var gid := GameIdOf(h, opp);
        Registries() == SetDeclined(old(Registries()), gid, Votes(old(games.declined), gid) + {h})
      ensures log == old(log) + [Send(opp, RematchRefused)]
    {
      var gid := GameIdOf(h, opp);
      if gid !in games.declined {
        games := games.(declined := games.declined[gid := {}]);
      }
      games := games.(declined := games.declined[gid := games.declined[gid] + {h}]);
      SendToClient(opp, RematchRefused);
    }

    /** rematch_request. */
    method RematchRequest(h: Handle, coin: bool)
      requires Registries().Wf()
      modifies this
      ensures Registries() == RematchRequestStep(old(Registries()), h, coin).reg
      ensures log == old(log) + RematchRequestStep(old(Registries()), h, coin).out
      ensures old(Registries().Valid()) ==> Registries().Valid()
    {
      RematchRequestKeepsValidIf(Registries(), h, coin);
      if h !in pairing.partner {
        SendToClient(h, Error(NoRematchPartner));
        return;
      }
      var opp := pairing.partner[h];
      var gid := GameIdOf(h, opp);
      AddRequest(h, opp);
      if |games.requests[gid]| == 2 {
        SendToClient(h, RematchStarted);
        SendToClient(opp, RematchStarted);
        DealGame(h, opp, gid, coin, NameOr(lobby.names, opp), NameOr(lobby.names, h));
        games := games.(requests := games.requests[gid := {}]);
      }
    }

    /** rematch_declined. */
    method RematchDeclined(h: Handle)
      requires Registries().Wf()
      modifies this
      ensures Registries() == RematchDeclinedStep(old(Registries()), h).reg
      ensures log == old(log) + RematchDeclinedStep(old(Registries()), h).out
      ensures old(Registries().Valid()) ==> Registries().Valid()
    {
      ghost var r, log0 := Registries(), log;
      RematchDeclinedKeepsValidIf(r, h);
      if h !in pairing.partner {
        return;
      }
      var opp := pairing.partner[h];
      var gid := GameIdOf(h, opp);
      AddDecline(h, opp);
      ghost var r1 := Registries();
      ghost var sent := [Send(opp, RematchRefused)];
      if |games.declined[gid]| == 2 {
        ghost var c := CleanupStep(r1, gid);
        Cleanup(gid);
        AppendAssoc(log0, sent, c.out);
        sent := sent + c.out;
      }
      DeclinedIs(r, h, r1, Registries(), sent);
    }

    // -------------------------------------------------------------------------
    // handle_client

    /** The welcome notice sent on connection. */
    method Connect(h: Handle)
      modifies this
      ensures Registries() == ConnectStep(old(Registries()), h).reg
      ensures log == old(log) + ConnectStep(old(Registries()), h).out
    {
      SendToClient(h, Wait(Welcome));
    }

    /** The `if msg_type == ...` chain of handle_client for one decoded message; a message
        whose handler raises ends the connection through handle_disconnect. */
    method Dispatch(h: Handle, m: Message, coin: bool) returns (raised: bool)
      requires Registries().Wf()
      modifies this
      ensures Registries() == DispatchStep(old(Registries()), h, m, coin).reg
      ensures log == old(log) + DispatchStep(old(Registries()), h, m, coin).out
      ensures raised == Raises(old(Registries()), h, m)
      ensures old(Registries().Valid()) ==> Registries().Valid()
    {
      raised := false;
      match m
      case UsernameSet(name) => UsernameSet(h, name, coin);
      case Move(row, col) => Move(h, row, col);
      case LooseMove(row, col) => raised := LooseMove(h, row, col);
      case Chat(text, sender) => Chat(h, text, sender);
      case RematchRequest => RematchRequest(h, coin);
      case RematchDeclined => RematchDeclined(h);
      case RematchStart =>
      case Unhandled =>
      case Broken =>
        Disconnect(h);
        raised := true;
    }

    /** One line of the inner read loop: decoded and, when it is a message, dispatched. */
    method HandleLine(h: Handle, line: string, decode: string -> Option<Message>, coin: bool) returns (closed: bool)
      requires Registries().Wf()
      modifies this
      ensures var o := LineStep(old(Registries()), h, line, decode, coin);
        Registries() == o.reg && log == old(log) + o.out && closed == o.closed
    {
      closed := false;
      var msg := decode(line);
      if msg.Some? {
        closed := Dispatch(h, msg.value, coin);
      }
    }

    /** One turn of the inner read loop: the line after the first `i`, which left the
        connection open. */
    method HandleNext(h: Handle, lines: seq<string>, i: nat, decode: string -> Option<Message>, flip: nat -> bool, k: nat,
                      ghost r0: State, ghost log0: seq<Outbound>)
      returns (closed: bool)
      requires i < |lines| && r0.Wf() && Registries().Wf()
      requires var o := Feed(r0, h, lines[..i], decode, flip, k);
        Registries() == o.reg && log == log0 + o.out && !o.closed
      modifies this
      ensures Registries().Wf()
      ensures var o := Feed(r0, h, lines[..i + 1], decode, flip, k);
        Registries() == o.reg && log == log0 + o.out && closed == o.closed
    {
      ghost var mid := log;
      closed := HandleLine(h, lines[i], decode, flip(k + i));
      NextIs(r0, h, lines, i, decode, flip, k, log0, mid, Registries(), log, closed);
    }

    /** The inner read loop over the complete non-blank lines of one pass: a line that is
        not JSON is skipped, a decoded one is dispatched, and a handler that raises ends the
        loop and the connection. The k-th handled line uses coin `flip(k)`. */
    method HandleLines(h: Handle, lines: seq<string>, decode: string -> Option<Message>, flip: nat -> bool, k: nat)
      returns (closed: bool)
      requires Registries().Wf()
      modifies this
      ensures var o := Feed(old(Registries()), h, lines, decode, flip, k);
        Registries() == o.reg && log == old(log) + o.out && closed == o.closed
    {
      ghost var r0, log0 := Registries(), log;
      closed := false;
      var i := 0;
      while i < |lines| && !closed
        invariant 0 <= i <= |lines|
        invariant Registries().Wf()
        invariant var o := Feed(r0, h, lines[..i], decode, flip, k);
          Registries() == o.reg && log == log0 + o.out && closed == o.closed
      {
        closed := HandleNext(h, lines, i, decode, flip, k, r0, log0);
        i := i + 1;
      }
      FeedAppend(r0, h, lines[..i], lines[i..], decode, flip, k);
      assert lines[..i] + lines[i..] == lines;
    }

    /** One pass of handle_client's outer loop: `recv` returned `data`. Empty data ends the
        connection through handle_disconnect; otherwise the data joins the buffer, its
        complete non-blank lines are handled, and the unterminated tail is kept. `count` is
        the number of lines handed to the inner loop. */
    method Receive(h: Handle, buffer: string, data: string, decode: string -> Option<Message>, flip: nat -> bool, k: nat)
      returns (closed: bool, rest: string, count: nat)
      requires Registries().Wf()
      modifies this
      ensures var o := ReceiveStep(old(Registries()), h, buffer, data, decode, flip, k);
        Registries() == o.reg && log == old(log) + o.out && closed == o.closed && rest == o.buffer
      ensures count == Handled(buffer, data)
    {
      if data == [] {
        Disconnect(h);
        return true, buffer, 0;
      }
      var messages;
      messages, rest := Drain(buffer + data);
      closed := HandleLines(h, messages, decode, flip, k);
      count := |messages|;
    }

    /** One turn of handle_client's outer loop, carrying its invariant: `total` is what the
        whole read loop does from `r0`, `done` what it has sent so far. */
    method ReceiveNext(h: Handle, buffer: string, chunks: seq<string>, j: nat, decode: string -> Option<Message>,
                       flip: nat -> bool, k: nat, ghost total: Outcome, ghost log1: seq<Outbound>, ghost done: seq<Outbound>)
      returns (closed: bool, buffer': string, j': nat, k': nat, ghost done': seq<Outbound>)
      requires j < |chunks| && Registries().Wf() && log == log1 + done
      requires var o := Session(Registries(), h, buffer, chunks, j, decode, flip, k);
        total == Outcome(o.reg, done + o.out, o.closed)
      modifies this
      ensures j' == j + 1 && Registries().Wf() && log == log1 + done'
      ensures !closed ==> var o := Session(Registries(), h, buffer', chunks, j', decode, flip, k');
        total == Outcome(o.reg, done' + o.out, o.closed)
      ensures closed ==> total == Outcome(Registries(), done', true)
    {
      ghost var r := Registries();
      ghost var p := ReceiveStep(r, h, buffer, chunks[j], decode, flip, k);
      var count;
      closed, buffer', count := Receive(h, buffer, chunks[j], decode, flip, k);
      j', k' := j + 1, k + count;
      assert Registries() == p.reg && buffer' == p.buffer && k' == k + Handled(buffer, chunks[j]);
      SessionUnfold(r, h, buffer, chunks, j, decode, flip, k, p);
      ghost var rest := Session(p.reg, h, p.buffer, chunks, j', decode, flip, k');
      SessionNext(total, done, Session(r, h, buffer, chunks, j, decode, flip, k), p, rest);
      AppendAssoc(log1, done, p.out);
      done' := done + p.out;
    }

    /** handle_client: the welcome notice, then `recv` after `recv` until a pass closes the
        connection (or, in the model, the given chunks run out). The coin of the k-th
        handled line of the connection is `flip(k)`. */
    method HandleClient(h: Handle, chunks: seq<string>, decode: string -> Option<Message>, flip: nat -> bool)
      returns (closed: bool)
      requires Registries().Wf()
      modifies this
      ensures var o := Connection(old(Registries()), h, chunks, decode, flip);
        Registries() == o.reg && log == old(log) + o.out && closed == o.closed
      ensures old(Registries().Valid()) ==> Registries().Valid()
    {
      ghost var r0, log0 := Registries(), log;
      ConnectionKeepsValidIf(r0, h, chunks, decode, flip);
      Connect(h);
      ghost var total := Session(r0, h, "", chunks, 0, decode, flip, 0);
      ghost var done: seq<Outbound> := [];
      var buffer := "";
      var k := 0;
      var j := 0;
      closed := false;
      while j < |chunks| && !closed
        invariant j <= |chunks|
        invariant Registries().Wf() && log == (log0 + [Send(h, Wait(Welcome))]) + done
        invariant !closed ==> var o := Session(Registries(), h, buffer, chunks, j, decode, flip, k);
          total == Outcome(o.reg, done + o.out, o.closed)
        invariant closed ==> total == Outcome(Registries(), done, true)
      {
        closed, buffer, j, k, done := ReceiveNext(h, buffer, chunks, j, decode, flip, k, total, log0 + [Send(h, Wait(Welcome))], done);
      }
      ConnectionIs(r0, h, chunks, decode, flip, total, done, closed, j, buffer, k, Registries(), log0, log);
    }
  }
}
