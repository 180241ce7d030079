/** Identities, game ids and the JSON messages exchanged by server/server.py,
    as values. A player handle stands for a connected socket. */
module Protocol {
  import opened Board

  datatype Option<T> = None | Some(value: T)

  /** A connected client socket. The server keys every per-player registry by it, and
      generate_game_id uses its file number, so one natural number plays both roles. */
  type Handle = nat

  /** generate_game_id: the sorted pair of the two players' file numbers. */
  datatype GameId = GameId(lo: Handle, hi: Handle)

  function GameIdOf(a: Handle, b: Handle): (g: GameId)
    ensures g.lo <= g.hi
    ensures (g.lo == a && g.hi == b) || (g.lo == b && g.hi == a)
  {
    if a <= b then GameId(a, b) else GameId(b, a)
  }

  /** Both players of a game compute the same id. */
  lemma GameIdSymmetric(a: Handle, b: Handle)
    ensures GameIdOf(a, b) == GameIdOf(b, a)
  {
  }

  /** Two pairs share an id exactly when they are the same unordered pair. */
  lemma GameIdInjective(a: Handle, b: Handle, c: Handle, d: Handle)
    ensures GameIdOf(a, b) == GameIdOf(c, d) <==> (a == c && b == d) || (a == d && b == c)
  {
  }

  /** `{'row': r, 'col': c}` of last_moves and update_board. */
  datatype Pos = Pos(row: int, col: int)

  /** A `row` or `col` value as json.loads gives it: an integer (JSON true and false are
      Python's 1 and 0), a float, reduced to whether `0 <= x < BOARD_SIZE` holds for it
      (false for NaN and the infinities), or any other value (a string, null, a list, an
      object), with which that comparison raises. */
  datatype Coord = Int(value: int) | Float(onBoard: bool) | Other

  /** An inbound line after json.loads and the handler's own field reads.
      Move: both coordinates are integers. LooseMove: a move with some coordinate that is
      not an integer.
      Unhandled: a type no branch of handle_client matches (also a missing type).
      Broken: a field the handler reads with `[...]` is missing, so the handler raises
      and the connection is closed. */
  datatype Message =
    | UsernameSet(username: string)
    | Move(row: int, col: int)
    | LooseMove(looseRow: Coord, looseCol: Coord)
    | Chat(text: string, sender: Option<string>)
    | RematchRequest
    | RematchDeclined
    | RematchStart
    | Unhandled
    | Broken

  /** Which of the `wait` texts was sent. */
  datatype WaitNote =
    | Welcome          // on connection: asks for a user name
    | Queued           // name set, appended to the waitlist
    | AlreadyQueued    // name set, already waiting or already in a game
    | GameEnded        // game cleaned up, back on the waitlist

  /** Which of the `error` texts was sent. */
  datatype Fault =
    | NotInGame        // move without an opponent
    | NotYourTurn
    | BadGameData      // board or symbol missing
    | BadCell          // outside the board or occupied
    | NoChatPartner
    | NoRematchPartner

  /** Outbound `{type, data}` objects; human-readable texts are reduced to their kind. */
  datatype Event =
    | Wait(note: WaitNote)
    | GameStart(symbol: char, isTurn: bool, board: Grid, opponentName: string)
    | UpdateBoard(board: Grid, lastMove: Pos)
    | YourTurn
    | WaitTurn
    | GameOver(winner: Option<bool>)
    | Error(fault: Fault)
    | OpponentDisconnected
    | ChatLine(text: string, sender: string)
    | RematchRequested
    | RematchStarted
    | RematchRefused

  /** One send_to_client call: recipient and event. */
  datatype Outbound = Send(to: Handle, event: Event)

  /** Sender name used for a chat message without a `sender` field ("Người lạ"). */
  const StrangerName: string := "Ng\U{01B0}\U{1EDD}i l\U{1EA1}"

  /** Opponent name used on rematch when the opponent has no registered name ("Đối thủ"). */
  const OpponentFallbackName: string := "\U{0110}\U{1ED1}i th\U{1EE7}"
}
