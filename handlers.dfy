/** The per-message branches of handle_client (server/server.py) as functions of the
    registries: each returns the new registries and the messages sent, in order. The coin
    `time.time() % 2 < 1` that picks the first mover is a parameter. */
module Handlers {
  import opened Board
  import opened Protocol
  import opened Registry

  // ---------------------------------------------------------------------------
  // Game start, shared by pairing and rematch

  /** The symbol the first mover plays, and the other's. */
  function SymbolOf(first: Handle, a: Handle): char {
    if first == a then X else O
  }

  /** The deal of a new game between `a` and `b`: a fresh board, no last move, the turn to
      `a` when the coin says so and to `b` otherwise, X to the first mover and O to the other. */
  function Deal(r: State, gid: GameId, a: Handle, b: Handle, coin: bool): (r': State)
    requires r.Wf()
    ensures r'.Wf()
  {
    var first := if coin then a else b;
    SetSymbols(Replay(r, gid, NewBoard(), None, first), a, b, SymbolOf(first, a), if first == a then O else X)
  }

  /** `player_symbols[a] = sa; player_symbols[b] = sb`. */
  function SetSymbols(r: State, a: Handle, b: Handle, sa: char, sb: char): State {
    r.(pairing := r.pairing.(symbols := r.pairing.symbols[a := sa][b := sb]))
  }

  /** `game_boards[gid] = b; last_moves[gid] = last; current_turns[gid] = turn`. */
  function Replay(r: State, gid: GameId, b: Grid, last: Option<Pos>, turn: Handle): State {
    var gs := r.games;
    r.(games := gs.(boards := gs.boards[gid := b], lastMoves := gs.lastMoves[gid := last], turns := gs.turns[gid := turn]))
  }

  /** `rematch_requests[gid] = v`. */
  function SetRequests(r: State, gid: GameId, v: set<Handle>): State {
    r.(games := r.games.(requests := r.games.requests[gid := v]))
  }

  /** `rematch_declined_flags[gid] = v`. */
  function SetDeclined(r: State, gid: GameId, v: set<Handle>): State {
    r.(games := r.games.(declined := r.games.declined[gid := v]))
  }

  /** The two game_start messages of a deal, to `a` and then to `b`. */
  function Starts(a: Handle, b: Handle, coin: bool, nameOfB: string, nameOfA: string): seq<Outbound> {
    var first := if coin then a else b;
    [Send(a, GameStart(SymbolOf(first, a), first == a, NewBoard(), nameOfB)),
     Send(b, GameStart(if first == a then O else X, first == b, NewBoard(), nameOfA))]
  }

  /** Each player of a fresh deal is told the symbol it is given; the two symbols differ,
      exactly one player is told it moves first, that player holds the turn, and it
      plays X. */
  lemma DealIsFair(r: State, gid: GameId, a: Handle, b: Handle, coin: bool, nameOfB: string, nameOfA: string)
    requires r.Wf() && a != b
    ensures var r' := Deal(r, gid, a, b, coin);
      var out := Starts(a, b, coin, nameOfB, nameOfA);
      var sym := r'.pairing.symbols;
      var first := r'.games.turns[gid];
      && sym[a] == out[0].event.symbol && sym[b] == out[1].event.symbol
      && IsSymbol(sym[a]) && IsSymbol(sym[b]) && sym[a] != sym[b]
      && out[0].event.isTurn != out[1].event.isTurn
      && (out[0].event.isTurn <==> first == a)
      && (out[1].event.isTurn <==> first == b)
      && sym[first] == X
      && r'.games.boards[gid] == NewBoard() && r'.games.lastMoves[gid] == None
  {
  }

  /** Pairing of p1 and p2 (both named): pair them both ways, no votes yet, and deal. */
  function StartGame(r: State, p1: Handle, p2: Handle, coin: bool): (s: Step)
    requires r.Wf() && p1 in r.lobby.names && p2 in r.lobby.names
    ensures s.reg.Wf()
  {
    Step(Deal(Pair(r, p1, p2), GameIdOf(p1, p2), p1, p2, coin), Starts(p1, p2, coin, r.lobby.names[p2], r.lobby.names[p1]))
  }

  /** `game_pairs[p1] = p2; game_pairs[p2] = p1` and the empty vote sets of the new game. */
  function Pair(r: State, p1: Handle, p2: Handle): (r': State)
    requires r.Wf()
    ensures r'.Wf()
  {
    var gid := GameIdOf(p1, p2);
    var pr, gs := r.pairing, r.games;
    r.(pairing := pr.(partner := pr.partner[p1 := p2][p2 := p1], order := Insert(Insert(pr.order, p1), p2)),
       games := gs.(requests := gs.requests[gid := {}], declined := gs.declined[gid := {}]))
  }

  // ---------------------------------------------------------------------------
  // username_set

  /** username_set: record the name, enrol the sender unless it is waiting or in a game,
      tell it which, then try to pair. */
  function UsernameStep(r: State, h: Handle, name: string, coin: bool): (s: Step)
    requires r.Wf()
    ensures s.reg.Wf()
  {
    var p := PairOldest(Enrol(r, h, name), coin);
    Step(p.reg, [Send(h, Wait(if Enrols(r, h) then Queued else AlreadyQueued))] + p.out)
  }

  /** The sender is appended to the waitlist: it is neither waiting nor in a game. */
  predicate Enrols(r: State, h: Handle) {
    h !in r.lobby.waitlist && h !in r.pairing.partner
  }

  function Enrol(r: State, h: Handle, name: string): (r': State)
    ensures h in r'.lobby.names && r'.lobby.names[h] == name
    ensures forall a :: a in r.lobby.names && a != h ==> a in r'.lobby.names && r'.lobby.names[a] == r.lobby.names[a]
    ensures h in r'.lobby.waitlist || h in r.pairing.partner
    ensures forall a :: a in r.lobby.waitlist ==> a in r'.lobby.waitlist
    ensures forall a :: a in r'.lobby.waitlist ==> a in r.lobby.waitlist || a == h
    ensures r'.pairing == r.pairing && r'.games == r.games
  {
    var w := if Enrols(r, h) then r.lobby.waitlist + [h] else r.lobby.waitlist;
    r.(lobby := Lobby(w, r.lobby.names[h := name]))
  }

  /** The pairing part of username_set: when two or more wait, pop the two oldest and pair
      them, unless either lacks a truthy name (disconnected, or named ""), in which case no
      game starts. */
  function PairOldest(r: State, coin: bool): (s: Step)
    requires r.Wf()
    ensures s.reg.Wf()
  {
    var w := r.lobby.waitlist;
    if |w| < 2 then Step(r, [])
    else if !Named(r.lobby.names, w[0]) || !Named(r.lobby.names, w[1]) then
      Step(r.(lobby := r.lobby.(waitlist := Readmit(r.lobby.names, w[0], w[1], w[2..]))), [])
    else
      StartGame(r.(lobby := r.lobby.(waitlist := w[2..])), w[0], w[1], coin)
  }

  /** The stale branch of pairing: the first of the two popped handles that still has a
      truthy name and is not waiting goes back to the front; with both stale, neither. */
  function Readmit(names: map<Handle, string>, p1: Handle, p2: Handle, rest: seq<Handle>): (w: seq<Handle>)
    ensures w == rest || (w == [p1] + rest && Named(names, p1)) || (w == [p2] + rest && Named(names, p2))
  {
    if Named(names, p1) && p1 !in rest then [p1] + rest
    else if Named(names, p2) && p2 !in rest then [p2] + rest
    else rest
  }

  lemma NoDupPrepend(x: Handle, s: seq<Handle>)
    requires NoDup(s) && x !in s
    ensures NoDup([x] + s)
  {
    forall i, j | 0 <= i < j < |[x] + s|
      ensures ([x] + s)[i] != ([x] + s)[j]
    {
      if i > 0 {
        assert ([x] + s)[i] == s[i - 1];
      }
      assert ([x] + s)[j] == s[j - 1];
    }
  }

  lemma NoDupTail(s: seq<Handle>)
    requires NoDup(s) && |s| >= 2
    ensures NoDup(s[2..]) && s[0] !in s[2..] && s[1] !in s[2..] && s[0] != s[1]
  {
    forall i, j | 0 <= i < j < |s[2..]|
      ensures s[2..][i] != s[2..][j]
    {
      assert s[2..][i] == s[i + 2] && s[2..][j] == s[j + 2];
    }
  }

  /** Recording the name and enrolling keep the invariant. */
  lemma EnrolKeepsValid(r: State, h: Handle, name: string)
    requires r.Valid()
    ensures Enrol(r, h, name).Valid()
  {
    var r1 := Enrol(r, h, name);
    if Enrols(r, h) {
      NoDupAppend(r.lobby.waitlist, h);
    }
    EnrolKeepsPairs(r, h, name);
  }

  lemma EnrolKeepsPairs(r: State, h: Handle, name: string)
    requires r.PairsOk()
    ensures Enrol(r, h, name).PairsOk()
  {
    var r1 := Enrol(r, h, name);
    forall a | a in r1.pairing.partner
      ensures r1.Partnered(a)
    {
      assert r.Partnered(a);
    }
  }

  /** Any waitlist made of handles that are in no game, each once, keeps the invariant. */
  lemma RequeuedKeepsValid(r: State, w: seq<Handle>)
    requires r.Valid() && NoDup(w) && forall a :: a in w ==> a !in r.pairing.partner
    ensures r.(lobby := r.lobby.(waitlist := w)).Valid()
  {
    var r' := r.(lobby := r.lobby.(waitlist := w));
    forall a | a in r'.pairing.partner
      ensures r'.Partnered(a)
    {
      assert r.Partnered(a);
    }
  }

  /** Pairing two named handles that are in no game keeps the invariant. */
  lemma StartGameKeepsValid(r: State, p1: Handle, p2: Handle, coin: bool)
    requires r.Valid() && p1 != p2 && p1 in r.lobby.names && p2 in r.lobby.names
    requires p1 !in r.pairing.partner && p2 !in r.pairing.partner
    requires p1 !in r.lobby.waitlist && p2 !in r.lobby.waitlist
    ensures StartGame(r, p1, p2, coin).reg.Valid()
  {
    var gid := GameIdOf(p1, p2);
    assert gid in r.games.boards ==> r.IsSession(gid);
    StartGamePairs(r, p1, p2, coin, gid);
    StartGameSessions(r, p1, p2, coin, gid);
    StartGameKeys(r, p1, p2, coin, gid);
  }

  lemma StartGameKeys(r: State, p1: Handle, p2: Handle, coin: bool, gid: GameId)
    requires r.KeysOk() && r.Wf() && p1 in r.lobby.names && p2 in r.lobby.names && gid == GameIdOf(p1, p2)
    ensures StartGame(r, p1, p2, coin).reg.KeysOk()
  {
    var r1 := Pair(r, p1, p2);
    assert r1.pairing.partner.Keys == r.pairing.partner.Keys + {p1, p2};
    assert r1.games.requests.Keys == r.games.requests.Keys + {gid};
    assert r1.games.declined.Keys == r.games.declined.Keys + {gid};
    DealKeys(r1, gid, p1, p2, coin);
  }

  /** A deal adds the game's id to the per-game registries and the two players to the
      symbols. */
  lemma DealKeys(r: State, gid: GameId, a: Handle, b: Handle, coin: bool)
    requires r.Wf()
    ensures var gs := Deal(r, gid, a, b, coin).games;
      && gs.boards.Keys == r.games.boards.Keys + {gid}
      && gs.turns.Keys == r.games.turns.Keys + {gid}
      && gs.lastMoves.Keys == r.games.lastMoves.Keys + {gid}
      && gs.requests == r.games.requests && gs.declined == r.games.declined
      && Deal(r, gid, a, b, coin).pairing.symbols.Keys == r.pairing.symbols.Keys + {a, b}
  {
  }

  lemma StartGamePairs(r: State, p1: Handle, p2: Handle, coin: bool, gid: GameId)
    requires r.PairsOk() && r.Wf() && p1 != p2 && p1 in r.lobby.names && p2 in r.lobby.names
    requires p1 !in r.pairing.partner && p2 !in r.pairing.partner
    requires gid == GameIdOf(p1, p2) && gid !in r.games.boards
    ensures StartGame(r, p1, p2, coin).reg.PairsOk()
  {
    var r' := StartGame(r, p1, p2, coin).reg;
    forall a | a in r'.pairing.partner
      ensures r'.Partnered(a)
    {
      if a != p1 && a != p2 {
        StartGameKeepsPartner(r, p1, p2, coin, gid, a);
      } else {
        StartGamePartners(r, p1, p2, coin, gid);
      }
    }
  }

  /** A player already in a game is unaffected by the pairing of two others. */
  lemma StartGameKeepsPartner(r: State, p1: Handle, p2: Handle, coin: bool, gid: GameId, a: Handle)
    requires r.Wf() && p1 in r.lobby.names && p2 in r.lobby.names
    requires p1 !in r.pairing.partner && p2 !in r.pairing.partner
    requires gid == GameIdOf(p1, p2) && gid !in r.games.boards
    requires a in r.pairing.partner && r.Partnered(a)
    ensures StartGame(r, p1, p2, coin).reg.Partnered(a)
  {
    var b := r.pairing.partner[a];
    GameIdInjective(a, b, p1, p2);
  }

  lemma StartGamePartners(r: State, p1: Handle, p2: Handle, coin: bool, gid: GameId)
    requires r.Wf() && p1 != p2 && p1 in r.lobby.names && p2 in r.lobby.names
    requires gid == GameIdOf(p1, p2)
    ensures StartGame(r, p1, p2, coin).reg.Partnered(p1)
    ensures StartGame(r, p1, p2, coin).reg.Partnered(p2)
  {
    GameIdSymmetric(p1, p2);
  }

  lemma StartGameSessions(r: State, p1: Handle, p2: Handle, coin: bool, gid: GameId)
    requires r.SessionsOk() && r.Wf() && p1 != p2 && p1 in r.lobby.names && p2 in r.lobby.names
    requires p1 !in r.pairing.partner && p2 !in r.pairing.partner && gid == GameIdOf(p1, p2)
    ensures StartGame(r, p1, p2, coin).reg.SessionsOk()
  {
    var r' := StartGame(r, p1, p2, coin).reg;
    forall g | g in r'.games.boards
      ensures r'.IsSession(g)
    {
      if g != gid {
        assert r.IsSession(g);
      }
    }
  }

  lemma PairOldestKeepsValid(r: State, coin: bool)
    requires r.Valid()
    ensures PairOldest(r, coin).reg.Valid()
  {
    var w := r.lobby.waitlist;
    if |w| >= 2 {
      NoDupTail(w);
      assert w[0] in w && w[1] in w;
      var rest := w[2..];
      assert forall a :: a in rest ==> a in w;
      RequeuedKeepsValid(r, rest);
      var r2 := r.(lobby := r.lobby.(waitlist := rest));
      if !Named(r.lobby.names, w[0]) || !Named(r.lobby.names, w[1]) {
        var w' := Readmit(r.lobby.names, w[0], w[1], rest);
        if w' != rest {
          NoDupPrepend(w'[0], rest);
          assert w' == [w'[0]] + rest;
        }
        RequeuedKeepsValid(r, w');
      } else {
        StartGameKeepsValid(r2, w[0], w[1], coin);
      }
    }
  }

  lemma UsernameKeepsValid(r: State, h: Handle, name: string, coin: bool)
    requires r.Valid()
    ensures UsernameStep(r, h, name, coin).reg.Valid()
  {
    EnrolKeepsValid(r, h, name);
    PairOldestKeepsValid(Enrol(r, h, name), coin);
  }

  /** FIFO pairing: when the two oldest waiting handles both have a truthy name, they are
      paired with each other, leave the waitlist, and each is sent game_start naming the
      other as opponent. */
  lemma PairOldestPairsFirstTwo(r: State, coin: bool)
    requires r.Valid()
    ensures var w := r.lobby.waitlist;
      var names := r.lobby.names;
      var s := PairOldest(r, coin);
      |w| >= 2 && Named(names, w[0]) && Named(names, w[1]) ==>
        && s.reg.pairing.partner[w[0]] == w[1] && s.reg.pairing.partner[w[1]] == w[0]
        && s.reg.lobby.waitlist == w[2..]
        && GameIdOf(w[0], w[1]) in s.reg.games.boards
        && |s.out| == 2 && s.out[0].to == w[0] && s.out[1].to == w[1]
        && s.out[0].event.GameStart? && s.out[0].event.opponentName == names[w[1]]
        && s.out[1].event.GameStart? && s.out[1].event.opponentName == names[w[0]]
        && s.reg == Deal(Pair(r.(lobby := r.lobby.(waitlist := w[2..])), w[0], w[1]), GameIdOf(w[0], w[1]), w[0], w[1], coin)
        && s.reg.games.boards[GameIdOf(w[0], w[1])] == NewBoard()
        && s.reg.games.turns[GameIdOf(w[0], w[1])] == (if coin then w[0] else w[1])
        && s.reg.pairing.symbols[w[0]] == s.out[0].event.symbol && s.reg.pairing.symbols[w[1]] == s.out[1].event.symbol
        && (s.out[0].event.isTurn <==> coin) && (s.out[1].event.isTurn <==> !coin)
  {
    var w := r.lobby.waitlist;
    if |w| >= 2 {
      NoDupTail(w);
      if Named(r.lobby.names, w[0]) && Named(r.lobby.names, w[1]) {
        var names := r.lobby.names;
        var q := Pair(r.(lobby := r.lobby.(waitlist := w[2..])), w[0], w[1]);
        DealIsFair(q, GameIdOf(w[0], w[1]), w[0], w[1], coin, names[w[1]], names[w[0]]);
      }
    }
  }

  /** Stale-entry guard: when either of the two oldest waiting handles lacks a truthy name,
      no game starts and nothing is sent; both leave the queue and at most one of them,
      one that still has a name, goes back to its front. */
  lemma PairOldestStaleNoGame(r: State, coin: bool)
    requires r.Wf()
    ensures var w := r.lobby.waitlist;
      var names := r.lobby.names;
      var s := PairOldest(r, coin);
      |w| >= 2 && !(Named(names, w[0]) && Named(names, w[1])) ==>
        && s.reg.pairing == r.pairing && s.reg.games == r.games && s.out == []
        && (s.reg.lobby.waitlist == w[2..]
            || (s.reg.lobby.waitlist == [w[0]] + w[2..] && Named(names, w[0]))
            || (s.reg.lobby.waitlist == [w[1]] + w[2..] && Named(names, w[1])))
  {
  }

  /** Fewer than two waiting: nothing happens. */
  lemma PairOldestNeedsTwo(r: State, coin: bool)
    requires r.Wf() && |r.lobby.waitlist| < 2
    ensures PairOldest(r, coin) == Step(r, [])
  {
  }

  /** A handle that is waiting or in a game, and has a truthy name, is still waiting or in
      a game after pairing. */
  lemma PairOldestKeepsNamed(r: State, coin: bool, h: Handle)
    requires r.Wf() && NoDup(r.lobby.waitlist) && Named(r.lobby.names, h)
    requires h in r.lobby.waitlist || h in r.pairing.partner
    ensures var s := PairOldest(r, coin);
      h in s.reg.lobby.waitlist || h in s.reg.pairing.partner
  {
    var w := r.lobby.waitlist;
    if |w| >= 2 {
      NoDupTail(w);
      var names := r.lobby.names;
      if h == w[0] || h == w[1] {
        if !Named(names, w[0]) || !Named(names, w[1]) {
          assert h in Readmit(names, w[0], w[1], w[2..]);
        }
      } else if h in w {
        assert w == [w[0], w[1]] + w[2..];
        assert h in w[2..];
      }
    }
  }

  /** Enrolment: the name is recorded; the sender is told whether it was queued; with a
      truthy name it ends up waiting or in a game (with the name "" the stale guard may
      drop it). */
  lemma UsernameEnrols(r: State, h: Handle, name: string, coin: bool)
    requires r.Wf() && r.QueueOk()
    ensures var s := UsernameStep(r, h, name, coin);
      && h in s.reg.lobby.names && s.reg.lobby.names[h] == name
      && s.out[0] == Send(h, Wait(if Enrols(r, h) then Queued else AlreadyQueued))
      && (name != "" ==> h in s.reg.lobby.waitlist || h in s.reg.pairing.partner)
  {
    var r1 := Enrol(r, h, name);
    if Enrols(r, h) {
      NoDupAppend(r.lobby.waitlist, h);
    }
    PairOldestKeepsNames(r1, coin);
    if name != "" {
      PairOldestKeepsNamed(r1, coin, h);
    }
  }

  /** Pairing reads the names and never changes them. */
  lemma PairOldestKeepsNames(r: State, coin: bool)
    requires r.Wf()
    ensures PairOldest(r, coin).reg.lobby.names == r.lobby.names
  {
  }

  // ---------------------------------------------------------------------------
  // move

  /** The first guard of the move branch that fails, in the order the handler tests them:
      no opponent, not the sender's turn, board or symbol missing, cell outside the board
      or taken. */
  function MoveFault(r: State, h: Handle, row: int, col: int): (f: Option<Fault>)
    requires r.Wf()
    ensures f.None? ==>
      && h in r.pairing.partner && h in r.pairing.symbols
      && var gid := GameIdOf(h, r.pairing.partner[h]);
      && gid in r.games.turns && r.games.turns[gid] == h
      && gid in r.games.boards && InBounds(row, col) && r.games.boards[gid][row][col] == Empty
  {
    match GameFault(r, h)
    case Some(f) => Some(f)
    case None =>
      var gid := GameIdOf(h, r.pairing.partner[h]);
      if !(InBounds(row, col) && r.games.boards[gid][row][col] == Empty) then Some(BadCell)
      else None
  }

  /** The three guards of the move branch that do not look at the cell. */
  function GameFault(r: State, h: Handle): (f: Option<Fault>)
    ensures f.None? ==>
      && h in r.pairing.partner && h in r.pairing.symbols
      && var gid := GameIdOf(h, r.pairing.partner[h]);
      && gid in r.games.turns && r.games.turns[gid] == h && gid in r.games.boards
    ensures f.Some? ==> f.value in {NotInGame, NotYourTurn, BadGameData}
  {
    if h !in r.pairing.partner then Some(NotInGame)
    else
      var gid := GameIdOf(h, r.pairing.partner[h]);
      if gid !in r.games.turns || r.games.turns[gid] != h then Some(NotYourTurn)
      else if gid !in r.games.boards || h !in r.pairing.symbols then Some(BadGameData)
      else None
  }

  /** move: a rejected move only sends an error to the sender; an accepted one places the
      sender's symbol, records the last move, hands the turn to the opponent (before the
      win check), sends the new board to both, then the verdict. */
  function MoveStep(r: State, h: Handle, row: int, col: int): (s: Step)
    requires r.Wf()
    ensures s.reg.Wf()
  {
    match MoveFault(r, h, row, col)
    case Some(f) => Step(r, [Send(h, Error(f))])
    case None => Play(r, h, row, col)
  }

  /** The accepted branch of move. */
  function Play(r: State, h: Handle, row: int, col: int): (s: Step)
    requires r.Wf() && MoveFault(r, h, row, col).None?
    ensures s.reg.Wf()
  {
    var opp := r.pairing.partner[h];
    var gid := GameIdOf(h, opp);
    var sym := r.pairing.symbols[h];
    var b := Place(r.games.boards[gid], row, col, sym);
    var gs := r.games;
    Step(r.(games := gs.(boards := gs.boards[gid := b], lastMoves := gs.lastMoves[gid := Some(Pos(row, col))],
                         turns := gs.turns[gid := opp])),
         [Send(h, UpdateBoard(b, Pos(row, col))), Send(opp, UpdateBoard(b, Pos(row, col)))] + Verdict(b, row, col, sym, h, opp))
  }

  /** What follows update_board: a win for the mover, else a draw on a full board, else the
      turn notices. */
  function Verdict(b: Grid, row: int, col: int, sym: char, h: Handle, opp: Handle): (out: seq<Outbound>)
    requires Shaped(b)
    ensures |out| == 2 && {out[0].to, out[1].to} == {h, opp}
    ensures out[0].event.GameOver? <==> Wins(b, row, col, sym) || Full(b)
  {
    if Wins(b, row, col, sym) then [Send(h, GameOver(Some(true))), Send(opp, GameOver(Some(false)))]
    else if Full(b) then [Send(h, GameOver(None)), Send(opp, GameOver(None))]
    else [Send(opp, YourTurn), Send(h, WaitTurn)]
  }

  /** Under the invariant the guards mean: NotInGame exactly when the sender has no
      opponent, NotYourTurn exactly when it has one but the turn is the opponent's,
      BadCell exactly when it holds the turn but the cell is off the board or taken;
      the board-or-symbol-missing error cannot happen. */
  lemma MoveFaults(r: State, h: Handle, row: int, col: int)
    requires r.Wf() && r.PairsOk()
    ensures var f := MoveFault(r, h, row, col);
      && (f == Some(NotInGame) <==> h !in r.pairing.partner)
      && (f == Some(NotYourTurn) <==>
            h in r.pairing.partner && r.games.turns[GameIdOf(h, r.pairing.partner[h])] != h)
      && f != Some(BadGameData)
      && (f == Some(BadCell) <==>
            h in r.pairing.partner && r.games.turns[GameIdOf(h, r.pairing.partner[h])] == h
            && !(InBounds(row, col) && r.games.boards[GameIdOf(h, r.pairing.partner[h])][row][col] == Empty))
  {
    if h in r.pairing.partner {
      assert r.Partnered(h);
    }
  }

  /** A rejected move changes nothing and only its sender hears about it. */
  lemma MoveRejected(r: State, h: Handle, row: int, col: int)
    requires r.Wf()
    ensures var s := MoveStep(r, h, row, col);
      MoveFault(r, h, row, col).Some? <==> (s.reg == r && |s.out| == 1 && s.out[0].to == h && s.out[0].event.Error?)
  {
    if MoveFault(r, h, row, col).None? {
      var gid := GameIdOf(h, r.pairing.partner[h]);
      assert |MoveStep(r, h, row, col).out| >= 4;
    }
  }

  /** An accepted move on the board: the cell was empty and now holds the mover's symbol,
      no other cell of any board changes, the last move is recorded, the turn passes to
      the opponent, and nothing else changes. */
  lemma MoveAccepted(r: State, h: Handle, row: int, col: int)
    requires r.Wf() && r.PairsOk() && MoveFault(r, h, row, col).None?
    ensures var s := MoveStep(r, h, row, col);
      var opp := r.pairing.partner[h];
      var gid := GameIdOf(h, opp);
      var b, b' := r.games.boards[gid], s.reg.games.boards[gid];
      && IsSymbol(r.pairing.symbols[h]) && gid in s.reg.games.boards
      && Extends(b, b') && b'[row][col] == r.pairing.symbols[h]
      && (forall i, j :: InBounds(i, j) && (i != row || j != col) ==> b'[i][j] == b[i][j])
      && (forall g :: g in r.games.boards && g != gid ==> s.reg.games.boards[g] == r.games.boards[g])
      && s.reg.games.lastMoves == r.games.lastMoves[gid := Some(Pos(row, col))]
      && s.reg.games.turns == r.games.turns[gid := opp] && opp != h
      && s.reg.lobby == r.lobby && s.reg.pairing == r.pairing
      && s.reg.games.requests == r.games.requests && s.reg.games.declined == r.games.declined
  {
    assert r.Partnered(h);
    var gid := GameIdOf(h, r.pairing.partner[h]);
    PlaceExtends(r.games.boards[gid], row, col, r.pairing.symbols[h]);
  }

  /** An accepted move's messages: the new board and last move to the mover and then to
      the opponent, followed by the verdict on the new board. */
  lemma MoveNotices(r: State, h: Handle, row: int, col: int)
    requires r.Wf() && MoveFault(r, h, row, col).None?
    ensures var s := MoveStep(r, h, row, col);
      var opp := r.pairing.partner[h];
      var b' := s.reg.games.boards[GameIdOf(h, opp)];
      && s.out[..2] == [Send(h, UpdateBoard(b', Pos(row, col))), Send(opp, UpdateBoard(b', Pos(row, col)))]
      && s.out[2..] == Verdict(b', row, col, r.pairing.symbols[h], h, opp)
  {
  }

  /** Exactly one verdict: a win when the placed stone completes five in a row through
      its cell, a draw when it does not and no cell is empty, otherwise the opponent is
      told to move and the mover to wait. */
  lemma VerdictCases(b: Grid, row: int, col: int, sym: char, h: Handle, opp: Handle)
    requires Shaped(b)
    ensures var out := Verdict(b, row, col, sym, h, opp);
      && (out == [Send(h, GameOver(Some(true))), Send(opp, GameOver(Some(false)))] <==> LineThrough(b, row, col, sym, WinLength))
      && (out == [Send(h, GameOver(None)), Send(opp, GameOver(None))] <==> !LineThrough(b, row, col, sym, WinLength) && Full(b))
      && (out == [Send(opp, YourTurn), Send(h, WaitTurn)] <==> !LineThrough(b, row, col, sym, WinLength) && !Full(b))
  {
    WinsIffFiveThrough(b, row, col, sym);
  }

  /** Re-dealing a live game on a 15x15 board with a turn owner from its two players keeps
      the invariant. */
  lemma ReplayKeepsValid(r: State, gid: GameId, b: Grid, last: Option<Pos>, turn: Handle)
    requires r.Valid() && gid in r.games.boards && Shaped(b) && (turn == gid.lo || turn == gid.hi)
    ensures Replay(r, gid, b, last, turn).Valid()
  {
    ReplayKeepsPairs(r, gid, b, last, turn);
    ReplayKeepsKeys(r, gid, b, last, turn);
    ReplayKeepsSessions(r, gid, b, last, turn);
  }

  lemma ReplayKeepsSessions(r: State, gid: GameId, b: Grid, last: Option<Pos>, turn: Handle)
    requires r.Wf() && r.SessionsOk() && gid in r.games.boards && Shaped(b)
    ensures Replay(r, gid, b, last, turn).Wf() && Replay(r, gid, b, last, turn).SessionsOk()
  {
    var r' := Replay(r, gid, b, last, turn);
    assert r'.pairing == r.pairing;
    forall g | g in r'.games.boards
      ensures r'.IsSession(g) && Shaped(r'.games.boards[g])
    {
      assert r.IsSession(g);
    }
  }

  lemma ReplayKeepsKeys(r: State, gid: GameId, b: Grid, last: Option<Pos>, turn: Handle)
    requires r.KeysOk() && gid in r.games.boards
    ensures Replay(r, gid, b, last, turn).KeysOk()
    ensures Replay(r, gid, b, last, turn).games.boards.Keys == r.games.boards.Keys
  {
  }

  lemma ReplayKeepsPairs(r: State, gid: GameId, b: Grid, last: Option<Pos>, turn: Handle)
    requires r.PairsOk() && (turn == gid.lo || turn == gid.hi)
    ensures Replay(r, gid, b, last, turn).PairsOk()
  {
    var r' := Replay(r, gid, b, last, turn);
    forall a | a in r'.pairing.partner
      ensures r'.Partnered(a)
    {
      assert r.Partnered(a);
    }
  }

  lemma MoveKeepsValid(r: State, h: Handle, row: int, col: int)
    requires r.Valid()
    ensures MoveStep(r, h, row, col).reg.Valid()
  {
    if MoveFault(r, h, row, col).None? {
      var opp := r.pairing.partner[h];
      var gid := GameIdOf(h, opp);
      var b := Place(r.games.boards[gid], row, col, r.pairing.symbols[h]);
      assert MoveStep(r, h, row, col).reg == Replay(r, gid, b, Some(Pos(row, col)), opp);
      ReplayKeepsValid(r, gid, b, Some(Pos(row, col)), opp);
    }
  }

  // ---------------------------------------------------------------------------
  // move with a coordinate that is not an integer

  /** `0 <= c < BOARD_SIZE` for one coordinate; None when the comparison raises. */
  function RangeTest(c: Coord): Option<bool> {
    match c
    case Int(v) => Some(0 <= v < Size)
    case Float(onBoard) => Some(onBoard)
    case Other => None
  }

  /** Whether the cell test of the move branch raises: a comparison with a value that is
      not a number raises, `and` stops at the first comparison that is false, and indexing
      the board with a float raises. */
  predicate CellTestRaises(row: Coord, col: Coord) {
    match RangeTest(row)
    case None => true
    case Some(false) => false
    case Some(true) =>
      match RangeTest(col)
      case None => true
      case Some(false) => false
      case Some(true) => !(row.Int? && col.Int?)
  }

  /** The move branch raises: the three guards pass and then the cell test raises. */
  predicate LooseMoveRaises(r: State, h: Handle, row: Coord, col: Coord) {
    GameFault(r, h).None? && CellTestRaises(row, col)
  }

  /** move with coordinates of any JSON type. Integers are the ordinary move. Otherwise the
      three guards run first and send their errors as usual; after them the cell test
      either raises, which ends the connection through handle_disconnect, or is false,
      which sends the cell error. */
  function LooseMoveStep(r: State, h: Handle, row: Coord, col: Coord): (s: Step)
    requires r.Wf()
    ensures s.reg.Wf()
  {
    if row.Int? && col.Int? then MoveStep(r, h, row.value, col.value)
    else IllTypedMoveStep(r, h, row, col)
  }

  /** The move branch when some coordinate is not an integer. */
  function IllTypedMoveStep(r: State, h: Handle, row: Coord, col: Coord): (s: Step)
    requires r.Wf()
    ensures s.reg.Wf()
  {
    match GameFault(r, h)
    case Some(f) => Step(r, [Send(h, Error(f))])
    case None =>
      if CellTestRaises(row, col) then DisconnectStep(r, h)
      else Step(r, [Send(h, Error(BadCell))])
  }

  /** Integer coordinates never make the cell test raise. */
  lemma IntegersNeverRaise(r: State, h: Handle, row: int, col: int)
    requires r.Wf()
    ensures !LooseMoveRaises(r, h, Int(row), Int(col))
    ensures LooseMoveStep(r, h, Int(row), Int(col)) == MoveStep(r, h, row, col)
  {
  }

  /** A move with a coordinate that is not an integer is handled like a move to a cell
      off the board when it does not raise: same guard errors, same cell error, nothing
      changed. It raises only once all three guards have passed, and then the sender is
      disconnected. */
  lemma LooseMoveLikeOffBoard(r: State, h: Handle, row: Coord, col: Coord)
    requires r.Wf() && !(row.Int? && col.Int?)
    ensures var s := LooseMoveStep(r, h, row, col);
      && (!LooseMoveRaises(r, h, row, col) ==> s == MoveStep(r, h, -1, -1) && s.reg == r && |s.out| == 1)
      && (LooseMoveRaises(r, h, row, col) ==> MoveFault(r, h, -1, -1) == Some(BadCell) && s == DisconnectStep(r, h))
  {
  }

  lemma LooseMoveKeepsValid(r: State, h: Handle, row: Coord, col: Coord)
    requires r.Valid()
    ensures LooseMoveStep(r, h, row, col).reg.Valid()
  {
    if row.Int? && col.Int? {
      MoveKeepsValid(r, h, row.value, col.value);
    } else if LooseMoveRaises(r, h, row, col) {
      DisconnectKeepsValid(r, h);
    }
  }

  /** There is no game-over state: the turn is handed over before the win check, so after
      a winning move the loser may still place a stone on any empty cell of the board. */
  lemma PlayOnAfterWin(r: State, h: Handle, row: int, col: int, row2: int, col2: int)
    requires r.Wf() && r.PairsOk() && MoveFault(r, h, row, col).None?
    ensures var s := MoveStep(r, h, row, col);
      var opp := r.pairing.partner[h];
      var b' := s.reg.games.boards[GameIdOf(h, opp)];
      InBounds(row2, col2) && b'[row2][col2] == Empty ==> MoveFault(s.reg, opp, row2, col2).None?
  {
    var opp := r.pairing.partner[h];
    assert r.Partnered(h);
    assert r.Partnered(opp);
    GameIdSymmetric(h, opp);
  }

  // ---------------------------------------------------------------------------
  // chat

  /** chat: relay the text to the opponent under the given sender name ("Người lạ" when
      absent); without an opponent, an error goes back to the sender. */
  function ChatStep(r: State, h: Handle, text: string, sender: Option<string>): (s: Step)
    ensures s.reg == r && |s.out| == 1
  {
    var name := if sender.Some? then sender.value else StrangerName;
    if h in r.pairing.partner then Step(r, [Send(r.pairing.partner[h], ChatLine(text, name))])
    else Step(r, [Send(h, Error(NoChatPartner))])
  }

  /** Chat changes no registry and sends exactly one message: to the sender's opponent
      when it has one, which under the invariant is another handle, whose own opponent is
      the sender; otherwise an error to the sender. */
  lemma ChatRelays(r: State, h: Handle, text: string, sender: Option<string>)
    requires r.Wf() && r.PairsOk()
    ensures var s := ChatStep(r, h, text, sender);
      && s.reg == r && |s.out| == 1
      && (h in r.pairing.partner <==> s.out[0].event.ChatLine?)
      && (s.out[0].event.ChatLine? ==>
            var to := s.out[0].to;
            to != h && to in r.pairing.partner && r.pairing.partner[to] == h && s.out[0].event.text == text)
      && (!s.out[0].event.ChatLine? ==> s.out[0] == Send(h, Error(NoChatPartner)))
  {
    if h in r.pairing.partner {
      assert r.Partnered(h);
    }
  }

  // ---------------------------------------------------------------------------
  // rematch_request and rematch_declined

  /** A vote registry's set for `gid`, empty when it has none. */
  function Votes(m: map<GameId, set<Handle>>, gid: GameId): set<Handle> {
    if gid in m then m[gid] else {}
  }

  /** rematch_request: without an opponent, an error to the sender. Otherwise the sender's
      vote is added and the opponent told; when both have voted, both are told the rematch
      starts, the game is dealt again on the same id (new board, no last move, coin for the
      first mover, symbols re-assigned), both get game_start, and the votes are reset.
      The decline votes are left as they were. */
  function RematchRequestStep(r: State, h: Handle, coin: bool): (s: Step)
    requires r.Wf()
    ensures s.reg.Wf()
  {
    if h !in r.pairing.partner then Step(r, [Send(h, Error(NoRematchPartner))])
    else
      var opp := r.pairing.partner[h];
      var gid := GameIdOf(h, opp);
      var votes := Votes(r.games.requests, gid) + {h};
      if |votes| == 2 then
        Step(SetRequests(Deal(r, gid, h, opp, coin), gid, {}),
             [Send(opp, RematchRequested), Send(h, RematchStarted), Send(opp, RematchStarted)]
             + Starts(h, opp, coin, NameOr(r.lobby.names, opp), NameOr(r.lobby.names, h)))
      else
        Step(SetRequests(r, gid, votes), [Send(opp, RematchRequested)])
  }

  /** Under the invariant a vote set holds only the game's two players, so adding the
      sender's vote makes two exactly when the opponent had voted. */
  lemma VoteCount(v: set<Handle>, h: Handle, opp: Handle)
    requires v <= {h, opp} && h != opp
    ensures |v + {h}| == 2 <==> opp in v
  {
    if opp in v {
      assert v + {h} == {h, opp};
    } else {
      assert v + {h} == {h};
    }
  }

  /** For a player in a game both vote sets of the game hold only its two players, so the
      sender's vote completes a set exactly when the opponent's vote is in it. */
  lemma GameVotes(r: State, h: Handle)
    requires r.Wf() && r.PairsOk() && h in r.pairing.partner
    ensures var opp := r.pairing.partner[h];
      var gid := GameIdOf(h, opp);
      && gid in r.games.boards && gid in r.games.requests && gid in r.games.declined
      && gid.lo in {h, opp} && gid.hi in {h, opp}
      && r.games.requests[gid] + {h} <= {gid.lo, gid.hi} && r.games.declined[gid] + {h} <= {gid.lo, gid.hi}
      && (|Votes(r.games.requests, gid) + {h}| == 2 <==> opp in r.games.requests[gid])
      && (|Votes(r.games.declined, gid) + {h}| == 2 <==> opp in r.games.declined[gid])
  {
    var opp := r.pairing.partner[h];
    var gid := GameIdOf(h, opp);
    assert r.Partnered(h);
    VoteCount(r.games.requests[gid], h, opp);
    VoteCount(r.games.declined[gid], h, opp);
  }

  /** rematch_request from a player in no game: only an error to the sender. */
  lemma RematchWithoutPartner(r: State, h: Handle, coin: bool)
    requires r.Wf()
    ensures h !in r.pairing.partner <==> RematchRequestStep(r, h, coin) == Step(r, [Send(h, Error(NoRematchPartner))])
  {
  }

  /** rematch_request when the opponent's request is recorded: a fresh deal of the same
      game, requests reset, decline votes, pairing and names untouched; the opponent is
      told of the request, then both of the restart, then each gets game_start. */
  lemma RematchRestarts(r: State, h: Handle, coin: bool)
    requires r.Wf() && r.PairsOk() && h in r.pairing.partner
    requires r.pairing.partner[h] in Votes(r.games.requests, GameIdOf(h, r.pairing.partner[h]))
    ensures var s := RematchRequestStep(r, h, coin);
      var opp := r.pairing.partner[h];
      var gid := GameIdOf(h, opp);
      var gs, gs' := r.games, s.reg.games;
      && gid in gs'.boards && gs'.boards[gid] == NewBoard()
      && gid in gs'.lastMoves && gs'.lastMoves[gid] == None
      && gid in gs'.turns && gid in gs'.requests
      && (gs'.turns[gid] == h || gs'.turns[gid] == opp)
      && gs'.requests[gid] == {} && gs'.declined == gs.declined
      && s.reg.pairing.partner == r.pairing.partner && s.reg.lobby == r.lobby
      && s.out[..3] == [Send(opp, RematchRequested), Send(h, RematchStarted), Send(opp, RematchStarted)]
      && s.out[3..] == Starts(h, opp, coin, NameOr(r.lobby.names, opp), NameOr(r.lobby.names, h))
      && s.reg == SetRequests(Deal(r, gid, h, opp, coin), gid, {})
      && gs'.turns[gid] == (if coin then h else opp)
      && s.reg.pairing.symbols[h] == s.out[3].event.symbol && s.reg.pairing.symbols[opp] == s.out[4].event.symbol
      && (s.out[3].event.isTurn <==> gs'.turns[gid] == h) && (s.out[4].event.isTurn <==> gs'.turns[gid] == opp)
      && s.reg.pairing.symbols[gs'.turns[gid]] == X
  {
    var opp := r.pairing.partner[h];
    var gid := GameIdOf(h, opp);
    assert r.Partnered(h);
    VoteCount(r.games.requests[gid], h, opp);
    DealIsFair(r, gid, h, opp, coin, NameOr(r.lobby.names, opp), NameOr(r.lobby.names, h));
  }

  /** rematch_request when the opponent has not asked: only the sender's vote is recorded
      and the opponent told. */
  lemma RematchWaits(r: State, h: Handle, coin: bool)
    requires r.Wf() && r.PairsOk() && h in r.pairing.partner
    requires r.pairing.partner[h] !in Votes(r.games.requests, GameIdOf(h, r.pairing.partner[h]))
    ensures var s := RematchRequestStep(r, h, coin);
      var opp := r.pairing.partner[h];
      var gid := GameIdOf(h, opp);
      s == Step(SetRequests(r, gid, r.games.requests[gid] + {h}), [Send(opp, RematchRequested)])
  {
    var opp := r.pairing.partner[h];
    assert r.Partnered(h);
    VoteCount(r.games.requests[GameIdOf(h, opp)], h, opp);
  }

  /** The queue, the live games and the board shapes depend only on the lobby, the pairs
      and the boards. */
  lemma FrameKeeps(r: State, r': State)
    requires r.Wf() && r.QueueOk() && r.SessionsOk()
    requires r'.lobby == r.lobby && r'.pairing.partner == r.pairing.partner && r'.pairing.order == r.pairing.order
    requires r'.games.boards == r.games.boards
    ensures r'.Wf() && r'.QueueOk() && r'.SessionsOk()
  {
    forall g | g in r'.games.boards
      ensures r'.IsSession(g)
    {
      assert r.IsSession(g);
    }
  }

  lemma SetRequestsKeepsValid(r: State, gid: GameId, v: set<Handle>)
    requires r.Valid() && gid in r.games.boards && v <= {gid.lo, gid.hi}
    ensures SetRequests(r, gid, v).Valid()
  {
    FrameKeeps(r, SetRequests(r, gid, v));
    SetRequestsKeepsPairs(r, gid, v);
  }

  lemma SetRequestsKeepsPairs(r: State, gid: GameId, v: set<Handle>)
    requires r.PairsOk() && r.KeysOk() && gid in r.games.boards && v <= {gid.lo, gid.hi}
    ensures SetRequests(r, gid, v).PairsOk() && SetRequests(r, gid, v).KeysOk()
  {
    var r' := SetRequests(r, gid, v);
    forall a | a in r'.pairing.partner
      ensures r'.Partnered(a)
    {
      assert r.Partnered(a);
    }
  }

  lemma SetDeclinedKeepsValid(r: State, gid: GameId, v: set<Handle>)
    requires r.Valid() && gid in r.games.boards && v <= {gid.lo, gid.hi}
    ensures SetDeclined(r, gid, v).Valid()
  {
    FrameKeeps(r, SetDeclined(r, gid, v));
    SetDeclinedKeepsPairs(r, gid, v);
  }

  lemma SetDeclinedKeepsPairs(r: State, gid: GameId, v: set<Handle>)
    requires r.PairsOk() && r.KeysOk() && gid in r.games.boards && v <= {gid.lo, gid.hi}
    ensures SetDeclined(r, gid, v).PairsOk() && SetDeclined(r, gid, v).KeysOk()
  {
    var r' := SetDeclined(r, gid, v);
    forall a | a in r'.pairing.partner
      ensures r'.Partnered(a)
    {
      assert r.Partnered(a);
    }
  }

  /** Re-assigning the two symbols of a live game as X and O keeps the invariant. */
  lemma SetSymbolsKeepsValid(r: State, a: Handle, sa: char, sb: char)
    requires r.Valid() && a in r.pairing.partner && IsSymbol(sa) && IsSymbol(sb) && sa != sb
    ensures SetSymbols(r, a, r.pairing.partner[a], sa, sb).Valid()
  {
    FrameKeeps(r, SetSymbols(r, a, r.pairing.partner[a], sa, sb));
    SetSymbolsKeepsPairs(r, a, sa, sb);
  }

  lemma SetSymbolsKeepsPairs(r: State, a: Handle, sa: char, sb: char)
    requires r.PairsOk() && r.KeysOk() && a in r.pairing.partner && IsSymbol(sa) && IsSymbol(sb) && sa != sb
    ensures SetSymbols(r, a, r.pairing.partner[a], sa, sb).PairsOk()
    ensures SetSymbols(r, a, r.pairing.partner[a], sa, sb).KeysOk()
  {
    var b := r.pairing.partner[a];
    var r' := SetSymbols(r, a, b, sa, sb);
    assert r.Partnered(a);
    forall c | c in r'.pairing.partner
      ensures r'.Partnered(c)
    {
      SetSymbolsKeepsPartner(r, a, b, sa, sb, c);
    }
  }

  lemma SetSymbolsKeepsPartner(r: State, a: Handle, b: Handle, sa: char, sb: char, c: Handle)
    requires a in r.pairing.partner && r.pairing.partner[a] == b && b in r.pairing.partner && r.pairing.partner[b] == a
    requires IsSymbol(sa) && IsSymbol(sb) && sa != sb && a != b
    requires c in r.pairing.partner && r.Partnered(c)
    ensures SetSymbols(r, a, b, sa, sb).Partnered(c)
  {
  }

  lemma RematchRequestKeepsValid(r: State, h: Handle, coin: bool)
    requires r.Valid()
    ensures RematchRequestStep(r, h, coin).reg.Valid()
  {
    if h in r.pairing.partner {
      var opp := r.pairing.partner[h];
      var gid := GameIdOf(h, opp);
      GameVotes(r, h);
      var req := r.games.requests[gid];
      if opp in req {
        RedealKeepsValid(r, h, coin);
      } else {
        SetRequestsKeepsValid(r, gid, req + {h});
      }
    }
  }

  /** The restart of a rematch keeps the invariant. */
  lemma RedealKeepsValid(r: State, h: Handle, coin: bool)
    requires r.Valid() && h in r.pairing.partner
    ensures var opp := r.pairing.partner[h];
      var gid := GameIdOf(h, opp);
      SetRequests(Deal(r, gid, h, opp, coin), gid, {}).Valid()
  {
    var opp := r.pairing.partner[h];
    var gid := GameIdOf(h, opp);
    assert r.Partnered(h);
    var first := if coin then h else opp;
    var r1 := Replay(r, gid, NewBoard(), None, first);
    ReplayKeepsValid(r, gid, NewBoard(), None, first);
    assert r1.pairing == r.pairing;
    var r2 := SetSymbols(r1, h, opp, SymbolOf(first, h), if first == h then O else X);
    SetSymbolsKeepsValid(r1, h, SymbolOf(first, h), if first == h then O else X);
    assert r2.games == r1.games;
    SetRequestsKeepsValid(r2, gid, {});
  }

  /** rematch_declined: without an opponent, nothing. Otherwise the sender's decline is
      recorded and the opponent told; when both have declined, the game is cleaned up. */
  function RematchDeclinedStep(r: State, h: Handle): (s: Step)
    requires r.Wf()
    ensures s.reg.Wf()
  {
    if h !in r.pairing.partner then Step(r, [])
    else
      var opp := r.pairing.partner[h];
      var gid := GameIdOf(h, opp);
      var votes := Votes(r.games.declined, gid) + {h};
      var r1 := SetDeclined(r, gid, votes);
      if |votes| == 2 then
        var c := CleanupStep(r1, gid);
        Step(c.reg, [Send(opp, RematchRefused)] + c.out)
      else Step(r1, [Send(opp, RematchRefused)])
  }

  lemma RematchDeclinedKeepsValid(r: State, h: Handle)
    requires r.Valid()
    ensures RematchDeclinedStep(r, h).reg.Valid()
  {
    if h in r.pairing.partner {
      var opp := r.pairing.partner[h];
      var gid := GameIdOf(h, opp);
      GameVotes(r, h);
      var dec := r.games.declined[gid];
      SetDeclinedKeepsValid(r, gid, dec + {h});
      CleanupKeepsValid(SetDeclined(r, gid, dec + {h}), gid);
    }
  }

  /** rematch_declined from a player in no game does nothing. */
  lemma DeclineWithoutPartner(r: State, h: Handle)
    requires r.Wf()
    ensures h !in r.pairing.partner <==> RematchDeclinedStep(r, h) == Step(r, [])
  {
  }

  /** rematch_declined when the opponent's decline is recorded: the opponent is told, then
      the game is cleaned up, both players leave it and are appended to the waitlist. */
  lemma BothDeclineEndsGame(r: State, h: Handle)
    requires r.Valid() && h in r.pairing.partner
    requires r.pairing.partner[h] in Votes(r.games.declined, GameIdOf(h, r.pairing.partner[h]))
    ensures var s := RematchDeclinedStep(r, h);
      var opp := r.pairing.partner[h];
      var first := EarlierOf(r.pairing.order, h, opp);
      var second := if first == h then opp else h;
      && s.out[0] == Send(opp, RematchRefused)
      && h !in s.reg.pairing.partner && opp !in s.reg.pairing.partner
      && GameIdOf(h, opp) !in s.reg.games.boards
      && (s.reg.lobby.waitlist == r.lobby.waitlist + [h, opp] || s.reg.lobby.waitlist == r.lobby.waitlist + [opp, h])
      && s.reg.lobby.waitlist == r.lobby.waitlist + [first, second]
      && s.out == [Send(opp, RematchRefused), Send(first, Wait(GameEnded)), Send(second, Wait(GameEnded))]
  {
    var opp := r.pairing.partner[h];
    var gid := GameIdOf(h, opp);
    GameVotes(r, h);
    var dec := r.games.declined[gid];
    var r1 := SetDeclined(r, gid, dec + {h});
    SetDeclinedKeepsValid(r, gid, dec + {h});
    var c := CleanupStep(r1, gid);
    assert RematchDeclinedStep(r, h) == Step(c.reg, [Send(opp, RematchRefused)] + c.out);
    DeclinedCleanup(r, r1, h);
    var first := EarlierOf(r.pairing.order, h, opp);
    var second := if first == h then opp else h;
    NoticeFirst(Send(opp, RematchRefused), c.out, Send(first, Wait(GameEnded)), Send(second, Wait(GameEnded)));
  }

  /** Cleanup after the second decline, stated on the registries before the decline. */
  lemma DeclinedCleanup(r: State, r1: State, h: Handle)
    requires r1.Valid() && h in r.pairing.partner && r1.pairing == r.pairing && r1.lobby == r.lobby
    ensures var opp := r.pairing.partner[h];
      var c := CleanupStep(r1, GameIdOf(h, opp));
      var first := EarlierOf(r.pairing.order, h, opp);
      var second := if first == h then opp else h;
      && h !in c.reg.pairing.partner && opp !in c.reg.pairing.partner
      && GameIdOf(h, opp) !in c.reg.games.boards
      && (c.reg.lobby.waitlist == r.lobby.waitlist + [h, opp] || c.reg.lobby.waitlist == r.lobby.waitlist + [opp, h])
      && c.reg.lobby.waitlist == r.lobby.waitlist + [first, second]
      && c.out == [Send(first, Wait(GameEnded)), Send(second, Wait(GameEnded))]
  {
    CleanupRequeuesBoth(r1, h);
  }

  /** rematch_declined when the opponent has not declined: only the sender's decline is
      recorded and the opponent told; the game goes on. */
  lemma FirstDeclineWaits(r: State, h: Handle)
    requires r.Wf() && r.PairsOk() && h in r.pairing.partner
    requires r.pairing.partner[h] !in Votes(r.games.declined, GameIdOf(h, r.pairing.partner[h]))
    ensures var s := RematchDeclinedStep(r, h);
      var opp := r.pairing.partner[h];
      var gid := GameIdOf(h, opp);
      s == Step(SetDeclined(r, gid, r.games.declined[gid] + {h}), [Send(opp, RematchRefused)])
  {
    var opp := r.pairing.partner[h];
    assert r.Partnered(h);
    VoteCount(r.games.declined[GameIdOf(h, opp)], h, opp);
  }

  /** Declines outlive a rematch: when one player has declined and the other's rematch
      request then restarts the game anyway, a single later decline by the restarting
      player ends the new game. */
  lemma StaleDeclineEndsRematch(r: State, h: Handle, coin: bool)
    requires r.Valid() && h in r.pairing.partner
    requires var opp := r.pairing.partner[h];
      var gid := GameIdOf(h, opp);
      opp in Votes(r.games.requests, gid) && opp in Votes(r.games.declined, gid)
    ensures var s1 := RematchRequestStep(r, h, coin);
      var s2 := RematchDeclinedStep(s1.reg, h);
      var opp := r.pairing.partner[h];
      && s1.reg.games.boards[GameIdOf(h, opp)] == NewBoard()
      && h !in s2.reg.pairing.partner && opp !in s2.reg.pairing.partner
  {
    var opp := r.pairing.partner[h];
    var gid := GameIdOf(h, opp);
    RematchRestarts(r, h, coin);
    RematchRequestKeepsValid(r, h, coin);
    var r1 := RematchRequestStep(r, h, coin).reg;
    BothDeclineEndsGame(r1, h);
  }
}
