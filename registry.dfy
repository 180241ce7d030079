/** The server's shared registries as one value, and what cleanup_game and
    handle_disconnect of server/server.py do to them: each step is a function of the old
    registries giving the new registries and the messages sent, in order. The Server
    class in server.dfy performs these steps in place and is proved to agree with them. */
module Registry {
  import opened Board
  import opened Protocol

  predicate NoDup(s: seq<Handle>) {
    forall i, j :: 0 <= i < j < |s| ==> s[i] != s[j]
  }

  lemma NoDupAppend(s: seq<Handle>, x: Handle)
    requires NoDup(s) && x !in s
    ensures NoDup(s + [x])
  {
  }

  /** `list.index(x)`: the position of the first occurrence of `x`. */
  function IndexOf(s: seq<Handle>, x: Handle): (i: nat)
    requires x in s
    ensures i < |s| && s[i] == x && x !in s[..i]
  {
    if s[0] == x then 0
    else
      var j := IndexOf(s[1..], x);
      assert s[..j + 1] == [s[0]] + s[1..][..j];
      j + 1
  }

  /** `list.remove(x)` (first occurrence); also `del d[x]` on the key order of a dict. */
  function RemoveFirst(s: seq<Handle>, x: Handle): (t: seq<Handle>)
    ensures x !in s ==> t == s
    ensures x in s ==> |t| == |s| - 1
    ensures forall y :: y in t ==> y in s
    ensures forall y :: y in s && y != x ==> y in t
    ensures NoDup(s) ==> NoDup(t) && x !in t
  {
    if s == [] then []
    else if s[0] == x then s[1..]
    else
      var t := [s[0]] + RemoveFirst(s[1..], x);
      assert NoDup(s) ==> NoDup(s[1..]) && s[0] !in s[1..];
      t
  }

  /** `list.remove(x)` splices out exactly the first occurrence of `x`, keeping the order of the rest. */
  lemma {:induction false} RemoveFirstSplices(s: seq<Handle>, x: Handle)
    requires x in s
    ensures RemoveFirst(s, x) == s[..IndexOf(s, x)] + s[IndexOf(s, x) + 1..]
  {
    if s[0] != x {
      var t := s[1..];
      RemoveFirstSplices(t, x);
      var j := IndexOf(t, x);
      assert IndexOf(s, x) == j + 1;
      calc {
        RemoveFirst(s, x);
        [s[0]] + RemoveFirst(t, x);
        [s[0]] + (t[..j] + t[j + 1..]);
        ([s[0]] + t[..j]) + t[j + 1..];
        { assert s[..j + 1] == [s[0]] + t[..j]; assert s[j + 2..] == t[j + 1..]; }
        s[..j + 1] + s[j + 2..];
      }
    }
  }

  /** Key order of a dict after `d[k] = v`: a new key goes last, an existing key keeps its place. */
  function Insert(order: seq<Handle>, k: Handle): (t: seq<Handle>)
    ensures forall y :: y in t <==> y in order || y == k
    ensures NoDup(order) ==> NoDup(t)
  {
    if k in order then order else order + [k]
  }

  /** `player_names.get(h)` is truthy: the handle has a name and the name is not "". */
  predicate Named(names: map<Handle, string>, h: Handle) {
    h in names && names[h] != ""
  }

  /** `player_names.get(h, 'Đối thủ')`. */
  function NameOr(names: map<Handle, string>, h: Handle): string {
    if h in names then names[h] else OpponentFallbackName
  }

  /** The first key of game_pairs, in insertion order, whose pair has game id `gid`. */
  function FirstWithId(order: seq<Handle>, partner: map<Handle, Handle>, gid: GameId): (p: Option<Handle>)
    requires forall a :: a in order ==> a in partner
    ensures p.Some? ==> p.value in order && GameIdOf(p.value, partner[p.value]) == gid
    ensures p.Some? ==> forall j :: 0 <= j < IndexOf(order, p.value) ==> GameIdOf(order[j], partner[order[j]]) != gid
    ensures p.None? ==> forall a :: a in order ==> GameIdOf(a, partner[a]) != gid
  {
    if order == [] then None
    else if GameIdOf(order[0], partner[order[0]]) == gid then Some(order[0])
    else
      var p := FirstWithId(order[1..], partner, gid);
      assert p.Some? ==> IndexOf(order, p.value) == IndexOf(order[1..], p.value) + 1 by {
        if p.Some? {
          var j := IndexOf(order[1..], p.value);
          assert order[..j + 1] == [order[0]] + order[1..][..j];
        }
      }
      p
  }

  /** Of two keys, the one that comes first in `order`. */
  function EarlierOf(order: seq<Handle>, a: Handle, b: Handle): Handle
    requires a in order && b in order
  {
    if IndexOf(order, a) < IndexOf(order, b) then a else b
  }

  /** cleanup_game's requeue of one participant: appended when registered and not already waiting. */
  function Requeue(w: seq<Handle>, names: map<Handle, string>, p: Handle): (w': seq<Handle>)
    ensures w' == w || (w' == w + [p] && p in names && p !in w)
    ensures NoDup(w) ==> NoDup(w')
  {
    if p in names && p !in w then
      assert NoDup(w) ==> NoDup(w + [p]) by {
        if NoDup(w) { NoDupAppend(w, p); }
      }
      w + [p]
    else w
  }

  /** The `wait` notice that goes with Requeue. */
  function RequeueNote(w: seq<Handle>, names: map<Handle, string>, p: Handle): (out: seq<Outbound>)
    ensures out == [] || out == [Send(p, Wait(GameEnded))]
  {
    if p in names && p !in w then [Send(p, Wait(GameEnded))] else []
  }

  // ---------------------------------------------------------------------------
  // The registries

  /** players_in_waitlist and player_names. */
  datatype Lobby = Lobby(waitlist: seq<Handle>, names: map<Handle, string>)

  /** game_pairs, the insertion order of its keys, and player_symbols. */
  datatype Pairing = Pairing(partner: map<Handle, Handle>, order: seq<Handle>, symbols: map<Handle, char>)
  {
    /** `order` lists the keys of `partner` once each. */
    ghost predicate Wf() {
      NoDup(order) && forall a :: a in order <==> a in partner
    }
  }

  /** The registries keyed by game id: game_boards, current_turns, last_moves,
      rematch_requests and rematch_declined_flags. */
  datatype Games = Games(
    boards: map<GameId, Grid>,
    turns: map<GameId, Handle>,
    lastMoves: map<GameId, Option<Pos>>,
    requests: map<GameId, set<Handle>>,
    declined: map<GameId, set<Handle>>)
  {
    /** Every board is 15x15. */
    ghost predicate Wf() {
      forall g :: g in boards ==> Shaped(boards[g])
    }

    /** The four other registries have an entry exactly for each board. */
    ghost predicate Keyed() {
      && turns.Keys == boards.Keys
      && lastMoves.Keys == boards.Keys
      && requests.Keys == boards.Keys
      && declined.Keys == boards.Keys
    }

    /** The first five deletions of cleanup_game: every entry of game `gid` is gone. */
    function Without(gid: GameId): (gs: Games)
      ensures Wf() ==> gs.Wf()
      ensures Keyed() ==> gs.Keyed()
      ensures gs.boards.Keys == boards.Keys - {gid}
      ensures gs.boards == boards - {gid} && gs.turns == turns - {gid} && gs.lastMoves == lastMoves - {gid}
      ensures gs.requests == requests - {gid} && gs.declined == declined - {gid}
    {
      Games(boards - {gid}, turns - {gid}, lastMoves - {gid}, requests - {gid}, declined - {gid})
    }
  }

  /** The module-level registries of server/server.py. */
  datatype State = State(lobby: Lobby, pairing: Pairing, games: Games)
  {
    /** Representation facts the handlers rely on. */
    ghost predicate Wf() {
      pairing.Wf() && games.Wf()
    }

    /** `g` is the id of a live game: its two handles are paired with each other. */
    ghost predicate IsSession(g: GameId) {
      g.lo < g.hi && g.lo in pairing.partner && pairing.partner[g.lo] == g.hi
    }

    /** Handle `a` is in a game whose bookkeeping is complete and consistent: the pair is
        symmetric, `a` has a name, the two symbols are X and O, the turn owner is one of
        the two and the votes come from the two. */
    ghost predicate Partnered(a: Handle)
      requires a in pairing.partner
    {
      var b := pairing.partner[a];
      var g := GameIdOf(a, b);
      var sym := pairing.symbols;
      && b != a && b in pairing.partner && pairing.partner[b] == a
      && a in lobby.names
      && a in sym && b in sym && IsSymbol(sym[a]) && sym[a] != sym[b]
      && g in games.boards && g in games.turns && (games.turns[g] == a || games.turns[g] == b)
      && g in games.requests && games.requests[g] <= {a, b}
      && g in games.declined && games.declined[g] <= {a, b}
    }

    /** The waitlist holds each handle once, and no handle that is in a game. Stale
        handles (disconnected, or named "") may wait: pairing re-checks names instead. */
    ghost predicate QueueOk() {
      NoDup(lobby.waitlist) && forall a :: a in lobby.waitlist ==> a !in pairing.partner
    }

    ghost predicate PairsOk() {
      forall a :: a in pairing.partner ==> Partnered(a)
    }

    /** Per-player and per-game registries have exactly the keys of the live players
        and of the live games. */
    ghost predicate KeysOk() {
      pairing.symbols.Keys == pairing.partner.Keys && games.Keyed()
    }

    ghost predicate SessionsOk() {
      forall g :: g in games.boards ==> IsSession(g)
    }

    /** The invariant every handler keeps. */
    ghost predicate Valid() {
      Wf() && QueueOk() && PairsOk() && KeysOk() && SessionsOk()
    }
  }

  /** New registries and the messages sent, in order. */
  datatype Step = Step(reg: State, out: seq<Outbound>)

  /** The registries at module load: all empty. */
  const Initial: State :=
    State(Lobby([], map[]), Pairing(map[], [], map[]), Games(map[], map[], map[], map[], map[]))

  lemma InitialValid()
    ensures Initial.Valid()
  {
  }

  // ---------------------------------------------------------------------------
  // cleanup_game

  /** cleanup_game(gid): forget the game's board, turn, votes and last move; find the
      first game_pairs entry with this id; unpair both players; append each one that is
      still registered and not already waiting to the waitlist, with a `wait` notice;
      drop both symbols. */
  function CleanupStep(r: State, gid: GameId): (s: Step)
    requires r.Wf()
    ensures s.reg.Wf()
    ensures gid !in s.reg.games.boards && gid !in s.reg.games.turns && gid !in s.reg.games.lastMoves
    ensures gid !in s.reg.games.requests && gid !in s.reg.games.declined
    ensures s.reg.games.boards == r.games.boards - {gid} && s.reg.lobby.names == r.lobby.names
    ensures s.reg.games == r.games.Without(gid)
  {
    var r0 := r.(games := r.games.Without(gid));
    match FirstWithId(r.pairing.order, r.pairing.partner, gid)
    case None => Step(r0, [])
    case Some(p1) => EndPairStep(r0, p1)
  }

  /** The part of cleanup_game after its search found `p1`: unpair p1 and its partner p2,
      requeue each (p1 first) when it is registered and not already waiting, each with a
      `wait` notice, and drop both symbols. */
  function EndPairStep(r: State, p1: Handle): (s: Step)
    requires r.Wf() && p1 in r.pairing.partner
    ensures s.reg.Wf()
    ensures var p2 := r.pairing.partner[p1];
      && p1 !in s.reg.pairing.partner && p2 !in s.reg.pairing.partner
      && p1 !in s.reg.pairing.symbols && p2 !in s.reg.pairing.symbols
      && s.reg.pairing.partner == r.pairing.partner - {p1, p2}
      && s.reg.pairing.symbols == r.pairing.symbols - {p1, p2}
      && s.reg.games == r.games && s.reg.lobby.names == r.lobby.names
  {
    var p2 := r.pairing.partner[p1];
    var w, names := r.lobby.waitlist, r.lobby.names;
    var w1 := Requeue(w, names, p1);
    var pairing := Pairing(r.pairing.partner - {p1, p2}, RemoveFirst(RemoveFirst(r.pairing.order, p1), p2),
                           r.pairing.symbols - {p1, p2});
    Step(State(r.lobby.(waitlist := Requeue(w1, names, p2)), pairing, r.games),
         RequeueNote(w, names, p1) + RequeueNote(w1, names, p2))
  }

  /** Under the invariant, cleanup_game's search finds a live game at one of its two players. */
  lemma SessionFound(r: State, a: Handle)
    requires r.Valid() && a in r.pairing.partner
    ensures var partner := r.pairing.partner;
      FirstWithId(r.pairing.order, partner, GameIdOf(a, partner[a])) in {Some(a), Some(partner[a])}
  {
    var partner := r.pairing.partner;
    var p := FirstWithId(r.pairing.order, partner, GameIdOf(a, partner[a]));
    assert a in r.pairing.order;
    GameIdInjective(p.value, partner[p.value], a, partner[a]);
  }

  /** Under the invariant cleanup_game's search finds every live game. */
  lemma SessionIsFound(r: State, gid: GameId)
    requires r.Wf() && r.SessionsOk()
    ensures gid in r.games.boards ==> FirstWithId(r.pairing.order, r.pairing.partner, gid).Some?
  {
    if gid in r.games.boards {
      assert r.IsSession(gid);
      assert gid.lo in r.pairing.order;
      assert GameIdOf(gid.lo, r.pairing.partner[gid.lo]) == gid;
    }
  }

  lemma CleanupKeepsValid(r: State, gid: GameId)
    requires r.Valid()
    ensures CleanupStep(r, gid).reg.Valid()
  {
    match FirstWithId(r.pairing.order, r.pairing.partner, gid)
    case None =>
      CleanupOfNoGame(r, gid);
    case Some(p1) =>
      assert Unpaired(r, p1, CleanupStep(r, gid).reg);
      UnpairKeepsValid(r, p1, CleanupStep(r, gid).reg);
  }

  /** cleanup_game on an id no live game has leaves the registries as they were. */
  lemma CleanupOfNoGame(r: State, gid: GameId)
    requires r.Wf() && r.SessionsOk() && r.KeysOk()
    requires FirstWithId(r.pairing.order, r.pairing.partner, gid).None?
    ensures CleanupStep(r, gid) == Step(r, [])
  {
    SessionIsFound(r, gid);
    WithoutAbsent(r.games, gid);
  }

  /** Deleting an id no game has changes none of the per-game registries. */
  lemma WithoutAbsent(gs: Games, gid: GameId)
    requires gs.Keyed() && gid !in gs.boards
    ensures gs.Without(gid) == gs
  {
    assert gs.boards - {gid} == gs.boards;
    assert gs.turns - {gid} == gs.turns;
    assert gs.requests - {gid} == gs.requests;
    assert gs.lastMoves - {gid} == gs.lastMoves;
    assert gs.declined - {gid} == gs.declined;
  }

  /** `r'` is `r` with the game of p1 removed as cleanup_game removes it. */
  ghost predicate Unpaired(r: State, p1: Handle, r': State)
    requires p1 in r.pairing.partner
  {
    var p2 := r.pairing.partner[p1];
    var w1 := Requeue(r.lobby.waitlist, r.lobby.names, p1);
    && r'.lobby == r.lobby.(waitlist := Requeue(w1, r.lobby.names, p2))
    && r'.pairing == Pairing(r.pairing.partner - {p1, p2}, RemoveFirst(RemoveFirst(r.pairing.order, p1), p2),
                             r.pairing.symbols - {p1, p2})
    && r'.games == r.games.Without(GameIdOf(p1, p2))
  }

  /** Removing one live game (the pair of p1) keeps the invariant. */
  lemma UnpairKeepsValid(r: State, p1: Handle, r': State)
    requires r.Valid() && p1 in r.pairing.partner && Unpaired(r, p1, r')
    ensures r'.Valid()
  {
    UnpairKeepsWf(r, p1, r');
    UnpairKeepsKeys(r, p1, r');
    UnpairKeepsPairs(r, p1, r');
    UnpairKeepsSessions(r, p1, r');
    UnpairKeepsQueue(r, p1, r');
  }

  lemma UnpairKeepsWf(r: State, p1: Handle, r': State)
    requires r.Wf() && p1 in r.pairing.partner && Unpaired(r, p1, r')
    ensures r'.Wf()
  {
  }

  lemma UnpairKeepsKeys(r: State, p1: Handle, r': State)
    requires r.KeysOk() && p1 in r.pairing.partner && Unpaired(r, p1, r')
    ensures r'.KeysOk()
  {
  }

  lemma UnpairKeepsPairs(r: State, p1: Handle, r': State)
    requires r.PairsOk() && p1 in r.pairing.partner && Unpaired(r, p1, r')
    ensures r'.PairsOk()
  {
    var p2 := r.pairing.partner[p1];
    assert r.Partnered(p1);
    forall a | a in r'.pairing.partner
      ensures r'.Partnered(a)
    {
      var b := r.pairing.partner[a];
      assert r.Partnered(a);
      assert b != p1 && b != p2;
      GameIdInjective(a, b, p1, p2);
    }
  }

  lemma UnpairKeepsSessions(r: State, p1: Handle, r': State)
    requires r.SessionsOk() && p1 in r.pairing.partner && r.Partnered(p1) && Unpaired(r, p1, r')
    ensures r'.SessionsOk()
  {
    var p2 := r.pairing.partner[p1];
    forall g | g in r'.games.boards
      ensures r'.IsSession(g)
    {
      assert r.IsSession(g);
      GameIdInjective(g.lo, g.hi, p1, p2);
    }
  }

  lemma UnpairKeepsQueue(r: State, p1: Handle, r': State)
    requires r.QueueOk() && p1 in r.pairing.partner && Unpaired(r, p1, r')
    ensures r'.QueueOk()
  {
  }

  // ---------------------------------------------------------------------------
  // handle_disconnect

  /** handle_disconnect(h): drop h from the waitlist; if h is in a game, tell the opponent
      and run cleanup_game on the game; then forget h's name and symbol. cleanup_game runs
      while h still has its name, so h is appended to the waitlist again. */
  function DisconnectStep(r: State, h: Handle): (s: Step)
    requires r.Wf()
    ensures s.reg.Wf()
    ensures h !in s.reg.lobby.names && h !in s.reg.pairing.symbols
  {
    var r1 := r.(lobby := r.lobby.(waitlist := RemoveFirst(r.lobby.waitlist, h)));
    var ended :=
      if h in r.pairing.partner then
        var opp := r.pairing.partner[h];
        var c := CleanupStep(r1, GameIdOf(h, opp));
        Step(c.reg, [Send(opp, OpponentDisconnected)] + c.out)
      else Step(r1, []);
    ended.(reg := Forget(ended.reg, h))
  }

  /** The last two deletions of handle_disconnect: h's name and symbol. */
  function Forget(r: State, h: Handle): (r': State) {
    r.(lobby := r.lobby.(names := r.lobby.names - {h}), pairing := r.pairing.(symbols := r.pairing.symbols - {h}))
  }

  lemma RemoveFirstKeepsValid(r: State, h: Handle)
    requires r.Valid()
    ensures r.(lobby := r.lobby.(waitlist := RemoveFirst(r.lobby.waitlist, h))).Valid()
  {
    var r1 := r.(lobby := r.lobby.(waitlist := RemoveFirst(r.lobby.waitlist, h)));
    forall a | a in r1.pairing.partner
      ensures r1.Partnered(a)
    {
      assert r.Partnered(a);
    }
  }

  /** Forgetting a handle that is in no game keeps the invariant. */
  lemma ForgetKeepsValid(r: State, h: Handle)
    requires r.Valid() && h !in r.pairing.partner
    ensures Forget(r, h).Valid()
  {
    ForgetKeepsPairs(r, h);
    ForgetKeepsShape(r, h);
  }

  lemma ForgetKeepsShape(r: State, h: Handle)
    requires r.Wf() && r.QueueOk() && r.KeysOk() && r.SessionsOk() && h !in r.pairing.partner
    ensures var r' := Forget(r, h);
      r'.Wf() && r'.QueueOk() && r'.KeysOk() && r'.SessionsOk()
  {
  }

  lemma ForgetKeepsPairs(r: State, h: Handle)
    requires r.PairsOk() && h !in r.pairing.partner
    ensures Forget(r, h).PairsOk()
  {
    var r' := Forget(r, h);
    forall a | a in r'.pairing.partner
      ensures r'.Partnered(a)
    {
      assert r.Partnered(a);
    }
  }

  lemma CleanupUnpairsBoth(r: State, h: Handle)
    requires r.Valid() && h in r.pairing.partner
    ensures var opp := r.pairing.partner[h];
      var s := CleanupStep(r, GameIdOf(h, opp));
      h !in s.reg.pairing.partner && opp !in s.reg.pairing.partner
  {
    var opp := r.pairing.partner[h];
    assert r.Partnered(h);
    SessionFound(r, h);
    GameIdSymmetric(h, opp);
  }

  lemma DisconnectKeepsValid(r: State, h: Handle)
    requires r.Valid()
    ensures DisconnectStep(r, h).reg.Valid()
  {
    var r1 := r.(lobby := r.lobby.(waitlist := RemoveFirst(r.lobby.waitlist, h)));
    RemoveFirstKeepsValid(r, h);
    if h in r.pairing.partner {
      var gid := GameIdOf(h, r.pairing.partner[h]);
      CleanupKeepsValid(r1, gid);
      CleanupUnpairsBoth(r1, h);
      ForgetKeepsValid(CleanupStep(r1, gid).reg, h);
    } else {
      ForgetKeepsValid(r1, h);
    }
  }

  lemma RequeueTwo(w: seq<Handle>, names: map<Handle, string>, p1: Handle, p2: Handle)
    requires p1 != p2 && p1 in names && p2 in names && p1 !in w && p2 !in w
    ensures var w1 := Requeue(w, names, p1);
      && Requeue(w1, names, p2) == w + [p1, p2]
      && RequeueNote(w, names, p1) + RequeueNote(w1, names, p2) == [Send(p1, Wait(GameEnded)), Send(p2, Wait(GameEnded))]
  {
    assert Requeue(w, names, p1) == w + [p1];
  }

  /** cleanup_game on a live game under the invariant: both players are unpaired and
      appended to the waitlist, each with a `wait` notice, the one whose game_pairs key
      was inserted first going first. */
  lemma CleanupRequeuesBoth(r: State, h: Handle)
    requires r.Valid() && h in r.pairing.partner
    ensures var opp := r.pairing.partner[h];
      var s := CleanupStep(r, GameIdOf(h, opp));
      var w := r.lobby.waitlist;
      var first := EarlierOf(r.pairing.order, h, opp);
      var second := if first == h then opp else h;
      && h !in s.reg.pairing.partner && opp !in s.reg.pairing.partner
      && s.reg.lobby.waitlist == w + [first, second]
      && s.out == [Send(first, Wait(GameEnded)), Send(second, Wait(GameEnded))]
  {
    var opp := r.pairing.partner[h];
    assert r.Partnered(h);
    assert r.Partnered(opp);
    assert h !in r.lobby.waitlist && opp !in r.lobby.waitlist;
    SessionFound(r, h);
    GameIdSymmetric(h, opp);
    CleanupUnpairsBoth(r, h);
    var gid := GameIdOf(h, opp);
    var p1 := FirstWithId(r.pairing.order, r.pairing.partner, gid).value;
    var p2 := r.pairing.partner[p1];
    assert (p1 == h && p2 == opp) || (p1 == opp && p2 == h);
    FirstIsEarlier(r.pairing.order, r.pairing.partner, gid, p2);
    assert EarlierOf(r.pairing.order, h, opp) == p1;
    var r0 := r.(games := r.games.Without(gid));
    assert CleanupStep(r, gid) == EndPairStep(r0, p1);
    EndPairRequeues(r0, p1);
  }

  /** The requeue half of EndPairStep when both players are named and neither is waiting. */
  lemma EndPairRequeues(r: State, p1: Handle)
    requires r.Wf() && p1 in r.pairing.partner
    requires var p2 := r.pairing.partner[p1];
      && p1 != p2 && p1 in r.lobby.names && p2 in r.lobby.names
      && p1 !in r.lobby.waitlist && p2 !in r.lobby.waitlist
    ensures var p2 := r.pairing.partner[p1];
      var s := EndPairStep(r, p1);
      && s.reg.lobby.waitlist == r.lobby.waitlist + [p1, p2]
      && s.out == [Send(p1, Wait(GameEnded)), Send(p2, Wait(GameEnded))]
  {
    RequeueTwo(r.lobby.waitlist, r.lobby.names, p1, r.pairing.partner[p1]);
  }

  /** The key cleanup_game's search finds comes before every other key with the same id. */
  lemma FirstIsEarlier(order: seq<Handle>, partner: map<Handle, Handle>, gid: GameId, a: Handle)
    requires forall b :: b in order ==> b in partner
    requires a in order && GameIdOf(a, partner[a]) == gid
    requires FirstWithId(order, partner, gid).Some? && FirstWithId(order, partner, gid).value != a
    ensures EarlierOf(order, FirstWithId(order, partner, gid).value, a) == FirstWithId(order, partner, gid).value
  {
    var p := FirstWithId(order, partner, gid).value;
    var i := IndexOf(order, a);
    assert order[i] == a;
    assert IndexOf(order, p) != i;
  }

  /** A player in a game disconnects: the opponent is told first, both leave the game, and
      both are appended to the waitlist in game_pairs order, the disconnected handle
      included, although it no longer has a name. */
  lemma DisconnectRequeuesBoth(r: State, h: Handle)
    requires r.Valid() && h in r.pairing.partner
    ensures var opp := r.pairing.partner[h];
      var s := DisconnectStep(r, h);
      var w := r.lobby.waitlist;
      var first := EarlierOf(r.pairing.order, h, opp);
      var second := if first == h then opp else h;
      && s.out == [Send(opp, OpponentDisconnected), Send(first, Wait(GameEnded)), Send(second, Wait(GameEnded))]
      && h !in s.reg.pairing.partner && opp !in s.reg.pairing.partner
      && s.reg.lobby.waitlist == w + [first, second]
      && h in s.reg.lobby.waitlist && h !in s.reg.lobby.names
  {
    assert r.Partnered(h);
    var r1 := r.(lobby := r.lobby.(waitlist := RemoveFirst(r.lobby.waitlist, h)));
    assert r1 == r;
    var opp := r.pairing.partner[h];
    var c := CleanupStep(r, GameIdOf(h, opp));
    CleanupRequeuesBoth(r, h);
    var first := EarlierOf(r.pairing.order, h, opp);
    var second := if first == h then opp else h;
    assert c.out == [Send(first, Wait(GameEnded)), Send(second, Wait(GameEnded))];
    assert c.reg.lobby.waitlist == r.lobby.waitlist + [first, second];
    var s := DisconnectStep(r, h);
    assert s == Step(Forget(c.reg, h), [Send(opp, OpponentDisconnected)] + c.out);
    assert s.reg.lobby.waitlist == r.lobby.waitlist + [first, second];
    assert s.reg.lobby.waitlist[|r.lobby.waitlist|..] == [first, second];
    assert h in [first, second];
    NoticeFirst(Send(opp, OpponentDisconnected), c.out, Send(first, Wait(GameEnded)), Send(second, Wait(GameEnded)));
  }

  lemma NoticeFirst(m: Outbound, out: seq<Outbound>, x: Outbound, y: Outbound)
    requires out == [x, y]
    ensures [m] + out == [m, x, y]
  {
  }

  /** A waiting (or idle) player disconnects: it leaves the waitlist, nothing is sent and
      no game changes. */
  lemma DisconnectWhileWaiting(r: State, h: Handle)
    requires r.Valid() && h !in r.pairing.partner
    ensures var s := DisconnectStep(r, h);
      && s.out == []
      && s.reg.lobby.waitlist == RemoveFirst(r.lobby.waitlist, h)
      && h !in s.reg.lobby.waitlist
      && (forall a :: a in s.reg.lobby.waitlist <==> a in r.lobby.waitlist && a != h)
      && s.reg.pairing.partner == r.pairing.partner && s.reg.games == r.games
  {
  }
}
