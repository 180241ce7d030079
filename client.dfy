/** handle_client (server/server.py) as a function of the registries: the welcome notice,
    the dispatch of one decoded message to its branch, and one pass of the read loop over
    a received chunk. json.loads is a parameter `decode` (None: the line is not JSON and
    is skipped); the coin of the k-th handled line is `flip(k)`. */
module Client {
  import opened Protocol
  import opened Registry
  import opened Handlers
  import opened Framer

  /** On connection, before anything is read: the welcome `wait` notice. */
  function ConnectStep(r: State, h: Handle): Step {
    Step(r, [Send(h, Wait(Welcome))])
  }

  /** The `if msg_type == ...` chain: each type to its branch; rematch_start and unknown
      types do nothing; a message whose handler raises ends the connection, which runs
      handle_disconnect. */
  function DispatchStep(r: State, h: Handle, m: Message, coin: bool): (s: Step)
    requires r.Wf()
    ensures s.reg.Wf()
  {
    match m
    case UsernameSet(name) => UsernameStep(r, h, name, coin)
    case Move(row, col) => MoveStep(r, h, row, col)
    case LooseMove(row, col) => LooseMoveStep(r, h, row, col)
    case Chat(text, sender) => ChatStep(r, h, text, sender)
    case RematchRequest => RematchRequestStep(r, h, coin)
    case RematchDeclined => RematchDeclinedStep(r, h)
    case RematchStart => Step(r, [])
    case Unhandled => Step(r, [])
    case Broken => DisconnectStep(r, h)
  }

  /** Every branch keeps the invariant. */
  lemma DispatchKeepsValid(r: State, h: Handle, m: Message, coin: bool)
    requires r.Valid()
    ensures DispatchStep(r, h, m, coin).reg.Valid()
  {
    match m
    case UsernameSet(name) => UsernameKeepsValid(r, h, name, coin);
    case Move(row, col) => MoveKeepsValid(r, h, row, col);
    case LooseMove(row, col) => LooseMoveKeepsValid(r, h, row, col);
    case Chat(text, sender) =>
    case RematchRequest => RematchRequestKeepsValid(r, h, coin);
    case RematchDeclined => RematchDeclinedKeepsValid(r, h);
    case RematchStart =>
    case Unhandled =>
    case Broken => DisconnectKeepsValid(r, h);
  }

  /** The handler of `m` raises in registries `r`: a field it reads is missing, or a move's
      cell test raises on a coordinate that is not an integer. */
  predicate Raises(r: State, h: Handle, m: Message) {
    m.Broken? || (m.LooseMove? && LooseMoveRaises(r, h, m.looseRow, m.looseCol))
  }

  /** A raising handler ends the connection through handle_disconnect. */
  lemma RaisesDisconnects(r: State, h: Handle, m: Message, coin: bool)
    requires r.Wf() && Raises(r, h, m)
    ensures DispatchStep(r, h, m, coin) == DisconnectStep(r, h)
  {
  }

  /** What a sequence of lines does: new registries, messages sent, and whether the
      connection was closed. */
  datatype Outcome = Outcome(reg: State, out: seq<Outbound>, closed: bool)

  /** One line of the inner read loop: skipped when it does not decode, else dispatched;
      the connection closes when the handler raised. */
  function LineStep(r: State, h: Handle, line: string, decode: string -> Option<Message>, coin: bool): (o: Outcome)
    requires r.Wf()
    ensures o.reg.Wf()
  {
    match decode(line)
    case None => Outcome(r, [], false)
    case Some(m) =>
      var s := DispatchStep(r, h, m, coin);
      Outcome(s.reg, s.out, Raises(r, h, m))
  }

  /** A line with a field missing always closes the connection; only such a line or a move
      with a coordinate that is not an integer can; closing forgets the handle. */
  lemma LineCloses(r: State, h: Handle, line: string, decode: string -> Option<Message>, coin: bool)
    requires r.Wf()
    ensures var o := LineStep(r, h, line, decode, coin);
      && (decode(line) == Some(Broken) ==> o.closed)
      && (o.closed ==> decode(line).Some? && (decode(line).value.Broken? || decode(line).value.LooseMove?))
      && (o.closed ==> h !in o.reg.lobby.names)
  {
    if LineStep(r, h, line, decode, coin).closed {
      RaisesDisconnects(r, h, decode(line).value, coin);
    }
  }

  lemma LineKeepsValid(r: State, h: Handle, line: string, decode: string -> Option<Message>, coin: bool)
    requires r.Valid()
    ensures LineStep(r, h, line, decode, coin).reg.Valid()
  {
    if decode(line).Some? {
      DispatchKeepsValid(r, h, decode(line).value, coin);
    }
  }

  /** The inner read loop over any per-line step `step(r, line, k)` of the k-th handled
      line: the lines are stepped in order, and a step that closes the connection ends the
      loop (the remaining lines are never looked at). */
  ghost function Run(r: State, lines: seq<string>, step: (State, string, nat) -> Outcome, k: nat): Outcome
    decreases |lines|
  {
    if lines == [] then Outcome(r, [], false)
    else
      var l := step(r, lines[0], k);
      if l.closed then l
      else
        var o := Run(l.reg, lines[1..], step, k + 1);
        Outcome(o.reg, l.out + o.out, o.closed)
  }

  /** The step keeps the registries well-formed. */
  ghost predicate KeepsWf(step: (State, string, nat) -> Outcome) {
    forall r: State, line: string, k: nat :: r.Wf() ==> step(r, line, k).reg.Wf()
  }

  lemma {:induction false} RunKeepsWf(r: State, lines: seq<string>, step: (State, string, nat) -> Outcome, k: nat)
    requires r.Wf() && KeepsWf(step)
    ensures Run(r, lines, step, k).reg.Wf()
    decreases |lines|
  {
    if lines != [] {
      var l := step(r, lines[0], k);
      if !l.closed {
        RunKeepsWf(l.reg, lines[1..], step, k + 1);
      }
    }
  }

  /** Lines are stepped one after the other: running two batches is running the first,
      then, unless it closed the connection, the second from where it left off. */
  lemma {:induction false} RunAppend(r: State, a: seq<string>, b: seq<string>, step: (State, string, nat) -> Outcome, k: nat)
    ensures var o1 := Run(r, a, step, k);
      var o := Run(r, a + b, step, k);
      if o1.closed then o == o1
      else
        var o2 := Run(o1.reg, b, step, k + |a|);
        o == Outcome(o2.reg, o1.out + o2.out, o2.closed)
    decreases |a|
  {
    if a == [] {
      assert a + b == b;
    } else {
      assert (a + b)[0] == a[0] && (a + b)[1..] == a[1..] + b;
      var l := step(r, a[0], k);
      if !l.closed {
        RunAppend(l.reg, a[1..], b, step, k + 1);
        var o1 := Run(l.reg, a[1..], step, k + 1);
        if !o1.closed {
          AppendAssoc(l.out, o1.out, Run(o1.reg, b, step, k + |a|).out);
        }
      }
    }
  }

  /** One more line, when the earlier ones left the connection open, is one more step. */
  lemma RunLine(r: State, lines: seq<string>, i: nat, step: (State, string, nat) -> Outcome, k: nat)
    requires i < |lines| && !Run(r, lines[..i], step, k).closed
    ensures var o1 := Run(r, lines[..i], step, k);
      var l := step(o1.reg, lines[i], k + i);
      Run(r, lines[..i + 1], step, k) == Outcome(l.reg, o1.out + l.out, l.closed)
  {
    var a, x := lines[..i], lines[i];
    assert lines[..i + 1] == a + [x];
    RunAppend(r, a, [x], step, k);
    var o1 := Run(r, a, step, k);
    var l := step(o1.reg, x, k + i);
    assert [x][1..] == [];
    assert Run(o1.reg, [x], step, k + i) == Outcome(l.reg, l.out, l.closed) by {
      assert l.out + [] == l.out;
    }
  }

  /** handle_client's per-line step: LineStep with the coin of the k-th handled line. */
  ghost function LinesOf(h: Handle, decode: string -> Option<Message>, flip: nat -> bool): (State, string, nat) -> Outcome {
    (r: State, line: string, k: nat) => if r.Wf() then LineStep(r, h, line, decode, flip(k)) else Outcome(r, [], false)
  }

  lemma LinesKeepWf(h: Handle, decode: string -> Option<Message>, flip: nat -> bool)
    ensures KeepsWf(LinesOf(h, decode, flip))
  {
    forall r: State, line: string, k: nat | r.Wf()
      ensures LinesOf(h, decode, flip)(r, line, k).reg.Wf()
    {
      assert LinesOf(h, decode, flip)(r, line, k) == LineStep(r, h, line, decode, flip(k));
    }
  }

  /** The messages of the inner read loop, in order: each line is a LineStep with the next
      coin, and one whose handler raises ends the connection. */
  ghost function Feed(r: State, h: Handle, lines: seq<string>, decode: string -> Option<Message>,
                      flip: nat -> bool, k: nat): (o: Outcome)
    requires r.Wf()
    ensures o.reg.Wf()
  {
    LinesKeepWf(h, decode, flip);
    RunKeepsWf(r, lines, LinesOf(h, decode, flip), k);
    Run(r, lines, LinesOf(h, decode, flip), k)
  }

  /** A message with a missing field is among the decoded lines. */
  predicate HasBroken(lines: seq<string>, decode: string -> Option<Message>) {
    exists i :: 0 <= i < |lines| && decode(lines[i]) == Some(Broken)
  }

  /** A message whose handler may raise, in some registries, is among the decoded lines. */
  predicate MayRaise(lines: seq<string>, decode: string -> Option<Message>) {
    exists i :: 0 <= i < |lines| && decode(lines[i]).Some? && (decode(lines[i]).value.Broken? || decode(lines[i]).value.LooseMove?)
  }

  lemma {:induction false} FeedKeepsValid(r: State, h: Handle, lines: seq<string>, decode: string -> Option<Message>,
                                          flip: nat -> bool, k: nat)
    requires r.Valid()
    ensures Feed(r, h, lines, decode, flip, k).reg.Valid()
    decreases |lines|
  {
    if lines != [] {
      FeedCons(r, h, lines, decode, flip, k);
      var l := LineStep(r, h, lines[0], decode, flip(k));
      LineKeepsValid(r, h, lines[0], decode, flip(k));
      if !l.closed {
        FeedKeepsValid(l.reg, h, lines[1..], decode, flip, k + 1);
      }
    }
  }

  /** HasBroken and MayRaise of a non-empty batch: its first line, or the rest. */
  lemma ConsLines(lines: seq<string>, decode: string -> Option<Message>)
    requires lines != []
    ensures HasBroken(lines, decode) <==> decode(lines[0]) == Some(Broken) || HasBroken(lines[1..], decode)
    ensures MayRaise(lines[1..], decode) ==> MayRaise(lines, decode)
  {
    var tail := lines[1..];
    if HasBroken(lines, decode) {
      var i :| 0 <= i < |lines| && decode(lines[i]) == Some(Broken);
      if i > 0 {
        assert decode(tail[i - 1]) == Some(Broken);
      }
    }
    if HasBroken(tail, decode) {
      var i :| 0 <= i < |tail| && decode(tail[i]) == Some(Broken);
      assert decode(lines[i + 1]) == Some(Broken);
    }
    if MayRaise(tail, decode) {
      var i :| 0 <= i < |tail| && decode(tail[i]).Some? && (decode(tail[i]).value.Broken? || decode(tail[i]).value.LooseMove?);
      assert decode(lines[i + 1]) == decode(tail[i]);
    }
  }

  /** A line with a missing field always closes the connection, if an earlier line did not;
      only a message with a missing field or a move with a coordinate that is not an
      integer can close it; and a closed connection's handle is forgotten. */
  lemma {:induction false} FeedClosesOnBroken(r: State, h: Handle, lines: seq<string>, decode: string -> Option<Message>,
                                              flip: nat -> bool, k: nat)
    requires r.Wf()
    ensures var o := Feed(r, h, lines, decode, flip, k);
      && (HasBroken(lines, decode) ==> o.closed)
      && (o.closed ==> MayRaise(lines, decode))
      && (o.closed ==> h !in o.reg.lobby.names)
    decreases |lines|
  {
    if lines != [] {
      ConsLines(lines, decode);
      var l := LineStep(r, h, lines[0], decode, flip(k));
      LineCloses(r, h, lines[0], decode, flip(k));
      if !l.closed {
        FeedClosesOnBroken(l.reg, h, lines[1..], decode, flip, k + 1);
      } else {
        assert decode(lines[0]).Some? && (decode(lines[0]).value.Broken? || decode(lines[0]).value.LooseMove?);
      }
    }
  }

  /** Lines are handled one after the other: feeding two batches of lines is feeding the
      first, then, unless it closed the connection, the second from where it left off. */
  lemma FeedAppend(r: State, h: Handle, a: seq<string>, b: seq<string>,
                                      decode: string -> Option<Message>, flip: nat -> bool, k: nat)
    requires r.Wf()
    ensures var o1 := Feed(r, h, a, decode, flip, k);
      var o := Feed(r, h, a + b, decode, flip, k);
      if o1.closed then o == o1
      else
        var o2 := Feed(o1.reg, h, b, decode, flip, k + |a|);
        o == Outcome(o2.reg, o1.out + o2.out, o2.closed)
  {
    RunAppend(r, a, b, LinesOf(h, decode, flip), k);
  }

  /** Feed of a non-empty batch: its first line, then, unless that closed the connection,
      the rest. */
  lemma FeedCons(r: State, h: Handle, lines: seq<string>, decode: string -> Option<Message>, flip: nat -> bool, k: nat)
    requires r.Wf() && lines != []
    ensures var l := LineStep(r, h, lines[0], decode, flip(k));
      var o := Feed(r, h, lines, decode, flip, k);
      if l.closed then o == l
      else
        var t := Feed(l.reg, h, lines[1..], decode, flip, k + 1);
        o == Outcome(t.reg, l.out + t.out, t.closed)
  {
    assert LinesOf(h, decode, flip)(r, lines[0], k) == LineStep(r, h, lines[0], decode, flip(k));
  }

  /** Feeding one more line, when the earlier lines left the connection open, is one more
      LineStep with the next coin. */
  lemma FeedLine(r: State, h: Handle, lines: seq<string>, i: nat, decode: string -> Option<Message>,
                 flip: nat -> bool, k: nat)
    requires r.Wf() && i < |lines| && !Feed(r, h, lines[..i], decode, flip, k).closed
    ensures var o1 := Feed(r, h, lines[..i], decode, flip, k);
      var l := LineStep(o1.reg, h, lines[i], decode, flip(k + i));
      Feed(r, h, lines[..i + 1], decode, flip, k) == Outcome(l.reg, o1.out + l.out, l.closed)
  {
    RunLine(r, lines, i, LinesOf(h, decode, flip), k);
    var o1 := Feed(r, h, lines[..i], decode, flip, k);
    assert LinesOf(h, decode, flip)(o1.reg, lines[i], k + i) == LineStep(o1.reg, h, lines[i], decode, flip(k + i));
  }

  /** One pass of the outer read loop: new registries, messages sent, whether the
      connection was closed, and the buffer kept for the next pass. */
  datatype Read = Read(reg: State, out: seq<Outbound>, closed: bool, buffer: string)

  /** `data = recv(...)`: empty data (peer closed) ends the loop and the connection is
      cleaned up; otherwise the data is appended to the buffer, the complete non-blank lines
      are handled in order, and the unterminated tail is kept. */
  ghost function ReceiveStep(r: State, h: Handle, buffer: string, data: string, decode: string -> Option<Message>,
                       flip: nat -> bool, k: nat): (o: Read)
    requires r.Wf()
    ensures o.reg.Wf()
  {
    if data == [] then
      var d := DisconnectStep(r, h);
      Read(d.reg, d.out, true, buffer)
    else
      var f := Split(buffer + data);
      var o := Feed(r, h, NonBlank(f.lines), decode, flip, k);
      Read(o.reg, o.out, o.closed, f.rest)
  }

  lemma ReceiveKeepsValid(r: State, h: Handle, buffer: string, data: string, decode: string -> Option<Message>,
                          flip: nat -> bool, k: nat)
    requires r.Valid()
    ensures ReceiveStep(r, h, buffer, data, decode, flip, k).reg.Valid()
  {
    if data == [] {
      DisconnectKeepsValid(r, h);
    } else {
      FeedKeepsValid(r, h, NonBlank(Split(buffer + data).lines), decode, flip, k);
    }
  }

  /** The number of lines a pass hands to the inner loop (each draws one coin). */
  function Handled(buffer: string, data: string): nat {
    if data == [] then 0 else |NonBlank(Split(buffer + data).lines)|
  }

  /** handle_client's outer loop over the successive results of `recv`, from chunk `j` and
      the given buffer: it stops at the first pass that closes the connection. When the
      chunks run out first the connection is still open (the next `recv` has not returned). */
  ghost function Session(r: State, h: Handle, buffer: string, chunks: seq<string>, j: nat,
                   decode: string -> Option<Message>, flip: nat -> bool, k: nat): (o: Outcome)
    requires r.Wf()
    ensures o.reg.Wf()
    decreases |chunks| - j
  {
    if j >= |chunks| then Outcome(r, [], false)
    else
      var p := ReceiveStep(r, h, buffer, chunks[j], decode, flip, k);
      if p.closed then Outcome(p.reg, p.out, true)
      else
        var o := Session(p.reg, h, p.buffer, chunks, j + 1, decode, flip, k + Handled(buffer, chunks[j]));
        Outcome(o.reg, p.out + o.out, o.closed)
  }

  /** A whole connection: the welcome notice, then the read loop from an empty buffer. */
  ghost function Connection(r: State, h: Handle, chunks: seq<string>, decode: string -> Option<Message>,
                      flip: nat -> bool): (o: Outcome)
    requires r.Wf()
    ensures o.reg.Wf()
  {
    var c := ConnectStep(r, h);
    var s := Session(c.reg, h, "", chunks, 0, decode, flip, 0);
    Outcome(s.reg, c.out + s.out, s.closed)
  }

  lemma {:induction false} SessionKeepsValid(r: State, h: Handle, buffer: string, chunks: seq<string>, j: nat,
                                             decode: string -> Option<Message>, flip: nat -> bool, k: nat)
    requires r.Valid()
    ensures Session(r, h, buffer, chunks, j, decode, flip, k).reg.Valid()
    decreases |chunks| - j
  {
    if j < |chunks| {
      ReceiveKeepsValid(r, h, buffer, chunks[j], decode, flip, k);
      var p := ReceiveStep(r, h, buffer, chunks[j], decode, flip, k);
      if !p.closed {
        SessionKeepsValid(p.reg, h, p.buffer, chunks, j + 1, decode, flip, k + Handled(buffer, chunks[j]));
      }
    }
  }

  /** A pass closes the connection when the peer closed it or a line has a missing field,
      only then or when a move has a coordinate that is not an integer, and a closed
      connection's handle is forgotten. */
  lemma ReceiveCloses(r: State, h: Handle, buffer: string, data: string, decode: string -> Option<Message>,
                      flip: nat -> bool, k: nat)
    requires r.Wf()
    ensures var p := ReceiveStep(r, h, buffer, data, decode, flip, k);
      && (data == [] || HasBroken(NonBlank(Split(buffer + data).lines), decode) ==> p.closed)
      && (p.closed ==> data == [] || MayRaise(NonBlank(Split(buffer + data).lines), decode))
      && (p.closed ==> h !in p.reg.lobby.names)
  {
    if data != [] {
      FeedClosesOnBroken(r, h, NonBlank(Split(buffer + data).lines), decode, flip, k);
    }
  }

  lemma ReceiveForgets(r: State, h: Handle, buffer: string, data: string, decode: string -> Option<Message>,
                       flip: nat -> bool, k: nat)
    requires r.Wf()
    ensures var p := ReceiveStep(r, h, buffer, data, decode, flip, k);
      (data == [] ==> p.closed) && (p.closed ==> h !in p.reg.lobby.names)
  {
    ReceiveCloses(r, h, buffer, data, decode, flip, k);
  }

  /** Once the peer closes the connection (an empty `recv`, chunk `eof`), the session is
      over and the handle forgotten, whatever would have followed. */
  lemma {:induction false} SessionEndsAtEof(r: State, h: Handle, buffer: string, chunks: seq<string>, j: nat,
                                            decode: string -> Option<Message>, flip: nat -> bool, k: nat, eof: nat)
    requires r.Wf() && j <= eof < |chunks| && chunks[eof] == []
    ensures var o := Session(r, h, buffer, chunks, j, decode, flip, k);
      o.closed && h !in o.reg.lobby.names
    decreases eof - j
  {
    var p := ReceiveStep(r, h, buffer, chunks[j], decode, flip, k);
    ReceiveForgets(r, h, buffer, chunks[j], decode, flip, k);
    if !p.closed {
      SessionEndsAtEof(p.reg, h, p.buffer, chunks, j + 1, decode, flip, k + Handled(buffer, chunks[j]), eof);
    }
  }
}
