/** The inbound line framer of handle_client (server/server.py): received text is
    appended to a buffer, complete lines are cut off at the first '\n' one by one,
    whitespace-only lines are skipped, and the unterminated tail stays buffered. */
module Framer {

  const Newline: char := '\n'

  /** Python's str.isspace for one character: the characters str.strip() removes. */
  predicate IsSpace(ch: char) {
    var n := ch as int;
    (0x09 <= n <= 0x0D) || (0x1C <= n <= 0x20) || n == 0x85 || n == 0xA0 || n == 0x1680
    || (0x2000 <= n <= 0x200A) || n == 0x2028 || n == 0x2029 || n == 0x202F || n == 0x205F || n == 0x3000
  }

  /** `not line.strip()`: the line is empty or made only of whitespace. */
  predicate Blank(line: string) {
    forall i :: 0 <= i < |line| ==> IsSpace(line[i])
  }

  /** Position of the first '\n' (what `buffer.split('\n', 1)` cuts at). */
  function FirstNewline(s: string): (i: nat)
    requires Newline in s
    ensures i < |s| && s[i] == Newline && Newline !in s[..i]
  {
    if s[0] == Newline then 0 else 1 + FirstNewline(s[1..])
  }

  /** All complete lines of a buffer, in order, and the unterminated remainder. */
  datatype Framing = Framing(lines: seq<string>, rest: string)

  predicate NoNewline(s: string) {
    Newline !in s
  }

  /** Every line is free of '\n'. */
  predicate AllNoNewline(lines: seq<string>) {
    forall k :: 0 <= k < |lines| ==> NoNewline(lines[k])
  }

  function Split(buf: string): (f: Framing)
    ensures NoNewline(f.rest)
    ensures AllNoNewline(f.lines)
    decreases |buf|
  {
    if Newline !in buf then Framing([], buf)
    else
      var i := FirstNewline(buf);
      var tail := Split(buf[i + 1..]);
      Framing([buf[..i]] + tail.lines, tail.rest)
  }

  /** The wire form of a sequence of lines: each followed by '\n'. */
  function Join(lines: seq<string>): string {
    if lines == [] then "" else lines[0] + [Newline] + Join(lines[1..])
  }

  /** The lines handed to the JSON decoder: blank ones are dropped, order is kept. */
  function NonBlank(lines: seq<string>): (kept: seq<string>)
    ensures forall k :: 0 <= k < |kept| ==> !Blank(kept[k]) && kept[k] in lines
  {
    if lines == [] then []
    else if Blank(lines[0]) then NonBlank(lines[1..])
    else [lines[0]] + NonBlank(lines[1..])
  }

  /** The read loop's inner `while '\n' in buffer` loop over one buffer. */
  method Drain(buffer: string) returns (messages: seq<string>, rest: string)
    ensures messages == NonBlank(Split(buffer).lines)
    ensures rest == Split(buffer).rest
  {
    var buf := buffer;
    messages := [];
    while Newline in buf
      invariant messages + NonBlank(Split(buf).lines) == NonBlank(Split(buffer).lines)
      invariant Split(buf).rest == Split(buffer).rest
      decreases |buf|
    {
      var i := FirstNewline(buf);
      var line := buf[..i];
      SplitCons(buf);
      NonBlankCons(line, Split(buf[i + 1..]).lines);
      buf := buf[i + 1..];
      if Blank(line) {
        continue;
      }
      AppendAssoc(messages, [line], NonBlank(Split(buf).lines));
      messages := messages + [line];
    }
    rest := buf;
  }

  // ---------------------------------------------------------------------------
  // Properties of the framing

  /** Nothing is lost or invented: the lines, each re-terminated, followed by the
      remainder, give back the buffer. */
  lemma {:induction false} SplitJoin(buf: string)
    ensures Join(Split(buf).lines) + Split(buf).rest == buf
    decreases |buf|
  {
    if Newline in buf {
      var i := FirstNewline(buf);
      var line, tail := buf[..i], buf[i + 1..];
      var f := Split(tail);
      SplitJoin(tail);
      SplitCons(buf);
      JoinCons(line, f.lines);
      AppendAssoc(line + [Newline], Join(f.lines), f.rest);
    }
  }

  /** Split cuts at the first '\n': the line before it, then the framing of what follows. */
  lemma SplitCons(buf: string)
    requires Newline in buf
    ensures var i := FirstNewline(buf);
      && Split(buf) == Framing([buf[..i]] + Split(buf[i + 1..]).lines, Split(buf[i + 1..]).rest)
      && buf == buf[..i] + [Newline] + buf[i + 1..]
  {
    var i := FirstNewline(buf);
    assert buf == buf[..i] + [buf[i]] + buf[i + 1..];
  }

  lemma AppendAssoc<T>(a: seq<T>, b: seq<T>, c: seq<T>)
    ensures (a + b) + c == a + (b + c)
  {
  }

  lemma JoinCons(line: string, lines: seq<string>)
    ensures Join([line] + lines) == line + [Newline] + Join(lines)
  {
    assert ([line] + lines)[1..] == lines;
  }

  /** Framing inverts Join: newline-free lines followed by a newline-free tail split back
      into exactly those lines and that tail. */
  lemma {:induction false} JoinSplit(lines: seq<string>, tail: string)
    requires AllNoNewline(lines) && NoNewline(tail)
    ensures Split(Join(lines) + tail) == Framing(lines, tail)
  {
    if lines != [] {
      var x, t := lines[0], lines[1..];
      assert NoNewline(x);
      assert AllNoNewline(t) by {
        forall k | 0 <= k < |t|
          ensures NoNewline(t[k])
        {
          assert t[k] == lines[k + 1];
        }
      }
      JoinSplit(t, tail);
      AppendAssoc(x + [Newline], Join(t), tail);
      SplitLine(x, Join(t) + tail);
      assert [x] + t == lines;
    } else {
      assert Join(lines) == [];
      assert Join(lines) + tail == tail;
    }
  }

  /** A newline-free line followed by '\n' is cut off whole. */
  lemma SplitLine(x: string, rest: string)
    requires NoNewline(x)
    ensures Split(x + [Newline] + rest) == Framing([x] + Split(rest).lines, Split(rest).rest)
  {
    var buf := x + [Newline] + rest;
    assert buf[|x|] == Newline;
    assert buf[..|x|] == x;
    FirstNewlineAt(buf, |x|);
    assert buf[|x| + 1..] == rest;
    SplitCons(buf);
  }

  /** The first '\n' is at `i` when `s[i]` is one and none comes before it. */
  lemma {:induction false} FirstNewlineAt(s: string, i: nat)
    requires i < |s| && s[i] == Newline && Newline !in s[..i]
    ensures FirstNewline(s) == i
  {
    if i > 0 {
      assert s[0] == s[..i][0];
      assert s[1..][..i - 1] == s[..i][1..];
      FirstNewlineAt(s[1..], i - 1);
    }
  }

  lemma {:induction false} JoinAppend(a: seq<string>, b: seq<string>)
    ensures Join(a + b) == Join(a) + Join(b)
  {
    if a != [] {
      assert (a + b)[1..] == a[1..] + b;
      JoinAppend(a[1..], b);
    } else {
      assert a + b == b;
      assert Join(a) == [];
      assert Join(a) + Join(b) == Join(b);
    }
  }

  /** Chunking does not matter: framing one chunk, then the kept remainder plus the next
      chunk, yields the same lines and remainder as framing both chunks at once. */
  lemma SplitChunked(a: string, b: string)
    ensures Split(a + b) == Framing(Split(a).lines + Split(Split(a).rest + b).lines, Split(Split(a).rest + b).rest)
  {
    var f1 := Split(a);
    var f2 := Split(f1.rest + b);
    var j1, j2 := Join(f1.lines), Join(f2.lines);
    SplitJoin(a);
    SplitJoin(f1.rest + b);
    JoinAppend(f1.lines, f2.lines);
    Regroup(j1, f1.rest, b, j2, f2.rest);
    AllNoNewlineAppend(f1.lines, f2.lines);
    JoinSplit(f1.lines + f2.lines, f2.rest);
  }

  lemma Regroup(j1: string, r1: string, b: string, j2: string, r2: string)
    requires r1 + b == j2 + r2
    ensures (j1 + r1) + b == (j1 + j2) + r2
  {
    calc {
      (j1 + r1) + b;
      j1 + (r1 + b);
      j1 + (j2 + r2);
      (j1 + j2) + r2;
    }
  }

  lemma AllNoNewlineAppend(a: seq<string>, b: seq<string>)
    requires AllNoNewline(a) && AllNoNewline(b)
    ensures AllNoNewline(a + b)
  {
    forall k | 0 <= k < |a + b|
      ensures NoNewline((a + b)[k])
    {
      if k >= |a| {
        assert (a + b)[k] == b[k - |a|];
      }
    }
  }

  lemma {:induction false} NonBlankAppend(a: seq<string>, b: seq<string>)
    ensures NonBlank(a + b) == NonBlank(a) + NonBlank(b)
  {
    if a != [] {
      var x, t := a[0], a[1..];
      Uncons(a, b);
      NonBlankAppend(t, b);
      NonBlankConsAppend(x, t, b);
    } else {
      assert a + b == b;
      assert NonBlank(a) == [];
      assert NonBlank(a) + NonBlank(b) == NonBlank(b);
    }
  }

  lemma Uncons<T>(a: seq<T>, b: seq<T>)
    requires a != []
    ensures a == [a[0]] + a[1..] && a + b == [a[0]] + (a[1..] + b)
  {
  }

  lemma NonBlankConsAppend(x: string, t: seq<string>, b: seq<string>)
    requires NonBlank(t + b) == NonBlank(t) + NonBlank(b)
    ensures NonBlank([x] + (t + b)) == NonBlank([x] + t) + NonBlank(b)
  {
    NonBlankCons(x, t + b);
    NonBlankCons(x, t);
    if !Blank(x) {
      AppendAssoc([x], NonBlank(t), NonBlank(b));
    }
  }

  lemma NonBlankCons(line: string, lines: seq<string>)
    ensures NonBlank([line] + lines) == if Blank(line) then NonBlank(lines) else [line] + NonBlank(lines)
  {
    assert ([line] + lines)[1..] == lines;
  }

  /** The messages decoded from a stream do not depend on how it was cut into chunks. */
  lemma MessagesChunked(a: string, b: string)
    ensures NonBlank(Split(a + b).lines) == NonBlank(Split(a).lines) + NonBlank(Split(Split(a).rest + b).lines)
  {
    SplitChunked(a, b);
    NonBlankAppend(Split(a).lines, Split(Split(a).rest + b).lines);
  }
}
