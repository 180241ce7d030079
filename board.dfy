/** The 15x15 Caro board of server/server.py: construction, placing a symbol,
    the five-in-a-row check run after each move, and the full-board (draw) check. */
module Board {

  const Size: nat := 15
  const WinLength: nat := 5
  const Empty: char := ' '
  const X: char := 'X'
  const O: char := 'O'

  /** A board is a list of rows; every row is a list of one-character cells. */
  type Grid = seq<seq<char>>

  /** A direction (row step, column step). */
  type Dir = (int, int)

  /** The four line directions check_win scans: horizontal, vertical and the two diagonals. */
  const Directions: seq<Dir> := [(0, 1), (1, 0), (1, 1), (1, -1)]

  predicate Shaped(b: Grid) {
    |b| == Size && forall r :: 0 <= r < |b| ==> |b[r]| == Size
  }

  predicate InBounds(r: int, c: int) {
    0 <= r < Size && 0 <= c < Size
  }

  predicate IsSymbol(ch: char) {
    ch == X || ch == O
  }

  /** create_new_board: a fresh board with every cell empty. */
  function NewBoard(): (b: Grid)
    ensures Shaped(b)
    ensures forall r, c :: InBounds(r, c) ==> b[r][c] == Empty
  {
    seq(Size, _ => seq(Size, _ => Empty))
  }

  /** `board[row][col] = symbol`: exactly one cell takes the symbol, the others keep theirs. */
  function Place(b: Grid, row: int, col: int, sym: char): (b': Grid)
    requires Shaped(b) && InBounds(row, col)
    ensures Shaped(b')
    ensures b'[row][col] == sym
    ensures forall r, c :: InBounds(r, c) && (r != row || c != col) ==> b'[r][c] == b[r][c]
  {
    b[row := b[row][col := sym]]
  }

  /** Every non-empty cell of `b` is unchanged in `b'`: cells are written once. */
  ghost predicate Extends(b: Grid, b': Grid)
    requires Shaped(b) && Shaped(b')
  {
    forall r, c :: InBounds(r, c) && b[r][c] != Empty ==> b'[r][c] == b[r][c]
  }

  lemma PlaceExtends(b: Grid, row: int, col: int, sym: char)
    requires Shaped(b) && InBounds(row, col) && b[row][col] == Empty
    ensures Extends(b, Place(b, row, col, sym))
    ensures Place(b, row, col, sym)[row][col] == sym
  {
  }

  // ---------------------------------------------------------------------------
  // check_win

  /** Cell `row + j*dr, col + j*dc` is on the board and holds `sym`. */
  predicate HoldsAt(b: Grid, row: int, col: int, d: Dir, sym: char, j: int)
    requires Shaped(b)
  {
    var r, c := row + j * d.0, col + j * d.1;
    InBounds(r, c) && b[r][c] == sym
  }

  function Neg(d: Dir): Dir {
    (-d.0, -d.1)
  }

  /** Number of contiguous cells holding `sym` at steps i, i+1, ... along `d`,
      stopping at the edge, at the first mismatch, or after step WinLength - 1. */
  function Run(b: Grid, row: int, col: int, d: Dir, sym: char, i: nat): (n: nat)
    requires Shaped(b) && 1 <= i <= WinLength
    ensures i + n <= WinLength
    decreases WinLength - i
  {
    if i < WinLength && HoldsAt(b, row, col, d, sym, i) then 1 + Run(b, row, col, d, sym, i + 1) else 0
  }

  /** The placed cell, plus the run walking forward, plus the run walking backward. */
  function LineCount(b: Grid, row: int, col: int, d: Dir, sym: char): nat
    requires Shaped(b)
  {
    1 + Run(b, row, col, d, sym, 1) + Run(b, row, col, Neg(d), sym, 1)
  }

  /** What check_win(board, row, col, symbol) answers. */
  predicate Wins(b: Grid, row: int, col: int, sym: char)
    requires Shaped(b)
  {
    exists k :: 0 <= k < |Directions| && LineCount(b, row, col, Directions[k], sym) >= WinLength
  }

  /** check_win: for each direction count forward then backward with early exits,
      and report a win as soon as one direction reaches WinLength. */
  method CheckWin(b: Grid, row: int, col: int, sym: char) returns (won: bool)
    requires Shaped(b)
    ensures won == Wins(b, row, col, sym)
  {
    var k := 0;
    while k < |Directions|
      invariant 0 <= k <= |Directions|
      invariant forall j :: 0 <= j < k ==> LineCount(b, row, col, Directions[j], sym) < WinLength
    {
      var d := Directions[k];
      var count := 1;
      var i := 1;
      while i < WinLength
        invariant 1 <= i <= WinLength
        invariant count + Run(b, row, col, d, sym, i) == 1 + Run(b, row, col, d, sym, 1)
      {
        if HoldsAt(b, row, col, d, sym, i) {
          count := count + 1;
        } else {
          break;
        }
        i := i + 1;
      }
      var back := Neg(d);
      i := 1;
      while i < WinLength
        invariant 1 <= i <= WinLength
        invariant count + Run(b, row, col, back, sym, i) == LineCount(b, row, col, d, sym)
      {
        if HoldsAt(b, row, col, back, sym, i) {
          count := count + 1;
        } else {
          break;
        }
        i := i + 1;
      }
      if count >= WinLength {
        return true;
      }
      k := k + 1;
    }
    return false;
  }

  // ---------------------------------------------------------------------------
  // check_win as a geometric statement

  /** Every cell at offsets s .. s+len-1 along `d`, except the placed cell at offset 0,
      holds `sym` (check_win counts the placed cell without looking at it). */
  predicate WindowHolds(b: Grid, row: int, col: int, d: Dir, sym: char, s: int, len: nat)
    requires Shaped(b)
  {
    forall j :: s <= j < s + len && j != 0 ==> HoldsAt(b, row, col, d, sym, j)
  }

  /** Some line of `len` consecutive cells through (row, col) in one of the four directions. */
  predicate LineThrough(b: Grid, row: int, col: int, sym: char, len: nat)
    requires Shaped(b)
  {
    exists k, s :: 0 <= k < |Directions| && s <= 0 < s + len && WindowHolds(b, row, col, Directions[k], sym, s, len)
  }

  lemma {:induction false} RunCovers(b: Grid, row: int, col: int, d: Dir, sym: char, i: nat)
    requires Shaped(b) && 1 <= i <= WinLength
    ensures forall j :: i <= j < i + Run(b, row, col, d, sym, i) ==> HoldsAt(b, row, col, d, sym, j)
    ensures i + Run(b, row, col, d, sym, i) < WinLength ==> !HoldsAt(b, row, col, d, sym, i + Run(b, row, col, d, sym, i))
    decreases WinLength - i
  {
    if i < WinLength && HoldsAt(b, row, col, d, sym, i) {
      RunCovers(b, row, col, d, sym, i + 1);
    }
  }

  /** A run that starts at step i covers at least every step up to m that holds `sym`. */
  lemma {:induction false} RunAtLeast(b: Grid, row: int, col: int, d: Dir, sym: char, i: nat, m: int)
    requires Shaped(b) && 1 <= i <= WinLength && m < WinLength
    requires forall j :: i <= j <= m ==> HoldsAt(b, row, col, d, sym, j)
    ensures Run(b, row, col, d, sym, i) >= m - i + 1
    decreases WinLength - i
  {
    if i <= m {
      RunAtLeast(b, row, col, d, sym, i + 1, m);
    }
  }

  lemma NegStep(b: Grid, row: int, col: int, d: Dir, sym: char, m: int)
    requires Shaped(b)
    ensures HoldsAt(b, row, col, Neg(d), sym, m) == HoldsAt(b, row, col, d, sym, -m)
  {
    assert m * (-d.0) == (-m) * d.0 && m * (-d.1) == (-m) * d.1;
  }

  /** One direction reaches WinLength exactly when a window of WinLength cells
      through the placed cell holds `sym`. */
  lemma {:induction false} LineCountIffWindow(b: Grid, row: int, col: int, d: Dir, sym: char)
    requires Shaped(b)
    ensures LineCount(b, row, col, d, sym) >= WinLength <==>
            exists s :: 1 - WinLength <= s <= 0 && WindowHolds(b, row, col, d, sym, s, WinLength)
  {
    var f := Run(b, row, col, d, sym, 1);
    var g := Run(b, row, col, Neg(d), sym, 1);
    RunCovers(b, row, col, d, sym, 1);
    RunCovers(b, row, col, Neg(d), sym, 1);
    if 1 + f + g >= WinLength {
      var s := -g;
      forall j | s <= j < s + WinLength && j != 0
        ensures HoldsAt(b, row, col, d, sym, j)
      {
        if j < 0 {
          NegStep(b, row, col, d, sym, -j);
        }
      }
      assert WindowHolds(b, row, col, d, sym, s, WinLength);
    }
    if s :| 1 - WinLength <= s <= 0 && WindowHolds(b, row, col, d, sym, s, WinLength) {
      RunAtLeast(b, row, col, d, sym, 1, s + WinLength - 1);
      forall m | 1 <= m <= -s
        ensures HoldsAt(b, row, col, Neg(d), sym, m)
      {
        NegStep(b, row, col, d, sym, m);
      }
      RunAtLeast(b, row, col, Neg(d), sym, 1, -s);
    }
  }

  /** check_win is true exactly when five consecutive cells through (row, col) in one of
      the four directions hold the symbol (the placed cell itself taken as holding it). */
  lemma WinsIffFiveThrough(b: Grid, row: int, col: int, sym: char)
    requires Shaped(b)
    ensures Wins(b, row, col, sym) <==> LineThrough(b, row, col, sym, WinLength)
  {
    forall k | 0 <= k < |Directions| {
      LineCountIffWindow(b, row, col, Directions[k], sym);
    }
    if LineThrough(b, row, col, sym, WinLength) {
      var k, s :| 0 <= k < |Directions| && s <= 0 < s + WinLength && WindowHolds(b, row, col, Directions[k], sym, s, WinLength);
      assert LineCount(b, row, col, Directions[k], sym) >= WinLength;
    }
  }

  /** No "exactly five" rule: a line of six or more through the placed cell also wins. */
  lemma LongerLinesWin(b: Grid, row: int, col: int, sym: char, len: nat)
    requires Shaped(b) && len >= WinLength && LineThrough(b, row, col, sym, len)
    ensures Wins(b, row, col, sym)
  {
    var k, s :| 0 <= k < |Directions| && s <= 0 < s + len && WindowHolds(b, row, col, Directions[k], sym, s, len);
    var s' := if s + WinLength > 0 then s else 1 - WinLength;
    assert WindowHolds(b, row, col, Directions[k], sym, s', WinLength);
    WinsIffFiveThrough(b, row, col, sym);
  }

  // ---------------------------------------------------------------------------
  // is_board_full

  /** No cell is empty. */
  predicate Full(b: Grid)
    requires Shaped(b)
  {
    forall r, c :: 0 <= r < Size && 0 <= c < Size ==> b[r][c] != Empty
  }

  /** is_board_full: row-major scan that returns false at the first empty cell. */
  method IsBoardFull(b: Grid) returns (full: bool)
    requires Shaped(b)
    ensures full == Full(b)
  {
    for r := 0 to Size
      invariant forall r', c :: 0 <= r' < r && 0 <= c < Size ==> b[r'][c] != Empty
    {
      for c := 0 to Size
        invariant forall c' :: 0 <= c' < c ==> b[r][c'] != Empty
      {
        if b[r][c] == Empty {
          return false;
        }
      }
    }
    return true;
  }

  lemma NewBoardNotFull()
    ensures !Full(NewBoard())
  {
    assert NewBoard()[0][0] == Empty;
  }
}
