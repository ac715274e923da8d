/** The 3x3 board of the game: its cells, the fixed table of winning lines,
    and the two pure questions the engine asks of a board (has a mark
    completed a line? is every cell taken?). */
module Grid {

  /** A cell holds nothing or one of the two marks. The browser code stores
      these as the strings '', 'x' and 'o'. */
  datatype Cell = Empty | X | O

  /** The value placed by a move: never Empty. */
  type Mark = c: Cell | c != Empty witness X

  /** Cells are numbered 0..8 row by row (index = row * 3 + column). */
  type Index = i: int | 0 <= i < 9

  /** A board always has exactly nine cells. */
  type Board = b: seq<Cell> | |b| == 9
    witness [Empty, Empty, Empty, Empty, Empty, Empty, Empty, Empty, Empty]

  /** The mark of the other player. */
  function Other(m: Mark): (r: Mark)
    ensures r != m && (m == X <==> r == O)
  {
    if m == X then O else X
  }

  /** A board with every cell empty. */
  function EmptyBoard(): (b: Board)
    ensures forall k: Index :: b[k] == Empty
  {
    [Empty, Empty, Empty, Empty, Empty, Empty, Empty, Empty, Empty]
  }

  /** Three cell indices forming one winning line. */
  datatype Line = Line(a: Index, b: Index, c: Index)

  /** The winning lines: three rows, three columns, two diagonals. */
  const Wins: seq<Line> := [
    Line(0, 1, 2), Line(3, 4, 5), Line(6, 7, 8),
    Line(0, 3, 6), Line(1, 4, 7), Line(2, 5, 8),
    Line(0, 4, 8), Line(2, 4, 6)
  ]

  /** All three cells of line `l` hold `m`. */
  predicate Completes(b: Board, l: Line, m: Mark) {
    b[l.a] == m && b[l.b] == m && b[l.c] == m
  }

  /** Some line of the table is entirely `m`. */
  predicate CheckWin(b: Board, m: Mark) {
    exists k :: 0 <= k < |Wins| && Completes(b, Wins[k], m)
  }

  /** The lines of the table tried one after the other, as the scan of
      the table does. */
  predicate ScanLines(b: Board, m: Mark) {
    Completes(b, Line(0, 1, 2), m) || Completes(b, Line(3, 4, 5), m) ||
    Completes(b, Line(6, 7, 8), m) || Completes(b, Line(0, 3, 6), m) ||
    Completes(b, Line(1, 4, 7), m) || Completes(b, Line(2, 5, 8), m) ||
    Completes(b, Line(0, 4, 8), m) || Completes(b, Line(2, 4, 6), m)
  }

  /** Scanning the lines one by one answers the same as `CheckWin`. */
  lemma CheckWinByLine(b: Board, m: Mark)
    ensures CheckWin(b, m) <==> ScanLines(b, m)
  {
    if CheckWin(b, m) {
      var k :| 0 <= k < |Wins| && Completes(b, Wins[k], m);
      assert k in {0, 1, 2, 3, 4, 5, 6, 7};
    } else {
      assert !Completes(b, Wins[0], m) && !Completes(b, Wins[1], m);
      assert !Completes(b, Wins[2], m) && !Completes(b, Wins[3], m);
      assert !Completes(b, Wins[4], m) && !Completes(b, Wins[5], m);
      assert !Completes(b, Wins[6], m) && !Completes(b, Wins[7], m);
    }
  }

  /** No cell is empty. The engine reads a full board as a draw only
      after it has found no win. */
  predicate IsDraw(b: Board) {
    forall k: Index :: b[k] != Empty
  }

  /** A board is full exactly when no empty cell is left to count. */
  lemma DrawIsNoEmptyCell(b: Board)
    ensures IsDraw(b) <==> Count(b, Empty) == 0
  {
    CountExtremes(b, Empty);
  }

  /** How many cells of `b` hold `c`. */
  function Count(b: seq<Cell>, c: Cell): (n: nat)
    ensures n <= |b|
  {
    if b == [] then 0
    else (if b[0] == c then 1 else 0) + Count(b[1..], c)
  }

  /** The count reaches its bounds exactly in the uniform cases: it is the
      length when every cell holds `c` and zero when none does. */
  lemma {:induction false} CountExtremes(b: seq<Cell>, c: Cell)
    ensures Count(b, c) == |b| <==> forall k :: 0 <= k < |b| ==> b[k] == c
    ensures Count(b, c) == 0 <==> forall k :: 0 <= k < |b| ==> b[k] != c
  {
    if b != [] {
      CountExtremes(b[1..], c);
      assert forall k :: 1 <= k < |b| ==> b[k] == b[1..][k - 1];
    }
  }

  /** Overwriting one cell moves that cell from the count of its old value
      to the count of its new value. */
  lemma {:induction false} CountUpdate(b: seq<Cell>, i: nat, v: Cell, c: Cell)
    requires i < |b|
    ensures Count(b[i := v], c)
         == Count(b, c) - (if b[i] == c then 1 else 0) + (if v == c then 1 else 0)
  {
    if i > 0 {
      assert b[i := v][1..] == b[1..][i - 1 := v];
      CountUpdate(b[1..], i - 1, v, c);
    } else {
      assert b[i := v][1..] == b[1..];
    }
  }

  /** Writing `m` into a cell cannot complete a line of the other mark:
      a line the other mark lacked before it still lacks. */
  lemma PlaceKeepsOtherLinesOpen(b: Board, i: Index, m: Mark, o: Mark)
    requires o != m && !CheckWin(b, o)
    ensures !CheckWin(b[i := m], o)
  {
    var b' := b[i := m];
    forall k | 0 <= k < |Wins| ensures !Completes(b', Wins[k], o) {
      assert !Completes(b, Wins[k], o);
    }
  }

  /** Writing `m` into one cell that completes a line of `m` which was not
      there before: that line runs through the written cell. */
  lemma {:induction false} NewLineRunsThroughMove(b: Board, i: Index, m: Mark)
    requires !CheckWin(b, m) && CheckWin(b[i := m], m)
    ensures exists k :: 0 <= k < |Wins| && Completes(b[i := m], Wins[k], m)
                        && i in {Wins[k].a, Wins[k].b, Wins[k].c}
  {
    var k :| 0 <= k < |Wins| && Completes(b[i := m], Wins[k], m);
    assert !Completes(b, Wins[k], m);
  }

  /** Row and column of a cell. */
  function Row(k: Index): int { k / 3 }
  function Col(k: Index): int { k % 3 }

  /** Three cells, in increasing order, that are equally spaced along both
      axes: exactly the straight lines of length three on a 3x3 grid. */
  predicate Straight(l: Line) {
    l.a < l.b < l.c &&
    Row(l.b) - Row(l.a) == Row(l.c) - Row(l.b) &&
    Col(l.b) - Col(l.a) == Col(l.c) - Col(l.b)
  }

  /** The table of winning lines lists every straight line of the grid
      and nothing else. */
  lemma WinsAreTheStraightLines()
    ensures forall l: Line :: l in Wins <==> Straight(l)
  {
    forall l: Line ensures l in Wins <==> Straight(l) {
      if Straight(l) {
        StraightIsListed(l);
      }
    }
  }

  /** A mark has won exactly when it fills some straight line of the grid:
      `CheckWin` agrees with the geometric definition of a line, not only
      with the table. */
  lemma WinIsStraightLine(b: Board, m: Mark)
    ensures CheckWin(b, m) <==> exists l: Line :: Straight(l) && Completes(b, l, m)
  {
    WinsAreTheStraightLines();
    if CheckWin(b, m) {
      var k :| 0 <= k < |Wins| && Completes(b, Wins[k], m);
      assert Straight(Wins[k]);
    } else {
      forall l: Line | Straight(l) ensures !Completes(b, l, m) {
        assert l in Wins;
        var k :| 0 <= k < |Wins| && Wins[k] == l;
      }
    }
  }

  lemma StraightIsListed(l: Line)
    requires Straight(l)
    ensures l in Wins
  {
    var d := l.b - l.a;
    assert l.c - l.b == d;
    assert l == Line(l.a, l.a + d, l.a + 2 * d);
  }
}
