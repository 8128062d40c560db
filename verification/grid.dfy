/** The array operations the binary problem relies on: a two-dimensional integer
    grid (a numpy array of shape rows × columns), the row-major list of the cells
    holding a value (numpy's argwhere), the largest entry (numpy's max) and the
    Chebyshev distance between two cells (the max of the absolute differences). */
module Grid {

  /** A cell of a grid, as numpy's argwhere reports it: [row, column]. */
  datatype Coord = Coord(row: int, col: int)

  type Cells = seq<seq<int>>

  /** Every row has the length of the first one, as in any numpy array. */
  predicate Rectangular(g: Cells) {
    forall r :: 0 <= r < |g| ==> |g[r]| == |g[0]|
  }

  /** The array holds at least one entry and no row is empty. */
  predicate NonEmptyGrid(g: Cells) {
    |g| > 0 && forall r :: 0 <= r < |g| ==> |g[r]| > 0
  }

  predicate InBounds(g: Cells, p: Coord) {
    0 <= p.row < |g| && 0 <= p.col < |g[p.row]|
  }

  /** The value v is stored somewhere in g. */
  predicate Occurs(g: Cells, v: int) {
    exists r, c :: 0 <= r < |g| && 0 <= c < |g[r]| && g[r][c] == v
  }

  function Abs(x: int): nat {
    if x < 0 then -x else x
  }

  /** max(|a.row - b.row|, |a.col - b.col|). */
  function Chebyshev(a: Coord, b: Coord): (d: nat)
    ensures d == 0 <==> a == b
    ensures Abs(a.row - b.row) <= d && Abs(a.col - b.col) <= d
    ensures d == Abs(a.row - b.row) || d == Abs(a.col - b.col)
  {
    var dr, dc := Abs(a.row - b.row), Abs(a.col - b.col);
    if dr < dc then dc else dr
  }

  /** a comes strictly before b when the grid is read row by row. */
  predicate Before(a: Coord, b: Coord) {
    a.row < b.row || (a.row == b.row && a.col < b.col)
  }

  predicate RowMajorSorted(s: seq<Coord>) {
    forall i, j :: 0 <= i < j < |s| ==> Before(s[i], s[j])
  }

  predicate Distinct<T(==)>(s: seq<T>) {
    forall i, j :: 0 <= i < j < |s| ==> s[i] != s[j]
  }

  /** Two row-major sorted lists of the same cells are the same list. */
  lemma {:induction false} SortedUnique(a: seq<Coord>, b: seq<Coord>)
    requires RowMajorSorted(a) && RowMajorSorted(b)
    requires forall p :: p in a <==> p in b
    ensures a == b
    decreases |a|
  {
    assert a != [] ==> a[0] in b;
    assert b != [] ==> b[0] in a;
    if a != [] {
      assert a[0] == b[0] by {
        assert a[0] in b && b[0] in a;
        var i :| 0 <= i < |a| && a[i] == b[0];
        var j :| 0 <= j < |b| && b[j] == a[0];
      }
      forall p ensures p in a[1..] <==> p in b[1..] {
        assert p in a[1..] <==> p in a && p != a[0] by {
          if p in a && p != a[0] {
            var i :| 0 <= i < |a| && a[i] == p;
            assert a[1..][i - 1] == p;
          }
        }
        assert p in b[1..] <==> p in b && p != b[0] by {
          if p in b && p != b[0] {
            var j :| 0 <= j < |b| && b[j] == p;
            assert b[1..][j - 1] == p;
          }
        }
      }
      SortedUnique(a[1..], b[1..]);
      assert a == [a[0]] + a[1..] && b == [b[0]] + b[1..];
    }
  }

  /** The cells of row r among its first n columns that hold v, left to right. */
  function RowHits(g: Cells, v: int, r: nat, n: nat): (hits: seq<Coord>)
    requires r < |g| && n <= |g[r]|
    ensures forall p :: p in hits <==> p.row == r && 0 <= p.col < n && g[r][p.col] == v
    ensures RowMajorSorted(hits)
  {
    if n == 0 then []
    else RowHits(g, v, r, n - 1) + (if g[r][n - 1] == v then [Coord(r, n - 1)] else [])
  }

  /** The cells of the first m rows that hold v, in row-major order. */
  function Hits(g: Cells, v: int, m: nat): (hits: seq<Coord>)
    requires m <= |g|
    ensures forall p :: p in hits <==> 0 <= p.row < m && 0 <= p.col < |g[p.row]| && g[p.row][p.col] == v
    ensures RowMajorSorted(hits)
  {
    if m == 0 then []
    else
      var front, last := Hits(g, v, m - 1), RowHits(g, v, m - 1, |g[m - 1]|);
      assert forall i, j :: 0 <= i < |front| && 0 <= j < |last| ==> Before(front[i], last[j]) by {
        forall i, j | 0 <= i < |front| && 0 <= j < |last| ensures Before(front[i], last[j]) {
          assert front[i] in front && last[j] in last;
        }
      }
      front + last
  }

  /** numpy's argwhere(g == v): every cell holding v, each once, in row-major order. */
  function ArgWhere(g: Cells, v: int): (hits: seq<Coord>)
    ensures forall p :: p in hits <==> InBounds(g, p) && g[p.row][p.col] == v
    ensures RowMajorSorted(hits) && Distinct(hits)
  {
    Hits(g, v, |g|)
  }

  /** numpy's argwhere(g == v)[0]: the first cell, in row-major order, that holds v. */
  function FirstWhere(g: Cells, v: int): (p: Coord)
    requires Occurs(g, v)
    ensures InBounds(g, p) && g[p.row][p.col] == v
    ensures forall q :: InBounds(g, q) && g[q.row][q.col] == v ==> !Before(q, p)
  {
    var hits := ArgWhere(g, v);
    OccursInArgWhere(g, v);
    assert forall q :: q in hits ==> q == hits[0] || Before(hits[0], q) by {
      forall q | q in hits ensures q == hits[0] || Before(hits[0], q) {
        var k :| 0 <= k < |hits| && hits[k] == q;
      }
    }
    hits[0]
  }

  lemma OccursInArgWhere(g: Cells, v: int)
    requires Occurs(g, v)
    ensures ArgWhere(g, v) != []
  {
    var r, c :| 0 <= r < |g| && 0 <= c < |g[r]| && g[r][c] == v;
    assert Coord(r, c) in ArgWhere(g, v);
  }

  /** numpy's max over one row. */
  function RowMax(row: seq<int>): (m: int)
    requires |row| > 0
    ensures forall c :: 0 <= c < |row| ==> row[c] <= m
    ensures m in row
  {
    if |row| == 1 then row[0]
    else
      var rest := RowMax(row[..|row| - 1]);
      if row[|row| - 1] > rest then row[|row| - 1] else rest
  }

  /** numpy's max over the whole array: an upper bound of every entry that is itself an entry. */
  function GridMax(g: Cells): (m: int)
    requires NonEmptyGrid(g)
    ensures forall r, c :: 0 <= r < |g| && 0 <= c < |g[r]| ==> g[r][c] <= m
    ensures Occurs(g, m)
  {
    var last := RowMax(g[|g| - 1]);
    InRowOccurs(g, |g| - 1, last);
    if |g| == 1 then last
    else
      var rest := GridMax(g[..|g| - 1]);
      PrefixOccurs(g, |g| - 1, rest);
      if last > rest then last else rest
  }

  lemma InRowOccurs(g: Cells, r: int, v: int)
    requires 0 <= r < |g| && v in g[r]
    ensures Occurs(g, v)
  {
    var c :| 0 <= c < |g[r]| && g[r][c] == v;
  }

  lemma PrefixOccurs(g: Cells, k: nat, v: int)
    requires k <= |g| && Occurs(g[..k], v)
    ensures Occurs(g, v)
  {
    var r, c :| 0 <= r < k && 0 <= c < |g[..k][r]| && g[..k][r][c] == v;
    assert g[r][c] == v;
  }
}
