/** Values shared by the modules: an optional value. */
module Options {
  datatype Option<+T> = None | Some(value: T)
}

/**
 Grid cells, rasters, the eight neighbour steps and the octile metric used by
 both searches and by the chamfer distance transform.
 */
module Grid {
  import opened Numbers

  datatype Cell = Cell(i: int, j: int)

  /** `math.sqrt(2.0)`: the exact value of that double. */
  const SQRT2: real := 1.4142135623730951454746218587388284504413604736328125

  /** One row of the neighbour table: an offset and its geometric length. */
  datatype Step = Step(di: int, dj: int, base: real)

  const NEIGHBORS_8: seq<Step> :=
    [ Step(-1, -1, SQRT2), Step(-1, 0, 1.0), Step(-1, 1, SQRT2),
      Step(0, -1, 1.0), Step(0, 1, 1.0),
      Step(1, -1, SQRT2), Step(1, 0, 1.0), Step(1, 1, SQRT2) ]

  /** A numpy array as a value: its shape and what it holds at each index. */
  datatype Raster<+T> = Raster(nx: nat, ny: nat, at: (int, int) -> T) {
    predicate Has(c: Cell) {
      0 <= c.i < nx && 0 <= c.j < ny
    }

    function Get(c: Cell): T {
      at(c.i, c.j)
    }
  }

  /** `(di + dj) + (sqrt(2) - 2) * min(di, dj)`, given the sum and the minimum. */
  function OctileForm(sum: int, low: int): real {
    sum as real + (SQRT2 - 2.0) * (low as real)
  }

  function Octile(a: Cell, b: Cell): real {
    var di := Abs(a.i - b.i);
    var dj := Abs(a.j - b.j);
    OctileForm(di + dj, Min(di, dj))
  }

  /** Chessboard distance: the number of 8-connected steps between two cells. */
  function Chebyshev(a: Cell, b: Cell): nat {
    Max(Abs(a.i - b.i), Abs(a.j - b.j))
  }

  predicate Adjacent(a: Cell, b: Cell) {
    Chebyshev(a, b) == 1
  }

  /** Geometric length of one step between adjacent cells. */
  function Base(a: Cell, b: Cell): real {
    if a.i != b.i && a.j != b.j then SQRT2 else 1.0
  }

  lemma AdjacentSymmetric(a: Cell, b: Cell)
    ensures Adjacent(a, b) == Adjacent(b, a) && Base(a, b) == Base(b, a)
  {
  }

  function Neighbor(c: Cell, k: nat): Cell
    requires k < 8
  {
    Cell(c.i + NEIGHBORS_8[k].di, c.j + NEIGHBORS_8[k].dj)
  }

  /** The neighbour table lists every adjacent cell, with its length, and nothing else. */
  lemma NeighborTable(a: Cell, b: Cell)
    ensures Adjacent(a, b) <==> exists k :: 0 <= k < 8 && Neighbor(a, k) == b
    ensures forall k :: 0 <= k < 8 && Neighbor(a, k) == b ==> NEIGHBORS_8[k].base == Base(a, b)
  {
    if Adjacent(a, b) {
      var di, dj := b.i - a.i, b.j - a.j;
      var k := if di == -1 then dj + 1 else if di == 0 then (if dj == -1 then 3 else 4) else dj + 6;
      assert Neighbor(a, k) == b;
    }
  }

  lemma OctileFormStep(ai: nat, aj: nat, bi: nat, bj: nat, diagonal: bool)
    requires -1 <= bi - ai <= 1 && -1 <= bj - aj <= 1
    requires diagonal ==> ai != bi && aj != bj
    requires !diagonal ==> (ai == bi) != (aj == bj)
    ensures OctileForm(ai + aj, Min(ai, aj))
         <= (if diagonal then SQRT2 else 1.0) + OctileForm(bi + bj, Min(bi, bj))
  {
    var ds, dl := bi + bj - ai - aj, Min(bi, bj) - Min(ai, aj);
    assert diagonal ==> -1 <= dl <= 1 && (ds == 0 || ds == 2 * dl);
    assert !diagonal ==> (ds == 1 || ds == -1) && (dl == 0 || dl == ds);
  }

  lemma AbsStep(x: int, y: int, g: int)
    requires -1 <= x - y <= 1
    ensures var d := Abs(y - g) - Abs(x - g); if x == y then d == 0 else d == 1 || d == -1
  {
  }

  lemma OctileBound(a: Cell, b: Cell, g: Cell, ai: nat, aj: nat, bi: nat, bj: nat)
    requires Adjacent(a, b)
    requires ai == Abs(a.i - g.i) && aj == Abs(a.j - g.j) && bi == Abs(b.i - g.i) && bj == Abs(b.j - g.j)
    ensures OctileForm(ai + aj, Min(ai, aj)) <= Base(a, b) + OctileForm(bi + bj, Min(bi, bj))
  {
    AbsStep(a.i, b.i, g.i);
    AbsStep(a.j, b.j, g.j);
    OctileFormStep(ai, aj, bi, bj, a.i != b.i && a.j != b.j);
  }

  lemma OctileUnfolds(a: Cell, g: Cell)
    ensures var di, dj := Abs(a.i - g.i), Abs(a.j - g.j); Octile(a, g) == OctileForm(di + dj, Min(di, dj))
  {
  }

  /** The octile distance changes by at most the step length: it is a consistent heuristic. */
  lemma OctileStep(a: Cell, b: Cell, g: Cell)
    requires Adjacent(a, b)
    ensures Octile(a, g) <= Base(a, b) + Octile(b, g)
  {
    OctileUnfolds(a, g);
    OctileUnfolds(b, g);
    OctileBound(a, b, g, Abs(a.i - g.i), Abs(a.j - g.j), Abs(b.i - g.i), Abs(b.j - g.j));
  }

  function SquareSum(x: int, y: int): int {
    x * x + y * y
  }

  /** What `math.hypot` computes on cell offsets. */
  ghost predicate IsHypot(norm: (int, int) -> real) {
    forall x, y :: norm(x, y) >= 0.0 && norm(x, y) * norm(x, y) == SquareSum(x, y) as real
  }

  function Sign(x: int): int {
    if x < 0 then -1 else if x > 0 then 1 else 0
  }

  /** The neighbour of `c` that is one king's move nearer to `b`. */
  function Toward(c: Cell, b: Cell): Cell {
    Cell(c.i + Sign(b.i - c.i), c.j + Sign(b.j - c.j))
  }

  lemma TowardCloser(c: Cell, b: Cell)
    requires c != b
    ensures Adjacent(c, Toward(c, b)) && Chebyshev(Toward(c, b), b) == Chebyshev(c, b) - 1
  {
  }

  /** The king's move stays inside any box that holds both cells. */
  lemma TowardIsNeighbor(c: Cell, b: Cell, nx: int, ny: int)
    requires c != b
    ensures Toward(c, b) != c && -1 <= c.i - Toward(c, b).i <= 1 && -1 <= c.j - Toward(c, b).j <= 1
    ensures 0 <= c.i < nx && 0 <= b.i < nx ==> 0 <= Toward(c, b).i < nx
    ensures 0 <= c.j < ny && 0 <= b.j < ny ==> 0 <= Toward(c, b).j < ny
  {
  }

  lemma OctileFormToward(ci: nat, cj: nat, si: nat, sj: nat)
    requires ci + cj > 0
    requires si == (if ci > 0 then ci - 1 else 0) && sj == (if cj > 0 then cj - 1 else 0)
    ensures OctileForm(ci + cj, Min(ci, cj))
         == (if ci > 0 && cj > 0 then SQRT2 else 1.0) + OctileForm(si + sj, Min(si, sj))
  {
  }

  lemma TowardBound(c: Cell, b: Cell, ci: nat, cj: nat, si: nat, sj: nat)
    requires c != b
    requires ci == Abs(c.i - b.i) && cj == Abs(c.j - b.j)
    requires si == Abs(Toward(c, b).i - b.i) && sj == Abs(Toward(c, b).j - b.j)
    ensures OctileForm(ci + cj, Min(ci, cj)) == Base(c, Toward(c, b)) + OctileForm(si + sj, Min(si, sj))
  {
    OctileFormToward(ci, cj, si, sj);
  }

  /** A king's move toward the target loses exactly its length of octile distance. */
  lemma OctileToward(c: Cell, b: Cell)
    requires c != b
    ensures Octile(c, b) == Base(c, Toward(c, b)) + Octile(Toward(c, b), b)
  {
    var s := Toward(c, b);
    OctileUnfolds(c, b);
    OctileUnfolds(s, b);
    TowardBound(c, b, Abs(c.i - b.i), Abs(c.j - b.j), Abs(s.i - b.i), Abs(s.j - b.j));
  }

  lemma {:induction false} OctileAtLeastChebyshev(c: Cell, b: Cell)
    ensures Octile(c, b) >= Chebyshev(c, b) as real
    decreases Chebyshev(c, b)
  {
    if c != b {
      TowardCloser(c, b);
      OctileAtLeastChebyshev(Toward(c, b), b);
      OctileToward(c, b);
    }
  }

  lemma OffsetAdjacent(c: Cell, s: Cell)
    requires -1 <= c.i - s.i <= 1 && -1 <= c.j - s.j <= 1 && c != s
    ensures Adjacent(c, s)
  {
  }

  lemma ChebyshevSelf(c: Cell)
    ensures Chebyshev(c, c) == 0
  {
  }

  lemma ChebyshevZero(a: Cell, b: Cell)
    requires Chebyshev(a, b) == 0
    ensures a == b
  {
  }

  lemma OctileSelf(c: Cell)
    ensures Octile(c, c) == 0.0
  {
  }

  lemma ChebyshevTriangle(a: Cell, b: Cell, c: Cell)
    requires Adjacent(a, b)
    ensures Chebyshev(a, c) <= Chebyshev(b, c) + 1
  {
  }
}
