/**
 Chords between cells of a king's path past a hit, in offsets from the hit: how
 near a straight line over one, two or three moves can come.
 */
module Chords {
  import opened Grid
  import opened Numbers
  import opened Clearance

  /** Squared distance, in cells, of an offset. */
  function Far(c: Cell): int {
    SquareSum(c.i, c.j)
  }

  /** Squared distance of the point a fraction `t` of the way from `a` to `b`. */
  function PointSquare(a: Cell, b: Cell, t: real): real {
    Square(Mix(a.i, b.i, t)) + Square(Mix(a.j, b.j, t))
  }

  function SquareGap(a: Cell, b: Cell): int {
    SquareSum(b.i - a.i, b.j - a.j)
  }

  lemma SquareNonNegative(x: real)
    ensures Square(x) >= 0.0
  {
  }

  lemma Dip(s: real, t: real, dx: real, dy: real)
    requires 0.0 <= t <= 1.0 && s == t * (1.0 - t) && dx >= 0.0 && dy >= 0.0
    ensures s * dx + s * dy <= (dx + dy) / 4.0
  {
    SquareNonNegative(t - 0.5);
    assert s == 0.25 - Square(t - 0.5);
    ProductMono(dx, 0.25, s);
    ProductMono(dy, 0.25, s);
  }

  /** A chord dips at most a quarter of its squared length below its ends. */
  lemma QuarterDip(ux: real, uy: real, vx: real, vy: real, t: real, m: real)
    requires 0.0 <= t <= 1.0 && Square(ux) + Square(uy) >= m && Square(vx) + Square(vy) >= m
    ensures Square(MixAt(ux, vx, t)) + Square(MixAt(uy, vy, t)) >= m - (Square(vx - ux) + Square(vy - uy)) / 4.0
  {
    MixSquare(ux, vx, t);
    MixSquare(uy, vy, t);
    SquareNonNegative(vx - ux);
    SquareNonNegative(vy - uy);
    hide Square;
    WeightedMin(Square(ux) + Square(uy), Square(vx) + Square(vy), t, m);
    Regroup(Square(ux), Square(uy), Square(vx), Square(vy), t);
    Dip(t * (1.0 - t), t, Square(vx - ux), Square(vy - uy));
  }

  lemma RealOffset(a: int, b: int)
    ensures b as real - a as real == (b - a) as real
  {
  }

  lemma FarReal(c: Cell)
    ensures Far(c) as real == Square(c.i as real) + Square(c.j as real)
  {
    SquareSums(c.i, c.j);
  }

  lemma GapReal(a: Cell, b: Cell)
    ensures SquareGap(a, b) as real == Square(b.i as real - a.i as real) + Square(b.j as real - a.j as real)
  {
    hide Square, SquareSum;
    SquareSums(b.i - a.i, b.j - a.j);
    RealOffset(a.i, b.i);
    RealOffset(a.j, b.j);
  }

  /** Between adjacent cells: the planner's own half cell. */
  lemma UnitPoint(a: Cell, b: Cell, t: real, m: int)
    requires 0.0 <= t <= 1.0 && Far(a) >= m && Far(b) >= m && Adjacent(a, b)
    ensures PointSquare(a, b, t) >= m as real - 0.5
  {
    assert -1 <= b.i - a.i <= 1 && -1 <= b.j - a.j <= 1;
    hide Square, SquareSum, Mix, Adjacent;
    SegmentBound(a.i, a.j, b.i, b.j, t, m as real);
  }

  /** Move `s` of a straight diagonal of `n` moves. */
  predicate Diagonal(a: Cell, b: Cell, c: Cell, d: Cell, n: int, s: int) {
    var x, y := d.i - c.i, d.j - c.j;
    && (x == 1 || x == -1) && (y == 1 || y == -1)
    && b.i - a.i == n * x && b.j - a.j == n * y && c.i - a.i == s * x && c.j - a.j == s * y
  }

  lemma DiagonalMix(u: int, x: int, n: int, s: int, t: real)
    requires (x == 1 || x == -1) && (n == 2 || n == 3)
    ensures Mix(u, u + n * x, t) == Mix(u + s * x, u + s * x + x, n as real * t - s as real)
  {
  }

  /** On a straight diagonal the chord runs through the cells of the path. */
  lemma DiagonalPoint(a: Cell, b: Cell, c: Cell, d: Cell, n: int, s: int, t: real, m: int)
    requires (n == 2 || n == 3) && Diagonal(a, b, c, d, n, s) && Far(c) >= m && Far(d) >= m
    requires 0.0 <= n as real * t - s as real <= 1.0
    ensures PointSquare(a, b, t) >= m as real - 0.5
  {
    hide Mix, Square, SquareSum;
    DiagonalMix(a.i, d.i - c.i, n, s, t);
    DiagonalMix(a.j, d.j - c.j, n, s, t);
    UnitPoint(c, d, n as real * t - s as real, m);
  }

  // ── two moves ──

  lemma SmallSquare(x: int, k: int)
    requires -k <= x <= k
    ensures x * x <= k * k
  {
    if x >= 0 { assert x * x <= k * x <= k * k; } else { assert x * x == (-x) * (-x) <= k * (-x) <= k * k; }
  }

  lemma ShortGap2(a: Cell, m: Cell, b: Cell)
    requires Adjacent(a, m) && Adjacent(m, b) && (Abs(b.i - a.i) != 2 || Abs(b.j - a.j) != 2)
    ensures SquareGap(a, b) <= 5
  {
    SmallSquare(b.i - a.i, 2);
    SmallSquare(b.j - a.j, 2);
    if Abs(b.i - a.i) != 2 { SmallSquare(b.i - a.i, 1); } else { SmallSquare(b.j - a.j, 1); }
  }

  /** Two moves lose at most five quarters of a square cell. */
  lemma TwoMoves(a: Cell, c: Cell, b: Cell, t: real, m: int)
    requires Adjacent(a, c) && Adjacent(c, b) && 0.0 <= t <= 1.0 && Far(a) >= m && Far(c) >= m && Far(b) >= m
    ensures PointSquare(a, b, t) >= m as real - 1.25
  {
    if Abs(b.i - a.i) == 2 && Abs(b.j - a.j) == 2 {
      assert Diagonal(a, b, a, c, 2, 0) && Diagonal(a, b, c, b, 2, 1);
      hide PointSquare, Far, Diagonal, Adjacent;
      if t <= 0.5 { DiagonalPoint(a, b, a, c, 2, 0, t, m); } else { DiagonalPoint(a, b, c, b, 2, 1, t, m); }
    } else {
      ShortGap2(a, c, b);
      hide Square, SquareSum, Mix, Far, SquareGap, Adjacent;
      FarReal(a);
      FarReal(b);
      GapReal(a, b);
      QuarterDip(a.i as real, a.j as real, b.i as real, b.j as real, t, m as real);
    }
  }

  lemma SquareIs(x: int)
    requires -3 <= x <= 3
    ensures x * x == if x == 0 then 0 else if Abs(x) == 1 then 1 else if Abs(x) == 2 then 4 else 9
  {
    if x == -3 {} else if x == -2 {} else if x == -1 {} else if x == 0 {} else if x == 1 {} else if x == 2 {} else {}
  }

  lemma FarSquare(x: int, k: nat)
    requires x >= k || -x >= k
    ensures x * x >= k * k
  {
    if x >= k { assert x * x >= k * x >= k * k; } else { assert x * x == (-x) * (-x) >= k * (-x) >= k * k; }
  }

  lemma NotSquareSum(x: int, y: int)
    ensures SquareSum(x, y) != 6 && SquareSum(x, y) != 7
  {
    if x >= 3 || x <= -3 {
      FarSquare(x, 3);
      FarSquare(y, 0);
    } else if y >= 3 || y <= -3 {
      FarSquare(y, 3);
      FarSquare(x, 0);
    } else {
      SquareIs(x);
      SquareIs(y);
    }
  }

  // ── three moves: both ends lie beyond one line ──

  /** How far a cell lies along `(p, q)`. */
  function Onto(c: Cell, p: int, q: int): int {
    p * c.i + q * c.j
  }

  /** Both cells lie at least `k` along `(p, q)`. */
  predicate Beside(a: Cell, b: Cell, p: int, q: int, k: int) {
    Onto(a, p, q) >= k && Onto(b, p, q) >= k
  }

  predicate Across(a: Cell, b: Cell, k: int) {
    Beside(a, b, 1, 0, k) || Beside(a, b, -1, 0, k) || Beside(a, b, 0, 1, k) || Beside(a, b, 0, -1, k)
  }

  predicate Slanted(a: Cell, b: Cell, k: int) {
    Beside(a, b, 1, 1, k) || Beside(a, b, 1, -1, k) || Beside(a, b, -1, 1, k) || Beside(a, b, -1, -1, k)
  }

  predicate Steep(a: Cell, b: Cell, k: int) {
    || Beside(a, b, 1, 3, k) || Beside(a, b, 1, -3, k) || Beside(a, b, -1, 3, k) || Beside(a, b, -1, -3, k)
    || Beside(a, b, 3, 1, k) || Beside(a, b, 3, -1, k) || Beside(a, b, -3, 1, k) || Beside(a, b, -3, -1, k)
  }

  /** Not one of the offsets nearer than `m` square cells, for two, four and five. */
  predicate Outside(m: int, c: Cell) {
    if m == 2 then Abs(c.i) + Abs(c.j) >= 2
    else if m == 4 then Abs(c.i) >= 2 || Abs(c.j) >= 2
    else Abs(c.i) + Abs(c.j) >= 3
  }

  /** Beyond one of the lines that keep off the ring. */
  predicate Aside(m: int, a: Cell, b: Cell) {
    if m == 2 then Across(a, b, 1) || Steep(a, b, 2)
    else if m == 4 then Across(a, b, 2) || Slanted(a, b, 2) || Steep(a, b, 5)
    else Across(a, b, 2) || Slanted(a, b, 3) || Steep(a, b, 5)
  }

  /** Three moves of the path. */
  predicate Chain(m: int, a: Cell, c: Cell, d: Cell, b: Cell) {
    && Adjacent(a, c) && Adjacent(c, d) && Adjacent(d, b)
    && Outside(m, a) && Outside(m, c) && Outside(m, d) && Outside(m, b)
  }

  lemma Sides2(a: Cell, c: Cell, d: Cell, b: Cell)
    requires Chain(2, a, c, d, b) && 0 <= a.j <= a.i
    ensures Aside(2, a, b)
  {
  }

  lemma Around4(a: Cell, c: Cell, d: Cell, b: Cell)
    requires Chain(4, a, c, d, b) && 0 <= a.j <= a.i && b.i <= 1
    ensures Aside(4, a, b)
  {
  }

  lemma Sides4(a: Cell, c: Cell, d: Cell, b: Cell)
    requires Chain(4, a, c, d, b) && 0 <= a.j <= a.i
    ensures Aside(4, a, b)
  {
    if b.i >= 2 {
      assert Beside(a, b, 1, 0, 2);
    } else {
      hide Aside;
      Around4(a, c, d, b);
    }
  }

  lemma Around5(a: Cell, c: Cell, d: Cell, b: Cell)
    requires Chain(5, a, c, d, b) && 0 <= a.j <= a.i && b.i <= 1
    ensures Aside(5, a, b)
  {
  }

  lemma Sides5(a: Cell, c: Cell, d: Cell, b: Cell)
    requires Chain(5, a, c, d, b) && 0 <= a.j <= a.i
    ensures Aside(5, a, b)
  {
    if b.i >= 2 {
      assert Beside(a, b, 1, 0, 2);
    } else {
      hide Aside;
      Around5(a, c, d, b);
    }
  }

  function Flip(c: Cell): Cell {
    Cell(-c.i, c.j)
  }

  function Swap(c: Cell): Cell {
    Cell(c.j, c.i)
  }

  lemma FlipCell(m: int, a: Cell, b: Cell)
    ensures Outside(m, Flip(a)) == Outside(m, Swap(a)) == Outside(m, a)
    ensures Adjacent(a, b) ==> Adjacent(Flip(a), Flip(b)) && Adjacent(Swap(a), Swap(b))
  {
  }

  lemma FlipChain(m: int, a: Cell, c: Cell, d: Cell, b: Cell)
    requires Chain(m, a, c, d, b)
    ensures Chain(m, Flip(a), Flip(c), Flip(d), Flip(b)) && Chain(m, Swap(a), Swap(c), Swap(d), Swap(b))
  {
    hide Outside, Adjacent, Flip, Swap;
    FlipCell(m, a, c);
    FlipCell(m, c, d);
    FlipCell(m, d, b);
    FlipCell(m, b, b);
  }

  lemma FlipOnto(c: Cell, p: int, q: int)
    ensures Onto(Flip(c), p, q) == Onto(c, -p, q) && Onto(Swap(c), p, q) == Onto(c, q, p)
  {
  }

  lemma FlipAside(m: int, a: Cell, b: Cell)
    ensures Aside(m, Flip(a), Flip(b)) || Aside(m, Swap(a), Swap(b)) ==> Aside(m, a, b)
  {
    forall p, q, k
      ensures Beside(Flip(a), Flip(b), p, q, k) == Beside(a, b, -p, q, k)
      ensures Beside(Swap(a), Swap(b), p, q, k) == Beside(a, b, q, p, k)
    {
      hide Onto, Flip, Swap;
      FlipOnto(a, p, q);
      FlipOnto(b, p, q);
    }
    hide Beside, Flip, Swap;
  }

  function Negative(x: int): nat {
    if x < 0 then 1 else 0
  }

  /** Both ends of three moves around the ring lie beyond one line: by symmetry, from the first octant. */
  lemma {:induction false} Sides(m: int, a: Cell, c: Cell, d: Cell, b: Cell)
    requires Chain(m, a, c, d, b) && (m == 2 || m == 4 || m == 5)
    ensures Aside(m, a, b)
    decreases Negative(a.i) + Negative(a.j), a.i >= 0, a.i < a.j
  {
    hide Chain, Aside;
    FlipChain(m, a, c, d, b);
    FlipAside(m, a, b);
    if a.i < 0 {
      Sides(m, Flip(a), Flip(c), Flip(d), Flip(b));
    } else if a.j < 0 || a.i < a.j {
      Sides(m, Swap(a), Swap(c), Swap(d), Swap(b));
    } else if m == 2 {
      Sides2(a, c, d, b);
    } else if m == 4 {
      Sides4(a, c, d, b);
    } else {
      Sides5(a, c, d, b);
    }
  }

  lemma Mixed(a: Cell, b: Cell, p: int, q: int, k: int, t: real)
    requires Beside(a, b, p, q, k) && 0.0 <= t <= 1.0
    ensures p as real * Mix(a.i, b.i, t) + q as real * Mix(a.j, b.j, t) >= k as real
  {
    var u, v := Onto(a, p, q), Onto(b, p, q);
    assert p as real * Mix(a.i, b.i, t) + q as real * Mix(a.j, b.j, t) == (1.0 - t) * u as real + t * v as real;
    WeightedMin(u as real, v as real, t, k as real);
  }

  lemma FourProducts(a: real, b: real, c: real, d: real)
    ensures (a + b) * (c + d) == c * a + c * b + d * a + d * b
  {
  }

  lemma FourSquares(a: real, b: real, c: real, d: real)
    requires a * d == b * c
    ensures Square(b - c) + Square(a + d) == Square(a) + Square(b) + Square(c) + Square(d)
  {
    assert Square(b - c) == Square(b) + Square(c) - 2.0 * (b * c);
    assert Square(a + d) == Square(a) + Square(d) + 2.0 * (a * d);
  }

  lemma CrossProducts(px: real, py: real, dx: real, dy: real)
    ensures (px * dx) * (py * dy) == (px * dy) * (py * dx)
  {
  }

  /** Squared length times squared distance: the cross product, and how far along. */
  lemma Lagrange(px: real, py: real, dx: real, dy: real)
    ensures (Square(dx) + Square(dy)) * (Square(px) + Square(py)) == Square(px * dy - py * dx) + Square(px * dx + py * dy)
  {
    hide Square;
    CrossProducts(px, py, dx, dy);
    FourSquares(px * dx, px * dy, py * dx, py * dy);
    SquareOfProduct(px, dx);
    SquareOfProduct(px, dy);
    SquareOfProduct(py, dx);
    SquareOfProduct(py, dy);
    FourProducts(Square(dx), Square(dy), Square(px), Square(py));
  }

  /** Along `(p, q)` at least `k` is that far from the origin. */
  lemma Reach(p: real, q: real, x: real, y: real, k: real)
    requires p * x + q * y >= k >= 0.0
    ensures (Square(p) + Square(q)) * (Square(x) + Square(y)) >= Square(k)
  {
    Lagrange(x, y, p, q);
    SquareNonNegative(x * q - y * p);
    ProductLower(p * x + q * y, p * x + q * y, k, k);
  }

  lemma BesidePoint(a: Cell, b: Cell, p: int, q: int, k: int, t: real)
    requires Beside(a, b, p, q, k) && k >= 0 && 0.0 <= t <= 1.0
    ensures (Square(p as real) + Square(q as real)) * PointSquare(a, b, t) >= Square(k as real)
  {
    Mixed(a, b, p, q, k, t);
    hide Square, Mix;
    Reach(p as real, q as real, Mix(a.i, b.i, t), Mix(a.j, b.j, t), k as real);
  }

  lemma AcrossPoint(a: Cell, b: Cell, k: nat, t: real)
    requires Across(a, b, k) && 0.0 <= t <= 1.0
    ensures PointSquare(a, b, t) >= Square(k as real)
  {
    hide PointSquare, Beside;
    if Beside(a, b, 1, 0, k) {
      BesidePoint(a, b, 1, 0, k, t);
    } else if Beside(a, b, -1, 0, k) {
      BesidePoint(a, b, -1, 0, k, t);
    } else if Beside(a, b, 0, 1, k) {
      BesidePoint(a, b, 0, 1, k, t);
    } else {
      BesidePoint(a, b, 0, -1, k, t);
    }
  }

  lemma SlantedPoint(a: Cell, b: Cell, k: nat, t: real)
    requires Slanted(a, b, k) && 0.0 <= t <= 1.0
    ensures 2.0 * PointSquare(a, b, t) >= Square(k as real)
  {
    hide PointSquare, Beside;
    if Beside(a, b, 1, 1, k) {
      BesidePoint(a, b, 1, 1, k, t);
    } else if Beside(a, b, 1, -1, k) {
      BesidePoint(a, b, 1, -1, k, t);
    } else if Beside(a, b, -1, 1, k) {
      BesidePoint(a, b, -1, 1, k, t);
    } else {
      BesidePoint(a, b, -1, -1, k, t);
    }
  }

  lemma SteepPoint(a: Cell, b: Cell, k: nat, t: real)
    requires Steep(a, b, k) && 0.0 <= t <= 1.0
    ensures 10.0 * PointSquare(a, b, t) >= Square(k as real)
  {
    hide PointSquare, Beside;
    if Beside(a, b, 1, 3, k) {
      BesidePoint(a, b, 1, 3, k, t);
    } else if Beside(a, b, 1, -3, k) {
      BesidePoint(a, b, 1, -3, k, t);
    } else if Beside(a, b, -1, 3, k) {
      BesidePoint(a, b, -1, 3, k, t);
    } else if Beside(a, b, -1, -3, k) {
      BesidePoint(a, b, -1, -3, k, t);
    } else if Beside(a, b, 3, 1, k) {
      BesidePoint(a, b, 3, 1, k, t);
    } else if Beside(a, b, 3, -1, k) {
      BesidePoint(a, b, 3, -1, k, t);
    } else if Beside(a, b, -3, 1, k) {
      BesidePoint(a, b, -3, 1, k, t);
    } else {
      BesidePoint(a, b, -3, -1, k, t);
    }
  }

  /** A segment beyond such a line keeps off the hit. */
  lemma AsidePoint(m: int, a: Cell, b: Cell, t: real)
    requires Aside(m, a, b) && (m == 2 || m == 4 || m == 5) && 0.0 <= t <= 1.0
    ensures PointSquare(a, b, t) >= if m == 2 then 0.4 else if m == 4 then 2.0 else 2.5
  {
    hide PointSquare, Beside;
    if m == 2 {
      if Across(a, b, 1) { AcrossPoint(a, b, 1, t); } else { SteepPoint(a, b, 2, t); }
    } else if Across(a, b, 2) {
      AcrossPoint(a, b, 2, t);
    } else if Steep(a, b, 5) {
      SteepPoint(a, b, 5, t);
    } else {
      SlantedPoint(a, b, if m == 4 then 2 else 3, t);
    }
  }

  /** What three moves leave of `m` square cells: three, six and seven are not sums of two squares. */
  function Left3(m: int): real {
    if m >= 8 then m as real - 3.25
    else if m >= 6 then 4.75
    else if m == 5 then 2.5
    else if m >= 3 then 1.75
    else if m == 2 then 0.4
    else 0.0
  }

  lemma FarOutside(m: int, c: Cell)
    requires Far(c) >= m
    ensures m >= 2 ==> Outside(2, c)
    ensures m >= 3 ==> Outside(4, c)
    ensures m >= 5 ==> Outside(5, c)
  {
    if -2 <= c.i <= 2 && -2 <= c.j <= 2 {
      SquareIs(c.i);
      SquareIs(c.j);
    }
  }

  lemma PointNonNegative(a: Cell, b: Cell, t: real)
    ensures PointSquare(a, b, t) >= 0.0
  {
    SquareNonNegative(Mix(a.i, b.i, t));
    SquareNonNegative(Mix(a.j, b.j, t));
  }

  /** Near a hit the ends lie beyond a line. */
  lemma ThreeNear(a: Cell, c: Cell, d: Cell, b: Cell, t: real, m: int)
    requires Adjacent(a, c) && Adjacent(c, d) && Adjacent(d, b) && 0.0 <= t <= 1.0
    requires m <= 5 && Far(a) >= m && Far(c) >= m && Far(d) >= m && Far(b) >= m
    ensures PointSquare(a, b, t) >= Left3(m)
  {
    FarOutside(m, a);
    FarOutside(m, c);
    FarOutside(m, d);
    FarOutside(m, b);
    hide PointSquare, Far, Aside, Adjacent, Outside;
    if m <= 1 {
      PointNonNegative(a, b, t);
    } else {
      var ring := if m == 3 then 4 else m;
      Sides(ring, a, c, d, b);
      AsidePoint(ring, a, b, t);
    }
  }

  /** Three moves that are not one diagonal go at most three across and two up. */
  lemma GapOf3(a: Cell, m: Cell, n: Cell, b: Cell)
    requires Adjacent(a, m) && Adjacent(m, n) && Adjacent(n, b) && (Abs(b.i - a.i) != 3 || Abs(b.j - a.j) != 3)
    ensures SquareGap(a, b) <= 13
  {
    SquareIs(b.i - a.i);
    SquareIs(b.j - a.j);
  }

  /** Farther out the chord dips at most a quarter of thirteen. */
  lemma ThreeFar(a: Cell, c: Cell, d: Cell, b: Cell, t: real, m: int)
    requires Adjacent(a, c) && Adjacent(c, d) && Adjacent(d, b) && 0.0 <= t <= 1.0
    requires m >= 8 && Far(a) >= m && Far(c) >= m && Far(d) >= m && Far(b) >= m
    ensures PointSquare(a, b, t) >= m as real - 3.25
  {
    if Abs(b.i - a.i) == 3 && Abs(b.j - a.j) == 3 {
      assert Diagonal(a, b, a, c, 3, 0) && Diagonal(a, b, c, d, 3, 1) && Diagonal(a, b, d, b, 3, 2);
      hide PointSquare, Far, Diagonal, Adjacent;
      if 3.0 * t <= 1.0 { DiagonalPoint(a, b, a, c, 3, 0, t, m); }
      else if 3.0 * t <= 2.0 { DiagonalPoint(a, b, c, d, 3, 1, t, m); }
      else { DiagonalPoint(a, b, d, b, 3, 2, t, m); }
    } else {
      GapOf3(a, c, d, b);
      hide Square, SquareSum, Mix, Far, SquareGap, Adjacent;
      FarReal(a);
      FarReal(b);
      GapReal(a, b);
      QuarterDip(a.i as real, a.j as real, b.i as real, b.j as real, t, m as real);
    }
  }

  lemma FarEight(c: Cell, m: int)
    requires 6 <= m && Far(c) >= m
    ensures Far(c) >= Max(m, 8)
  {
    NotSquareSum(c.i, c.j);
    hide SquareSum;
  }

  /** Three moves past a hit. */
  lemma ThreeMoves(a: Cell, c: Cell, d: Cell, b: Cell, t: real, m: int)
    requires Adjacent(a, c) && Adjacent(c, d) && Adjacent(d, b) && 0.0 <= t <= 1.0
    requires Far(a) >= m && Far(c) >= m && Far(d) >= m && Far(b) >= m
    ensures PointSquare(a, b, t) >= Left3(m)
  {
    hide PointSquare, Far, Adjacent;
    if m <= 5 {
      ThreeNear(a, c, d, b, t, m);
    } else {
      FarEight(a, m);
      FarEight(c, m);
      FarEight(d, m);
      FarEight(b, m);
      ThreeFar(a, c, d, b, t, Max(m, 8));
    }
  }
}
