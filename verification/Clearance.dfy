/**
 Why the padded lethal radius makes a cell path drivable: the robot is
 continuous, the path only visits cell centres.
 */
module Clearance {
  import opened Grid
  import opened Rasters
  import opened LocalCostmap
  import opened Numbers

  /** The point a fraction `t` of the way from `a` to `b`. */
  function Along(a: Point, b: Point, t: real): Point {
    Point(a.x + t * (b.x - a.x), a.y + t * (b.y - a.y))
  }

  function Distance2(a: Point, b: Point): real {
    Square(a.x - b.x) + Square(a.y - b.y)
  }

  // ── on cell offsets ──

  function MixAt(u: real, v: real, t: real): real {
    u + t * (v - u)
  }

  /** Coordinate `(1 - t) u + t v`. */
  function Mix(u: int, v: int, t: real): real {
    MixAt(u as real, v as real, t)
  }

  lemma MixSquare(u: real, v: real, t: real)
    ensures Square(u + t * (v - u)) == (1.0 - t) * Square(u) + t * Square(v) - t * (1.0 - t) * Square(v - u)
  {
  }

  lemma ProductLower(x: real, y: real, a: real, b: real)
    requires x >= a >= 0.0 && y >= b >= 0.0
    ensures x * y >= a * b
  {
    assert x * y >= a * y;
    assert a * y >= a * b;
  }

  lemma QuarterBound(t: real, d: real)
    requires 0.0 <= t <= 1.0 && 0.0 <= d <= 1.0
    ensures t * (1.0 - t) * d <= 0.25
  {
    var x := t * (1.0 - t);
    assert x == 0.25 - Square(t - 0.5) <= 0.25;
    ProductLower(t, 1.0 - t, 0.0, 0.0);
    assert x * d <= 0.25 by {
      ProductLower(0.25, 1.0, x, d);
    }
  }

  lemma UnitSquare(u: int, v: int)
    requires -1 <= v - u <= 1
    ensures 0.0 <= Square(v as real - u as real) <= 1.0
  {
    var w := v - u;
    assert v as real - u as real == w as real;
    assert w == -1 || w == 0 || w == 1;
  }

  /** One coordinate of the mixed point loses at most a quarter of a cell against the mixed squares. */
  lemma MixBound(u: int, v: int, t: real)
    requires -1 <= v - u <= 1 && 0.0 <= t <= 1.0
    ensures Square(Mix(u, v, t)) >= (1.0 - t) * Square(u as real) + t * Square(v as real) - 0.25
  {
    MixSquare(u as real, v as real, t);
    UnitSquare(u, v);
    QuarterBound(t, Square(v as real - u as real));
  }

  lemma WeightedMin(a: real, b: real, t: real, m: real)
    requires 0.0 <= t <= 1.0 && a >= m && b >= m
    ensures (1.0 - t) * a + t * b >= m
  {
    assert (1.0 - t) * (a - m) >= 0.0;
    assert t * (b - m) >= 0.0;
  }

  lemma SquareSums(x: int, y: int)
    ensures Square(x as real) + Square(y as real) == SquareSum(x, y) as real
  {
  }

  lemma Regroup(a: real, b: real, c: real, d: real, t: real)
    ensures (1.0 - t) * a + t * c + ((1.0 - t) * b + t * d) == (1.0 - t) * (a + b) + t * (c + d)
  {
  }

  /** Between two adjacent offsets no point is nearer the origin than both, by more than half a square cell. */
  lemma SegmentBound(ux: int, uy: int, vx: int, vy: int, t: real, m: real)
    requires -1 <= vx - ux <= 1 && -1 <= vy - uy <= 1 && 0.0 <= t <= 1.0
    requires SquareSum(ux, uy) as real >= m && SquareSum(vx, vy) as real >= m
    ensures Square(Mix(ux, vx, t)) + Square(Mix(uy, vy, t)) >= m - 0.5
  {
    hide Square, Mix, SquareSum;
    MixBound(ux, vx, t);
    MixBound(uy, vy, t);
    var a, b := Square(ux as real) + Square(uy as real), Square(vx as real) + Square(vy as real);
    SquareSums(ux, uy);
    SquareSums(vx, vy);
    WeightedMin(a, b, t, m);
    Regroup(Square(ux as real), Square(uy as real), Square(vx as real), Square(vy as real), t);
  }

  // ── the pad ──

  const PAD: real := 1.0 / SQRT2

  lemma PadValue()
    ensures 0.70710678118654746 <= PAD <= 0.7071067811865476
  {
  }

  lemma SquareLower(x: real, lo: real)
    requires x >= lo >= 0.0
    ensures x * x >= lo * lo
  {
    ProductLower(x, x, lo, lo);
  }

  /** A whole number of square cells that clears the padded radius clears the footprint by half a square cell. */
  lemma PadSuffices(phi: real, m: int)
    requires phi >= 0.0 && m as real >= Square(phi + PAD)
    ensures m as real - 0.5 >= Square(phi)
  {
    PadValue();
    var k := PAD;
    assert Square(phi + k) == Square(phi) + 2.0 * phi * k + k * k;
    assert k * k >= 0.4999999999999999 by { SquareLower(k, 0.70710678118654746); }
    if phi >= 0.000000000000001 {
      assert 2.0 * phi * k >= 2.0 * 0.000000000000001 * 0.7 by { ProductLower(phi, k, 0.000000000000001, 0.7); }
    } else {
      assert phi * k >= 0.0;
      assert m >= 1;
      ProductLower(0.000000000000001, 0.000000000000001, phi, phi);
    }
  }

  // ── in metres ──

  lemma SquareOfProduct(x: real, y: real)
    ensures Square(x * y) == Square(x) * Square(y)
  {
  }

  lemma ScaledSquare(x: real, res: real, mix: real)
    requires x == res * mix
    ensures Square(x) == Square(res) * Square(mix)
  {
    SquareOfProduct(res, mix);
  }

  lemma Distribute(x: real, y: real, z: real)
    ensures x * (y + z) == x * y + x * z
  {
  }

  lemma Reorder(x: real, y: real, z: real)
    ensures x * (y * z) == y * (x * z)
  {
  }

  lemma ScaledMix(origin: real, res: real, a: real, b: real, o: real, t: real)
    ensures var x, y := origin + (a + 0.5) * res, origin + (b + 0.5) * res;
            x + t * (y - x) - (origin + (o + 0.5) * res) == res * MixAt(a - o, b - o, t)
  {
    Distribute(res, a - o, t * (b - a));
    Distribute(res, a + 0.5, -(o + 0.5));
    Distribute(res, b + 0.5, -(a + 0.5));
    Reorder(t, res, b - a);
    assert (b - o) - (a - o) == b - a;
    assert (b + 0.5) * res - (a + 0.5) * res == res * (b - a);
  }

  lemma ScaledCoordinate(origin: real, res: real, a: int, b: int, o: int, t: real)
    ensures var x, y := origin + (a as real + 0.5) * res, origin + (b as real + 0.5) * res;
            x + t * (y - x) - (origin + (o as real + 0.5) * res) == res * Mix(a - o, b - o, t)
  {
    hide MixAt;
    ScaledMix(origin, res, a as real, b as real, o as real, t);
    assert (a - o) as real == a as real - o as real && (b - o) as real == b as real - o as real;
  }

  /** The point's offset from a cell centre is the mixed cell offset, scaled. */
  lemma ScaledOffsets(f: Frame, a: Cell, b: Cell, o: Cell, t: real)
    ensures Along(Centre(f, a), Centre(f, b), t).x - Centre(f, o).x == f.res * Mix(a.i - o.i, b.i - o.i, t)
    ensures Along(Centre(f, a), Centre(f, b), t).y - Centre(f, o).y == f.res * Mix(a.j - o.j, b.j - o.j, t)
  {
    hide Mix;
    ScaledCoordinate(f.ox, f.res, a.i, b.i, o.i, t);
    ScaledCoordinate(f.oy, f.res, a.j, b.j, o.j, t);
  }

  lemma ScaledPoint(f: Frame, a: Cell, b: Cell, o: Cell, t: real)
    ensures Distance2(Along(Centre(f, a), Centre(f, b), t), Centre(f, o))
         == Square(f.res) * (Square(Mix(a.i - o.i, b.i - o.i, t)) + Square(Mix(a.j - o.j, b.j - o.j, t)))
  {
    hide Mix, Square, Along, Centre;
    ScaledOffsets(f, a, b, o, t);
    var at, hit := Along(Centre(f, a), Centre(f, b), t), Centre(f, o);
    ScaledSquare(at.x - hit.x, f.res, Mix(a.i - o.i, b.i - o.i, t));
    ScaledSquare(at.y - hit.y, f.res, Mix(a.j - o.j, b.j - o.j, t));
    var p, q := Square(Mix(a.i - o.i, b.i - o.i, t)), Square(Mix(a.j - o.j, b.j - o.j, t));
    Distribute(Square(f.res), p, q);
  }

  lemma QuotientSwap(res: real, s: real)
    requires res > 0.0 && s > 0.0
    ensures (res / s) / res == 1.0 / s
  {
    assert ((res / s) / res) * s == 1.0;
  }

  /** The padded radius in cells is the footprint in cells plus the pad. */
  lemma RadiusInCells(cfg: Config, res: real)
    requires res > 0.0 && cfg.quantizationPad
    ensures LethalRadius(cfg, res) / res == cfg.footprint / res + PAD
  {
    var s := SQRT2;
    assert (cfg.footprint + res / s) / res == cfg.footprint / res + (res / s) / res;
    QuotientSwap(res, s);
  }

  /** A non-lethal centre is at least the lethal radius from every blocked centre, in square cells. */
  lemma CentreClear(norm: (int, int) -> real, blocked: Raster<bool>, radius: real, c: Cell, o: Cell)
    requires IsHypot(norm) && radius >= 0.0 && !LethalAt(norm, blocked, radius, c) && SetAt(blocked, o)
    ensures SquareSum(c.i - o.i, c.j - o.j) as real >= Square(radius)
  {
    assert !Within(norm, radius, o, c);
    SquareLower(norm(c.i - o.i, c.j - o.j), radius);
  }

  lemma ProductMono(r: real, x: real, y: real)
    requires r >= 0.0 && x >= y
    ensures r * x >= r * y
  {
    assert r * (x - y) >= 0.0;
  }

  lemma ScaleBack(res: real, phi: real, footprint: real, x: real)
    requires res > 0.0 && phi == footprint / res && x >= Square(phi)
    ensures Square(res) * x >= Square(footprint)
  {
    assert footprint == res * phi;
    SquareOfProduct(res, phi);
    assert Square(res) >= 0.0;
    ProductMono(Square(res), x, Square(phi));
  }

  /** Every non-lethal centre is outside the lethal disk, in cells, of every hit. */
  lemma HitApart(hypot: (real, real) -> real, grid: Raster<int>, f: Frame, cfg: Config, lethal: Raster<bool>, c: Cell, o: Cell)
    requires f.res > 0.0 && CoversHits(hypot, grid, f, cfg, lethal) && !cfg.denoise
    requires grid.Has(c) && !lethal.Get(c) && grid.Has(o) && grid.Get(o) == 0
    ensures var blocked := Blocked(hypot, grid, f, cfg);
      SetAt(blocked, o) && !LethalAt(CellNorm(hypot), blocked, LethalRadius(cfg, f.res) / f.res, c)
  {
    hide LethalAt, LethalRadius;
  }

  /** Two adjacent offsets outside the padded radius keep the segment between them outside the bare one. */
  lemma SegmentOffsets(phi: real, ux: int, uy: int, vx: int, vy: int, t: real)
    requires phi >= 0.0 && -1 <= vx - ux <= 1 && -1 <= vy - uy <= 1 && 0.0 <= t <= 1.0
    requires SquareSum(ux, uy) as real >= Square(phi + PAD) && SquareSum(vx, vy) as real >= Square(phi + PAD)
    ensures Square(Mix(ux, vx, t)) + Square(Mix(uy, vy, t)) >= Square(phi)
  {
    hide Square, SquareSum, Mix;
    var m := Min(SquareSum(ux, uy), SquareSum(vx, vy));
    PadSuffices(phi, m);
    SegmentBound(ux, uy, vx, vy, t, m as real);
  }

  /**
   The planner's clearance invariant: with the quantization pad on and the
   denoiser off, no point of the segment between two adjacent non-lethal cell
   centres is nearer a hit's centre than the footprint radius. Diagonals that cut
   a corner are included, and so are costmaps with more cells closed off.
   */
  lemma SegmentClear(hypot: (real, real) -> real, grid: Raster<int>, f: Frame, cfg: Config, lethal: Raster<bool>,
                     a: Cell, b: Cell, o: Cell, t: real)
    requires IsMetricHypot(hypot) && f.res > 0.0 && CoversHits(hypot, grid, f, cfg, lethal)
    requires cfg.quantizationPad && !cfg.denoise && cfg.footprint >= 0.0
    requires grid.Has(a) && !lethal.Get(a) && grid.Has(b) && !lethal.Get(b)
    requires -1 <= b.i - a.i <= 1 && -1 <= b.j - a.j <= 1
    requires grid.Has(o) && grid.Get(o) == 0 && 0.0 <= t <= 1.0
    ensures Distance2(Along(Centre(f, a), Centre(f, b), t), Centre(f, o)) >= Square(cfg.footprint)
  {
    hide Square, SquareSum, IsMetricHypot, CoversHits, Distance2, Along, Centre, Mix, IsHypot, LethalRadius, LethalAt, Blocked;
    var phi, norm, blocked := cfg.footprint / f.res, CellNorm(hypot), Blocked(hypot, grid, f, cfg);
    CellNormIsHypot(hypot);
    RadiusInCells(cfg, f.res);
    PadValue();
    HitApart(hypot, grid, f, cfg, lethal, a, o);
    HitApart(hypot, grid, f, cfg, lethal, b, o);
    CentreClear(norm, blocked, phi + PAD, a, o);
    CentreClear(norm, blocked, phi + PAD, b, o);
    SegmentOffsets(phi, a.i - o.i, a.j - o.j, b.i - o.i, b.j - o.j, t);
    ScaledPoint(f, a, b, o, t);
    ScaleBack(f.res, phi, cfg.footprint, Square(Mix(a.i - o.i, b.i - o.i, t)) + Square(Mix(a.j - o.j, b.j - o.j, t)));
  }
}
