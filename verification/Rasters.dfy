/** The whole-array helpers of body/lib/local_costmap.py: shifts and dilations. */
module Rasters {
  import opened Grid
  import opened Numbers

  /** `_shift`: copy the overlapping slice, fill the rest. Slice bounds as in the source. */
  function Shift<T>(arr: Raster<T>, di: int, dj: int, fill: T): Raster<T> {
    var h, w := arr.nx, arr.ny;
    var si0, si1 := Max(0, -di), Min(h, h - di);
    var sj0, sj1 := Max(0, -dj), Min(w, w - dj);
    var di0, di1 := Max(0, di), Min(h, h + di);
    var dj0, dj1 := Max(0, dj), Min(w, w + dj);
    Raster(h, w, (i: int, j: int) =>
      if si1 > si0 && sj1 > sj0 && di0 <= i < di1 && dj0 <= j < dj1
      then arr.at(si0 + (i - di0), sj0 + (j - dj0)) else fill)
  }

  /** Shifting moves every cell by the offset; what comes from outside is the fill. */
  lemma ShiftMoves<T>(arr: Raster<T>, di: int, dj: int, fill: T, c: Cell)
    requires arr.Has(c)
    ensures Shift(arr, di, dj, fill).nx == arr.nx && Shift(arr, di, dj, fill).ny == arr.ny
    ensures var src := Cell(c.i - di, c.j - dj);
            Shift(arr, di, dj, fill).Get(c) == if arr.Has(src) then arr.Get(src) else fill
  {
  }

  function Or(a: Raster<bool>, b: Raster<bool>): Raster<bool> {
    Raster(a.nx, a.ny, (i: int, j: int) => a.at(i, j) || b.at(i, j))
  }

  predicate SameShape<S, T>(a: Raster<S>, b: Raster<T>) {
    a.nx == b.nx && a.ny == b.ny
  }

  // ── dilate_disk ──

  /** A norm is at least each coordinate it measures. */
  ghost predicate Dominates(norm: (int, int) -> real) {
    forall x, y :: -norm(x, y) <= x as real <= norm(x, y) && -norm(x, y) <= y as real <= norm(x, y)
  }

  lemma SquareBound(a: real, n: real, rest: real)
    requires n >= 0.0 && rest >= 0.0 && a * a + rest == n * n
    ensures -n <= a <= n
  {
    if a > n { StrictSquare(n, a); }
    if a < -n { StrictSquare(n, -a); }
  }

  lemma HypotDominates(norm: (int, int) -> real)
    requires IsHypot(norm)
    ensures Dominates(norm)
  {
    forall x, y ensures -norm(x, y) <= x as real <= norm(x, y) && -norm(x, y) <= y as real <= norm(x, y) {
      SquareBound(x as real, norm(x, y), (y * y) as real);
      SquareBound(y as real, norm(x, y), (x * x) as real);
    }
  }

  /** The cell that an offset away from `c` came from. */
  function Source(c: Cell, d: (int, int)): Cell {
    Cell(c.i - d.0, c.j - d.1)
  }

  predicate SetAt(mask: Raster<bool>, c: Cell) {
    mask.Has(c) && mask.Get(c)
  }

  /** `out` is `mask` with a copy shifted by each offset of `done` laid over it. */
  ghost predicate GrownBy(mask: Raster<bool>, out: Raster<bool>, done: set<(int, int)>) {
    && SameShape(out, mask)
    && forall c: Cell :: mask.Has(c) ==>
         (out.Get(c) <==> (mask.Get(c) || exists d :: d in done && SetAt(mask, Source(c, d))))
  }

  lemma ShapeKept(mask: Raster<bool>, out: Raster<bool>, di: int, dj: int)
    ensures SameShape(Or(out, Shift(mask, di, dj, false)), out)
  {
  }

  lemma LaidOver(mask: Raster<bool>, out: Raster<bool>, di: int, dj: int, c: Cell)
    requires mask.Has(c)
    ensures Or(out, Shift(mask, di, dj, false)).Get(c) <==> out.Get(c) || SetAt(mask, Source(c, (di, dj)))
  {
    ShiftMoves(mask, di, dj, false, c);
  }

  lemma GrowStep(mask: Raster<bool>, out: Raster<bool>, done: set<(int, int)>, di: int, dj: int)
    requires GrownBy(mask, out, done)
    ensures GrownBy(mask, Or(out, Shift(mask, di, dj, false)), done + {(di, dj)})
  {
    hide Source, SetAt, Shift, Or;
    var out', done' := Or(out, Shift(mask, di, dj, false)), done + {(di, dj)};
    ShapeKept(mask, out, di, dj);
    forall c: Cell | mask.Has(c)
      ensures out'.Get(c) <==> (mask.Get(c) || exists d :: d in done' && SetAt(mask, Source(c, d)))
    {
      LaidOver(mask, out, di, dj, c);
      if SetAt(mask, Source(c, (di, dj))) {
        assert (di, dj) in done';
      }
    }
  }

  predicate Within(norm: (int, int) -> real, radius: real, b: Cell, c: Cell) {
    norm(c.i - b.i, c.j - b.j) < radius
  }

  /** Some set cell's centre is strictly within the radius of `c`. */
  ghost predicate InDisk(norm: (int, int) -> real, mask: Raster<bool>, radius: real, c: Cell) {
    exists b: Cell :: SetAt(mask, b) && Within(norm, radius, b, c)
  }

  lemma WithinCeil(x: int, n: real, radius: real)
    requires -n <= x as real <= n && n < radius
    ensures -Ceil(radius) <= x <= Ceil(radius)
  {
  }

  /** The double loop has tried every offset inside the radius. */
  lemma AllTried(norm: (int, int) -> real, radius: real, done: set<(int, int)>, x: int, y: int)
    requires Dominates(norm) && norm(x, y) < radius
    requires var r := Ceil(radius);
             forall x, y :: -r <= x <= r && -r <= y <= r && norm(x, y) < radius ==> (x, y) in done || (x, y) == (0, 0)
    ensures (x, y) in done || (x, y) == (0, 0)
  {
    WithinCeil(x, norm(x, y), radius);
    WithinCeil(y, norm(x, y), radius);
  }

  lemma SourceOf(c: Cell, b: Cell)
    ensures Source(c, (c.i - b.i, c.j - b.j)) == b
  {
  }

  lemma SourceItself(mask: Raster<bool>, b: Cell, c: Cell)
    requires SetAt(mask, b) && (c.i - b.i, c.j - b.j) == (0, 0)
    ensures mask.Get(c)
  {
    assert b == c;
  }

  lemma DiskReaches(norm: (int, int) -> real, mask: Raster<bool>, out: Raster<bool>, radius: real, done: set<(int, int)>,
                    c: Cell, b: Cell)
    requires Dominates(norm) && GrownBy(mask, out, done)
    requires var r := Ceil(radius);
             forall x, y :: -r <= x <= r && -r <= y <= r && norm(x, y) < radius ==> (x, y) in done || (x, y) == (0, 0)
    requires mask.Has(c) && SetAt(mask, b) && Within(norm, radius, b, c)
    ensures out.Get(c)
  {
    hide Dominates, Ceil, SetAt, SameShape;
    var d := (c.i - b.i, c.j - b.j);
    AllTried(norm, radius, done, d.0, d.1);
    SourceOf(c, b);
    if d in done {
      assert SetAt(mask, Source(c, d));
    } else {
      SourceItself(mask, b, c);
    }
  }

  lemma DiskStops(norm: (int, int) -> real, mask: Raster<bool>, out: Raster<bool>, radius: real, done: set<(int, int)>, c: Cell)
    requires GrownBy(mask, out, done) && forall d :: d in done ==> norm(d.0, d.1) < radius
    requires mask.Has(c)
    ensures out.Get(c) ==> mask.Get(c) || InDisk(norm, mask, radius, c)
    ensures mask.Get(c) ==> out.Get(c)
  {
    if out.Get(c) && !mask.Get(c) {
      var d :| d in done && SetAt(mask, Source(c, d));
      assert Within(norm, radius, Source(c, d), c);
    }
  }

  lemma DiskDone(norm: (int, int) -> real, mask: Raster<bool>, out: Raster<bool>, radius: real, done: set<(int, int)>)
    requires Dominates(norm) && GrownBy(mask, out, done)
    requires forall d :: d in done ==> norm(d.0, d.1) < radius
    requires var r := Ceil(radius);
             forall x, y :: -r <= x <= r && -r <= y <= r && norm(x, y) < radius ==> (x, y) in done || (x, y) == (0, 0)
    ensures forall c: Cell :: mask.Has(c) ==>
              (out.Get(c) <==> (mask.Get(c) || InDisk(norm, mask, radius, c)))
  {
    forall c: Cell | mask.Has(c)
      ensures out.Get(c) <==> (mask.Get(c) || InDisk(norm, mask, radius, c))
    {
      DiskStops(norm, mask, out, radius, done, c);
      if InDisk(norm, mask, radius, c) {
        var b: Cell :| SetAt(mask, b) && Within(norm, radius, b, c);
        DiskReaches(norm, mask, out, radius, done, c, b);
      }
    }
  }

  /** `dilate_disk`: every cell strictly within the radius of a set cell, and the set cells. */
  method DilateDisk(norm: (int, int) -> real, mask: Raster<bool>, radius: real) returns (out: Raster<bool>)
    requires Dominates(norm)
    ensures SameShape(out, mask)
    ensures forall c: Cell :: mask.Has(c) ==>
              (out.Get(c) <==> (mask.Get(c) || InDisk(norm, mask, radius, c)))
  {
    out := mask;
    var r := Ceil(radius);
    ghost var done: set<(int, int)> := {};
    var di := -r;
    while di <= r
      invariant GrownBy(mask, out, done)
      invariant forall d :: d in done ==> norm(d.0, d.1) < radius
      invariant forall x, y :: -r <= x < di && x <= r && -r <= y <= r && norm(x, y) < radius ==> (x, y) in done || (x, y) == (0, 0)
    {
      var dj := -r;
      while dj <= r
        invariant GrownBy(mask, out, done)
        invariant forall d :: d in done ==> norm(d.0, d.1) < radius
        invariant forall x, y :: -r <= x < di && x <= r && -r <= y <= r && norm(x, y) < radius ==> (x, y) in done || (x, y) == (0, 0)
        invariant forall y :: -r <= y < dj && y <= r && norm(di, y) < radius ==> (di, y) in done || (di, y) == (0, 0)
      {
        if (di == 0 && dj == 0) || norm(di, dj) >= radius {
          dj := dj + 1;
          continue;
        }
        GrowStep(mask, out, done, di, dj);
        out := Or(out, Shift(mask, di, dj, false));
        done := done + {(di, dj)};
        dj := dj + 1;
      }
      di := di + 1;
    }
    DiskDone(norm, mask, out, radius, done);
  }

  // ── dilate_bool ──

  /** The eight offsets of a dilation. */
  ghost predicate IsRing(done: set<(int, int)>) {
    forall d :: d in done <==> -1 <= d.0 <= 1 && -1 <= d.1 <= 1 && d != (0, 0)
  }

  /** Some set cell is within `n` king's moves of `c`. */
  ghost predicate InBall(mask: Raster<bool>, n: nat, c: Cell) {
    exists b: Cell :: SetAt(mask, b) && Chebyshev(c, b) <= n
  }

  ghost predicate IsBall(mask: Raster<bool>, out: Raster<bool>, n: nat) {
    && SameShape(out, mask)
    && forall c: Cell :: mask.Has(c) ==> (out.Get(c) <==> InBall(mask, n, c))
  }

  lemma InBallIsSet(mask: Raster<bool>, out: Raster<bool>, n: nat, s: Cell)
    requires IsBall(mask, out, n) && mask.Has(s) && InBall(mask, n, s)
    ensures SetAt(out, s)
  {
  }

  lemma SameSize(mask: Raster<bool>, out: Raster<bool>, done: set<(int, int)>)
    requires GrownBy(mask, out, done)
    ensures SameShape(out, mask)
  {
  }

  lemma Reached(mask: Raster<bool>, out: Raster<bool>, done: set<(int, int)>, c: Cell, d: (int, int))
    requires GrownBy(mask, out, done) && mask.Has(c) && d in done && SetAt(mask, Source(c, d))
    ensures out.Get(c)
  {
  }

  lemma RingReachesOut(mask: Raster<bool>, out: Raster<bool>, nxt: Raster<bool>, ring: set<(int, int)>, n: nat, c: Cell, b: Cell)
    requires IsBall(mask, out, n) && GrownBy(out, nxt, ring) && IsRing(ring)
    requires mask.Has(c) && SetAt(mask, b) && c != b && Chebyshev(c, b) <= n + 1
    ensures nxt.Get(c)
  {
    hide Chebyshev, Toward, Source, GrownBy;
    var s := Toward(c, b);
    TowardCloser(c, b);
    TowardIsNeighbor(c, b, mask.nx, mask.ny);
    assert InBall(mask, n, s);
    InBallIsSet(mask, out, n, s);
    SourceOf(c, s);
    SameSize(out, nxt, ring);
    Reached(out, nxt, ring, c, (c.i - s.i, c.j - s.j));
  }

  lemma RingReaches(mask: Raster<bool>, out: Raster<bool>, nxt: Raster<bool>, ring: set<(int, int)>, n: nat, c: Cell, b: Cell)
    requires IsBall(mask, out, n) && GrownBy(out, nxt, ring) && IsRing(ring)
    requires mask.Has(c) && SetAt(mask, b) && Chebyshev(c, b) <= n + 1
    ensures nxt.Get(c)
  {
    if c == b || Chebyshev(c, b) <= n {
      assert InBall(mask, n, c);
    } else {
      RingReachesOut(mask, out, nxt, ring, n, c, b);
    }
  }

  lemma RingStops(mask: Raster<bool>, out: Raster<bool>, nxt: Raster<bool>, ring: set<(int, int)>, n: nat, c: Cell)
    requires IsBall(mask, out, n) && GrownBy(out, nxt, ring) && IsRing(ring)
    requires mask.Has(c) && nxt.Get(c)
    ensures InBall(mask, n + 1, c)
  {
    hide Chebyshev;
    if out.Get(c) {
      var b: Cell :| SetAt(mask, b) && Chebyshev(c, b) <= n;
    } else {
      var d :| d in ring && SetAt(out, Source(c, d));
      var s := Source(c, d);
      var b: Cell :| SetAt(mask, b) && Chebyshev(s, b) <= n;
      OffsetAdjacent(c, s);
      ChebyshevTriangle(c, s, b);
    }
  }

  lemma RingGrowsBall(mask: Raster<bool>, out: Raster<bool>, nxt: Raster<bool>, ring: set<(int, int)>, n: nat)
    requires IsBall(mask, out, n) && GrownBy(out, nxt, ring) && IsRing(ring)
    ensures IsBall(mask, nxt, n + 1)
  {
    forall c: Cell | mask.Has(c) ensures nxt.Get(c) <==> InBall(mask, n + 1, c) {
      if nxt.Get(c) {
        RingStops(mask, out, nxt, ring, n, c);
      }
      if InBall(mask, n + 1, c) {
        var b: Cell :| SetAt(mask, b) && Chebyshev(c, b) <= n + 1;
        RingReaches(mask, out, nxt, ring, n, c, b);
      }
    }
  }

  /** One pass of `dilate_bool`: the mask with its eight shifts laid over it. */
  method DilateOnce(out: Raster<bool>) returns (nxt: Raster<bool>, ghost ring: set<(int, int)>)
    ensures GrownBy(out, nxt, ring) && IsRing(ring)
  {
    nxt, ring := out, {};
    for di := -1 to 2
      invariant GrownBy(out, nxt, ring)
      invariant forall d :: d in ring <==> -1 <= d.0 < di && -1 <= d.1 <= 1 && d != (0, 0)
    {
      for dj := -1 to 2
        invariant GrownBy(out, nxt, ring)
        invariant forall d :: d in ring <==> d != (0, 0) && -1 <= d.1 <= 1 && (-1 <= d.0 < di || (d.0 == di && d.1 < dj))
      {
        if di == 0 && dj == 0 { continue; }
        GrowStep(out, nxt, ring, di, dj);
        nxt := Or(nxt, Shift(out, di, dj, false));
        ring := ring + {(di, dj)};
      }
    }
  }

  /** `dilate_bool`: with n iterations, the Chebyshev ball of radius n around the set cells. */
  method DilateBool(mask: Raster<bool>, iters: int) returns (out: Raster<bool>)
    ensures IsBall(mask, out, Max(iters, 0))
  {
    out := mask;
    assert IsBall(mask, out, 0) by {
      forall c: Cell | mask.Has(c) ensures mask.Get(c) <==> InBall(mask, 0, c) {
        if mask.Get(c) { assert Chebyshev(c, c) == 0; }
      }
    }
    for n := 0 to Max(iters, 0)
      invariant IsBall(mask, out, n)
    {
      var nxt, ring := DilateOnce(out);
      RingGrowsBall(mask, out, nxt, ring, n);
      out := nxt;
    }
  }
}
