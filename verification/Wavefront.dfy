/** `wavefront_distance` of body/lib/local_costmap.py: the iterated chamfer distance transform. */
module Wavefront {
  import opened Grid
  import opened Rasters

  /** Element-wise minimum of `a` and `b + w`. */
  function MinPlus(a: Raster<real>, b: Raster<real>, w: real): Raster<real> {
    Raster(a.nx, a.ny, (i: int, j: int) => if b.at(i, j) + w < a.at(i, j) then b.at(i, j) + w else a.at(i, j))
  }

  predicate ArrayEqual(a: Raster<real>, b: Raster<real>) {
    SameShape(a, b) && forall i, j :: 0 <= i < a.nx && 0 <= j < a.ny ==> a.at(i, j) == b.at(i, j)
  }

  /** At least the octile distance from `c` to some blocked cell. */
  ghost predicate Reaches(blocked: Raster<bool>, c: Cell, x: real) {
    exists b: Cell :: SetAt(blocked, b) && Octile(c, b) <= x
  }

  /** At most the octile distance from `c` to every blocked cell within `k` king's moves. */
  ghost predicate Below(blocked: Raster<bool>, k: int, c: Cell, x: real) {
    forall b: Cell :: SetAt(blocked, b) && Chebyshev(c, b) <= k ==> x <= Octile(c, b)
  }

  /** After `k` rounds: exact for everything within `k` king's moves, and never too small. */
  ghost predicate Wave(blocked: Raster<bool>, inf: real, d: Raster<real>, k: int) {
    && SameShape(d, blocked)
    && forall c: Cell :: blocked.Has(c) ==>
         d.Get(c) <= inf && Below(blocked, k, c, d.Get(c)) && (d.Get(c) == inf || Reaches(blocked, c, d.Get(c)))
  }

  /** The closed form: the octile distance to the nearest blocked cell, capped at `inf`. */
  ghost predicate IsCapped(blocked: Raster<bool>, inf: real, d: Raster<real>) {
    && SameShape(d, blocked)
    && forall c: Cell :: blocked.Has(c) ==>
         && d.Get(c) <= inf
         && (forall b: Cell :: SetAt(blocked, b) ==> d.Get(c) <= Octile(c, b))
         && (d.Get(c) == inf || exists b: Cell :: SetAt(blocked, b) && d.Get(c) == Octile(c, b))
  }

  /** One round so far: rows 0..k of the table have been shifted in. */
  ghost predicate RoundFrom(d: Raster<real>, cur: Raster<real>, k: nat, c: Cell)
    requires k <= 8
  {
    && cur.Get(c) <= d.Get(c)
    && (forall m :: 8 - k <= m < 8 && d.Has(Neighbor(c, m)) ==> cur.Get(c) <= d.Get(Neighbor(c, m)) + NEIGHBORS_8[m].base)
    && (cur.Get(c) == d.Get(c)
        || exists m :: 8 - k <= m < 8 && d.Has(Neighbor(c, m)) && cur.Get(c) == d.Get(Neighbor(c, m)) + NEIGHBORS_8[m].base)
  }

  /** The neighbour table is symmetric, so shifting by row `k` brings in the neighbour of row `7 - k`. */
  lemma RoundStep(d: Raster<real>, cur: Raster<real>, k: nat, inf: real, c: Cell)
    requires k < 8 && d.Has(c) && SameShape(cur, d) && d.Get(c) <= inf
    requires RoundFrom(d, cur, k, c)
    ensures RoundFrom(d, MinPlus(cur, Shift(d, NEIGHBORS_8[k].di, NEIGHBORS_8[k].dj, inf), NEIGHBORS_8[k].base), k + 1, c)
  {
    ShiftMoves(d, NEIGHBORS_8[k].di, NEIGHBORS_8[k].dj, inf, c);
    assert Neighbor(c, 7 - k) == Cell(c.i - NEIGHBORS_8[k].di, c.j - NEIGHBORS_8[k].dj);
    assert NEIGHBORS_8[7 - k].base == NEIGHBORS_8[k].base > 0.0;
  }

  /** One whole round: the least of a cell's own value and its neighbours' plus the step length. */
  ghost predicate Relaxed(d: Raster<real>, cur: Raster<real>, c: Cell) {
    && cur.Get(c) <= d.Get(c)
    && (forall n :: Adjacent(c, n) && d.Has(n) ==> cur.Get(c) <= d.Get(n) + Base(c, n))
    && (cur.Get(c) == d.Get(c) || exists n :: Adjacent(c, n) && d.Has(n) && cur.Get(c) == d.Get(n) + Base(c, n))
  }

  lemma RoundDone(d: Raster<real>, cur: Raster<real>, c: Cell)
    requires RoundFrom(d, cur, 8, c)
    ensures Relaxed(d, cur, c)
  {
    hide Adjacent, Base;
    forall n | Adjacent(c, n) && d.Has(n) ensures cur.Get(c) <= d.Get(n) + Base(c, n) {
      NeighborTable(c, n);
    }
    if cur.Get(c) != d.Get(c) {
      var m :| 0 <= m < 8 && d.Has(Neighbor(c, m)) && cur.Get(c) == d.Get(Neighbor(c, m)) + NEIGHBORS_8[m].base;
      NeighborTable(c, Neighbor(c, m));
    }
  }

  /** One relaxation of the whole raster, all eight neighbours against the values before it. */
  method Round(d: Raster<real>, inf: real) returns (cur: Raster<real>)
    requires forall c: Cell :: d.Has(c) ==> d.Get(c) <= inf
    ensures SameShape(cur, d) && forall c: Cell :: d.Has(c) ==> Relaxed(d, cur, c)
  {
    cur := d;
    for k := 0 to 8
      invariant SameShape(cur, d) && forall c: Cell :: d.Has(c) ==> RoundFrom(d, cur, k, c)
    {
      var nxt := MinPlus(cur, Shift(d, NEIGHBORS_8[k].di, NEIGHBORS_8[k].dj, inf), NEIGHBORS_8[k].base);
      forall c: Cell | d.Has(c) ensures RoundFrom(d, nxt, k + 1, c) {
        RoundStep(d, cur, k, inf, c);
      }
      cur := nxt;
    }
    forall c: Cell | d.Has(c) ensures Relaxed(d, cur, c) {
      RoundDone(d, cur, c);
    }
  }

  /** Another round reaches one king's move farther ... */
  lemma WaveBelow(blocked: Raster<bool>, inf: real, d: Raster<real>, cur: Raster<real>, k: nat, c: Cell, b: Cell)
    requires Wave(blocked, inf, d, k) && blocked.Has(c) && Relaxed(d, cur, c)
    requires SetAt(blocked, b) && Chebyshev(c, b) <= k + 1
    ensures cur.Get(c) <= Octile(c, b)
  {
    if Chebyshev(c, b) > k {
      hide Octile, Chebyshev, Toward, Base;
      ChebyshevSelf(c);
      TowardCloser(c, b);
      TowardIsNeighbor(c, b, blocked.nx, blocked.ny);
      OctileToward(c, b);
      assert Below(blocked, k, Toward(c, b), d.Get(Toward(c, b)));
    }
  }

  /** ... and never falls below the true distance. */
  lemma WaveReaches(blocked: Raster<bool>, inf: real, d: Raster<real>, cur: Raster<real>, k: nat, c: Cell)
    requires Wave(blocked, inf, d, k) && blocked.Has(c) && Relaxed(d, cur, c)
    ensures cur.Get(c) == inf || Reaches(blocked, c, cur.Get(c))
  {
    hide Octile, Chebyshev;
    if cur.Get(c) != d.Get(c) {
      var n :| Adjacent(c, n) && d.Has(n) && cur.Get(c) == d.Get(n) + Base(c, n);
      assert d.Get(n) < inf;
      var b: Cell :| SetAt(blocked, b) && Octile(n, b) <= d.Get(n);
      OctileStep(c, n, b);
    }
  }

  lemma WaveGrows(blocked: Raster<bool>, inf: real, d: Raster<real>, cur: Raster<real>, k: nat)
    requires Wave(blocked, inf, d, k) && SameShape(cur, d) && forall c: Cell :: d.Has(c) ==> Relaxed(d, cur, c)
    ensures Wave(blocked, inf, cur, k + 1)
  {
    hide Octile, Chebyshev, Reaches;
    forall c: Cell | blocked.Has(c)
      ensures cur.Get(c) <= inf && Below(blocked, k + 1, c, cur.Get(c))
      ensures cur.Get(c) == inf || Reaches(blocked, c, cur.Get(c))
    {
      assert Relaxed(d, cur, c);
      forall b: Cell | SetAt(blocked, b) && Chebyshev(c, b) <= k + 1 ensures cur.Get(c) <= Octile(c, b) {
        WaveBelow(blocked, inf, d, cur, k, c, b);
      }
      WaveReaches(blocked, inf, d, cur, k, c);
    }
  }

  lemma WaveStarts(blocked: Raster<bool>, inf: real, d: Raster<real>)
    requires SameShape(d, blocked) && inf >= 0.0
    requires forall c: Cell :: blocked.Has(c) ==> d.Get(c) == if blocked.Get(c) then 0.0 else inf
    ensures Wave(blocked, inf, d, 0)
  {
    hide Octile, Chebyshev;
    forall c: Cell, b: Cell | blocked.Has(c) && SetAt(blocked, b) && Chebyshev(c, b) <= 0
      ensures d.Get(c) <= Octile(c, b)
    {
      ChebyshevZero(c, b);
      OctileSelf(c);
    }
    forall c: Cell | SetAt(blocked, c) ensures Reaches(blocked, c, 0.0) {
      OctileSelf(c);
    }
  }

  /** A fixpoint of the round is below every blocked cell's distance, however far. */
  lemma {:induction false} FixpointBelow(blocked: Raster<bool>, inf: real, d: Raster<real>, k: nat, c: Cell, b: Cell)
    requires Wave(blocked, inf, d, k) && forall c: Cell :: d.Has(c) ==> Relaxed(d, d, c)
    requires blocked.Has(c) && SetAt(blocked, b)
    ensures d.Get(c) <= Octile(c, b)
    decreases Chebyshev(c, b)
  {
    hide Octile, Toward, Base;
    if c == b {
      ChebyshevSelf(c);
      assert Below(blocked, k, c, d.Get(c));
    } else {
      TowardCloser(c, b);
      TowardIsNeighbor(c, b, blocked.nx, blocked.ny);
      FixpointBelow(blocked, inf, d, k, Toward(c, b), b);
      OctileToward(c, b);
      assert d.Has(c) && Relaxed(d, d, c);
    }
  }

  /** A wave that is below every blocked cell's distance is the closed form. */
  lemma WaveIsCapped(blocked: Raster<bool>, inf: real, d: Raster<real>, k: nat)
    requires Wave(blocked, inf, d, k)
    requires forall c: Cell, b: Cell :: blocked.Has(c) && SetAt(blocked, b) ==> d.Get(c) <= Octile(c, b)
    ensures IsCapped(blocked, inf, d)
  {
    hide Octile, Chebyshev;
    forall c: Cell | blocked.Has(c) && d.Get(c) != inf
      ensures exists b: Cell :: SetAt(blocked, b) && d.Get(c) == Octile(c, b)
    {
      var b: Cell :| SetAt(blocked, b) && Octile(c, b) <= d.Get(c);
    }
  }

  lemma FullWave(blocked: Raster<bool>, d: Raster<real>, k: nat)
    requires Wave(blocked, (k + 1) as real, d, k)
    ensures IsCapped(blocked, (k + 1) as real, d)
  {
    hide Octile, Chebyshev;
    forall c: Cell, b: Cell | blocked.Has(c) && SetAt(blocked, b) ensures d.Get(c) <= Octile(c, b) {
      OctileAtLeastChebyshev(c, b);
      assert Below(blocked, k, c, d.Get(c));
    }
    WaveIsCapped(blocked, (k + 1) as real, d, k);
  }

  lemma SettledCapped(blocked: Raster<bool>, inf: real, d: Raster<real>, cur: Raster<real>, k: nat)
    requires Wave(blocked, inf, d, k) && ArrayEqual(cur, d) && forall c: Cell :: d.Has(c) ==> Relaxed(d, cur, c)
    ensures IsCapped(blocked, inf, d)
  {
    hide Octile, Chebyshev;
    forall c: Cell | d.Has(c) ensures Relaxed(d, d, c) {
      assert cur.at(c.i, c.j) == d.at(c.i, c.j);
    }
    forall c: Cell, b: Cell | blocked.Has(c) && SetAt(blocked, b) ensures d.Get(c) <= Octile(c, b) {
      FixpointBelow(blocked, inf, d, k, c, b);
    }
    WaveIsCapped(blocked, inf, d, k);
  }

  /**
   `wavefront_distance`: the capped octile distance to the nearest blocked cell,
   whether the loop runs out of rounds or stops early at a fixpoint.
   */
  method WavefrontDistance(blocked: Raster<bool>, maxCells: nat) returns (dist: Raster<real>)
    ensures IsCapped(blocked, (maxCells + 1) as real, dist)
  {
    var inf := (maxCells + 1) as real;
    dist := Raster(blocked.nx, blocked.ny, (i: int, j: int) => if blocked.at(i, j) then 0.0 else inf);
    WaveStarts(blocked, inf, dist);
    for k := 0 to maxCells
      invariant Wave(blocked, inf, dist, k)
    {
      var cur := Round(dist, inf);
      if ArrayEqual(cur, dist) {
        SettledCapped(blocked, inf, dist, cur, k);
        return dist;
      }
      WaveGrows(blocked, inf, dist, cur, k);
      dist := cur;
    }
    FullWave(blocked, dist, maxCells);
  }
}
