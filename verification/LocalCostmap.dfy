/** `build_local_costmap` of body/lib/local_costmap.py. */
module LocalCostmap {
  import opened Options
  import opened Grid
  import opened Numbers
  import opened Rasters
  import opened Wavefront

  /** `LocalCostmapConfig` */
  datatype Config = Config(
    footprint: real,
    quantizationPad: bool,
    safetyMargin: real,
    inflationDecay: real,
    haloMax: real,
    unknownCost: real,
    unknownIsLethal: bool,
    denoise: bool,
    denoiseMinNeighbors: int,
    denoiseMinRange: real)

  /** The grid's metric frame: cell size and the position of its corner. */
  datatype Frame = Frame(res: real, ox: real, oy: real)

  /** A point of the plane, in metres. */
  datatype Point = Point(x: real, y: real)

  function Centre(f: Frame, c: Cell): Point {
    Point(f.ox + (c.i as real + 0.5) * f.res, f.oy + (c.j as real + 0.5) * f.res)
  }

  /** A stored cost: a number, or the infinity that lethal cells hold. */
  datatype Price = Finite(value: real) | Infinite

  datatype Costmap = Costmap(cost: Raster<Price>, lethal: Raster<bool>, unknown: Raster<bool>, distance: Raster<real>)

  /** `math.hypot` on metres. */
  ghost predicate IsMetricHypot(hypot: (real, real) -> real) {
    forall x, y :: hypot(x, y) >= 0.0 && hypot(x, y) * hypot(x, y) == x * x + y * y
  }

  /** `math.hypot` on cell offsets. */
  function CellNorm(hypot: (real, real) -> real): (int, int) -> real {
    (x: int, y: int) => hypot(x as real, y as real)
  }

  lemma RealSquares(x: int, y: int)
    ensures (x as real) * (x as real) + (y as real) * (y as real) == SquareSum(x, y) as real
  {
  }

  lemma CellNormIsHypot(hypot: (real, real) -> real)
    requires IsMetricHypot(hypot)
    ensures IsHypot(CellNorm(hypot))
  {
    forall x: int, y: int
      ensures hypot(x as real, y as real) >= 0.0
      ensures hypot(x as real, y as real) * hypot(x as real, y as real) == SquareSum(x, y) as real
    {
      RealSquares(x, y);
    }
  }

  /** What is used of `np.exp`: on non-positive arguments it lies in [0, 1]. */
  ghost predicate IsDecay(exp: real -> real) {
    forall x :: x <= 0.0 ==> 0.0 <= exp(x) <= 1.0
  }

  /** `lethal_radius_m` */
  function LethalRadius(cfg: Config, res: real): real {
    cfg.footprint + (if cfg.quantizationPad then res / SQRT2 else 0.0)
  }

  /** Beyond the footprint lies half a cell's diagonal, or nothing. */
  lemma LethalRadiusIs(cfg: Config, res: real)
    ensures (LethalRadius(cfg, res) - cfg.footprint) * SQRT2 == if cfg.quantizationPad then res else 0.0
  {
  }

  // ── speckle removal ──

  function Bit(mask: Raster<bool>, c: Cell): nat {
    if SetAt(mask, c) then 1 else 0
  }

  /** How many of the first `k` neighbours of `c` are set. */
  function Neighbors(mask: Raster<bool>, c: Cell, k: nat): nat
    requires k <= 8
  {
    if k == 0 then 0 else Neighbors(mask, c, k - 1) + Bit(mask, Neighbor(c, k - 1))
  }

  /** `drop_speckle`: keep set cells with enough set neighbours. */
  function DropSpeckle(mask: Raster<bool>, minNeighbors: int): Raster<bool> {
    Raster(mask.nx, mask.ny, (i: int, j: int) => mask.at(i, j) && Neighbors(mask, Cell(i, j), 8) >= minNeighbors)
  }

  /** `_cell_range_m` */
  function CellRange(hypot: (real, real) -> real, f: Frame, c: Cell): real {
    hypot(Centre(f, c).x, Centre(f, c).y)
  }

  /** The cells taken as blocked: hits, less far isolated ones when the denoiser is on. */
  function Blocked(hypot: (real, real) -> real, grid: Raster<int>, f: Frame, cfg: Config): Raster<bool> {
    var hits := Raster(grid.nx, grid.ny, (i: int, j: int) => grid.at(i, j) == 0);
    if !cfg.denoise then hits
    else
      var kept := DropSpeckle(hits, Min(1, cfg.denoiseMinNeighbors));
      Raster(grid.nx, grid.ny, (i: int, j: int) =>
        hits.at(i, j) && !(!kept.at(i, j) && CellRange(hypot, f, Cell(i, j)) > cfg.denoiseMinRange))
  }

  lemma {:induction false} NeighborCounts(mask: Raster<bool>, c: Cell, m: nat)
    requires m <= 8
    ensures Neighbors(mask, c, m) >= 1 <==> exists k :: 0 <= k < m && SetAt(mask, Neighbor(c, k))
  {
    if m > 0 {
      NeighborCounts(mask, c, m - 1);
      assert SetAt(mask, Neighbor(c, m - 1)) ==> exists k :: 0 <= k < m && SetAt(mask, Neighbor(c, k));
    }
  }

  lemma TouchesHit(mask: Raster<bool>, c: Cell)
    ensures Neighbors(mask, c, 8) >= 1 <==> exists n :: Adjacent(c, n) && SetAt(mask, n)
  {
    NeighborCounts(mask, c, 8);
    forall n | Adjacent(c, n) && SetAt(mask, n) ensures exists k :: 0 <= k < 8 && SetAt(mask, Neighbor(c, k)) {
      NeighborTable(c, n);
    }
    forall k | 0 <= k < 8 && SetAt(mask, Neighbor(c, k)) ensures Adjacent(c, Neighbor(c, k)) {
      NeighborTable(c, Neighbor(c, k));
    }
  }

  /**
   Which hits the denoiser leaves: with it on, and asked for neighbours at all, all
   but those that are out of range of the robot, which stands at the origin, and
   touch no other hit.
   */
  lemma BlockedIff(hypot: (real, real) -> real, grid: Raster<int>, f: Frame, cfg: Config, c: Cell)
    requires grid.Has(c)
    ensures Blocked(hypot, grid, f, cfg).Get(c) <==>
      grid.Get(c) == 0
      && (!cfg.denoise || cfg.denoiseMinNeighbors <= 0 || hypot(Centre(f, c).x, Centre(f, c).y) <= cfg.denoiseMinRange
          || exists n :: Adjacent(c, n) && grid.Has(n) && grid.Get(n) == 0)
  {
    var hits := Raster(grid.nx, grid.ny, (i: int, j: int) => grid.at(i, j) == 0);
    TouchesHit(hits, c);
    forall n ensures SetAt(hits, n) <==> grid.Has(n) && grid.Get(n) == 0 {
    }
    hide Neighbors, Adjacent;
  }

  // ── the halo ──

  function HaloExtent(cfg: Config, res: real): real {
    LethalRadius(cfg, res) + cfg.safetyMargin + 5.0 * cfg.inflationDecay
  }

  /** `np.exp` at a point. */
  function Exp(exp: real -> real, x: real): real {
    exp(x)
  }

  /** `np.exp(-over / inflation_decay_m)` */
  function DecayFactor(cfg: Config, exp: real -> real, over: real): real
    requires cfg.inflationDecay != 0.0
  {
    Exp(exp, -over / cfg.inflationDecay)
  }

  function Fade(cfg: Config, exp: real -> real, over: real): real
    requires cfg.inflationDecay != 0.0
  {
    cfg.haloMax * DecayFactor(cfg, exp, over)
  }

  /** The halo cost at distance `d` metres from the nearest blocked cell. */
  function HaloAt(cfg: Config, exp: real -> real, res: real, d: real): real
    requires cfg.inflationDecay != 0.0
  {
    if d >= HaloExtent(cfg, res) then 0.0
    else
      var excess := MaxReal(0.0, d - LethalRadius(cfg, res));
      if excess <= cfg.safetyMargin then cfg.haloMax
      else Fade(cfg, exp, MaxReal(0.0, excess - cfg.safetyMargin))
  }

  /** The cost of a non-lethal cell: its halo, and for an unknown cell at least the unknown cost. */
  function CostAt(cfg: Config, exp: real -> real, res: real, d: real, unknown: bool): real
    requires cfg.inflationDecay != 0.0
  {
    if unknown then MaxReal(HaloAt(cfg, exp, res, d), cfg.unknownCost) else HaloAt(cfg, exp, res, d)
  }

  lemma NonPositiveQuotient(a: real, b: real)
    requires a >= 0.0 && b > 0.0
    ensures -a / b <= 0.0
  {
  }

  lemma FadeBounds(cfg: Config, exp: real -> real, over: real)
    requires cfg.inflationDecay > 0.0 && cfg.haloMax >= 0.0 && IsDecay(exp) && over >= 0.0
    ensures 0.0 <= Fade(cfg, exp, over) <= cfg.haloMax
  {
    NonPositiveQuotient(over, cfg.inflationDecay);
    ScaleUnit(cfg.haloMax, DecayFactor(cfg, exp, over));
  }

  lemma HaloBounds(cfg: Config, exp: real -> real, res: real, d: real)
    requires cfg.inflationDecay > 0.0 && cfg.haloMax >= 0.0 && IsDecay(exp)
    ensures 0.0 <= HaloAt(cfg, exp, res, d) <= cfg.haloMax
  {
    hide LethalRadius, HaloExtent, Fade;
    FadeBounds(cfg, exp, MaxReal(0.0, MaxReal(0.0, d - LethalRadius(cfg, res)) - cfg.safetyMargin));
  }

  /**
   Costs lie between nothing and the halo maximum (or the unknown cost), the
   safety band just outside the lethal disk costs the full halo, and an unknown
   cell is never cheaper than a known one in its place.
   */
  lemma CostBounds(cfg: Config, exp: real -> real, res: real, d: real, unknown: bool)
    requires cfg.inflationDecay > 0.0 && cfg.haloMax >= 0.0 && cfg.safetyMargin >= 0.0 && IsDecay(exp)
    ensures 0.0 <= CostAt(cfg, exp, res, d, unknown) <= MaxReal(cfg.haloMax, cfg.unknownCost)
    ensures d - LethalRadius(cfg, res) <= cfg.safetyMargin ==> CostAt(cfg, exp, res, d, unknown) >= cfg.haloMax
    ensures CostAt(cfg, exp, res, d, true) >= cfg.unknownCost
    ensures CostAt(cfg, exp, res, d, true) >= CostAt(cfg, exp, res, d, false)
  {
    HaloBounds(cfg, exp, res, d);
    if d - LethalRadius(cfg, res) <= cfg.safetyMargin {
      assert HaloAt(cfg, exp, res, d) == cfg.haloMax;
    }
  }

  // ── how the halo falls ──

  /** `np.exp` never falls as its argument rises. */
  ghost predicate NeverFalls(exp: real -> real) {
    forall x, y :: x <= y ==> exp(x) <= exp(y)
  }

  lemma QuotientIs(k: real, d: real)
    requires d > 0.0
    ensures (k * d) / d == k && -(k * d) / d == -k
  {
    assert (-(k * d) / d) * d == -(k * d);
    assert (-(k * d) / d + k) * d == 0.0;
  }

  lemma HaloAtOver(cfg: Config, exp: real -> real, res: real, over: real)
    requires cfg.inflationDecay > 0.0 && cfg.safetyMargin >= 0.0
    ensures HaloAt(cfg, exp, res, LethalRadius(cfg, res) + cfg.safetyMargin + over)
         == if over <= 0.0 then cfg.haloMax else if over < 5.0 * cfg.inflationDecay then Fade(cfg, exp, over) else 0.0
  {
    hide LethalRadius, Fade;
  }

  lemma FadeIs(cfg: Config, exp: real -> real, k: real, over: real)
    requires cfg.inflationDecay > 0.0 && over == k * cfg.inflationDecay
    ensures Fade(cfg, exp, over) == cfg.haloMax * Exp(exp, -k)
  {
    QuotientIs(k, cfg.inflationDecay);
    assert -over / cfg.inflationDecay == -k;
    hide Exp;
  }

  /**
   The halo's profile: full through the safety band, then the decay of the number
   of decay lengths beyond it, and from five of them on nothing.
   */
  lemma HaloProfile(cfg: Config, exp: real -> real, res: real, k: real, over: real)
    requires cfg.inflationDecay > 0.0 && cfg.safetyMargin >= 0.0 && over == k * cfg.inflationDecay
    ensures HaloAt(cfg, exp, res, LethalRadius(cfg, res) + cfg.safetyMargin + over)
         == if k <= 0.0 then cfg.haloMax else if k < 5.0 then cfg.haloMax * Exp(exp, -k) else 0.0
  {
    hide *;
    TimesMonotone(k, 0.0, cfg.inflationDecay);
    TimesMonotone(5.0, k, cfg.inflationDecay);
    FadeIs(cfg, exp, k, over);
    HaloAtOver(cfg, exp, res, over);
  }

  lemma ScaleMonotone(m: real, x: real, y: real)
    requires m >= 0.0 && x <= y
    ensures m * x <= m * y
  {
  }

  lemma QuotientMonotone(a: real, b: real, d: real)
    requires d > 0.0 && a <= b
    ensures -b / d <= -a / d
  {
    assert (-a / d - -b / d) * d == b - a;
  }

  lemma FadeFalls(cfg: Config, exp: real -> real, over: real, over': real)
    requires cfg.inflationDecay > 0.0 && cfg.haloMax >= 0.0 && NeverFalls(exp) && over <= over'
    ensures Fade(cfg, exp, over') <= Fade(cfg, exp, over)
  {
    QuotientMonotone(over, over', cfg.inflationDecay);
    ScaleMonotone(cfg.haloMax, DecayFactor(cfg, exp, over'), DecayFactor(cfg, exp, over));
  }

  /** The halo never rises with distance. */
  lemma HaloFalls(cfg: Config, exp: real -> real, res: real, d: real, d': real)
    requires cfg.inflationDecay > 0.0 && cfg.haloMax >= 0.0 && cfg.safetyMargin >= 0.0 && IsDecay(exp) && NeverFalls(exp) && d <= d'
    ensures HaloAt(cfg, exp, res, d') <= HaloAt(cfg, exp, res, d)
  {
    HaloBounds(cfg, exp, res, d);
    HaloBounds(cfg, exp, res, d');
    var over := MaxReal(0.0, MaxReal(0.0, d - LethalRadius(cfg, res)) - cfg.safetyMargin);
    var over' := MaxReal(0.0, MaxReal(0.0, d' - LethalRadius(cfg, res)) - cfg.safetyMargin);
    FadeFalls(cfg, exp, over, over');
    hide LethalRadius, Fade, HaloExtent;
    if d < HaloExtent(cfg, res) && d' >= HaloExtent(cfg, res) {
      assert HaloAt(cfg, exp, res, d') == 0.0;
    }
  }

  ghost predicate LethalAt(norm: (int, int) -> real, blocked: Raster<bool>, radius: real, c: Cell) {
    blocked.Get(c) || InDisk(norm, blocked, radius, c)
  }

  /** The lethal cells: blocked, within the lethal radius of a blocked cell, or unknown if configured so. */
  ghost predicate LethalSpec(hypot: (real, real) -> real, grid: Raster<int>, f: Frame, cfg: Config, lethal: Raster<bool>)
    requires f.res > 0.0
  {
    && SameShape(lethal, grid)
    && forall c: Cell :: grid.Has(c) ==>
         (lethal.Get(c) <==> LethalAt(CellNorm(hypot), Blocked(hypot, grid, f, cfg), LethalRadius(cfg, f.res) / f.res, c)
                             || (cfg.unknownIsLethal && grid.Get(c) == -1))
  }

  /**
   What keeps a robot off the hits: every cell blocked or within the lethal radius
   of a blocked one is lethal, whatever else is.
   */
  ghost predicate CoversHits(hypot: (real, real) -> real, grid: Raster<int>, f: Frame, cfg: Config, lethal: Raster<bool>)
    requires f.res > 0.0
  {
    && SameShape(lethal, grid)
    && forall c: Cell :: grid.Has(c) && LethalAt(CellNorm(hypot), Blocked(hypot, grid, f, cfg), LethalRadius(cfg, f.res) / f.res, c) ==>
         lethal.Get(c)
  }

  lemma LethalCovers(hypot: (real, real) -> real, grid: Raster<int>, f: Frame, cfg: Config, lethal: Raster<bool>)
    requires f.res > 0.0 && LethalSpec(hypot, grid, f, cfg, lethal)
    ensures CoversHits(hypot, grid, f, cfg, lethal)
  {
  }

  /** The price of every cell: infinite where it is lethal, else from its distance to the blocked ones. */
  ghost predicate CostSpec(exp: real -> real, grid: Raster<int>, f: Frame, cfg: Config, cm: Costmap)
    requires cfg.inflationDecay != 0.0
  {
    && SameShape(cm.cost, grid)
    && forall c: Cell :: grid.Has(c) ==>
         cm.cost.Get(c) == if cm.lethal.Get(c) then Infinite
                           else Finite(CostAt(cfg, exp, f.res, cm.distance.Get(c), grid.Get(c) == -1))
  }

  /** `dist_m`: `cells` times the cell size, where `cells` is the capped octile distance. */
  ghost predicate DistanceSpec(hypot: (real, real) -> real, grid: Raster<int>, f: Frame, cfg: Config, cm: Costmap, cells: Raster<real>)
    requires f.res > 0.0
  {
    && IsCapped(Blocked(hypot, grid, f, cfg), (Max(2, Ceil(HaloExtent(cfg, f.res) / f.res)) + 1) as real, cells)
    && forall c: Cell :: grid.Has(c) ==> cm.distance.Get(c) == cells.Get(c) * f.res
  }

  lemma CappedGrows(blocked: Raster<bool>, inf: real, d: Raster<real>, a: Cell, b: Cell)
    requires IsCapped(blocked, inf, d) && blocked.Has(a) && blocked.Has(b)
    requires forall o: Cell :: SetAt(blocked, o) ==> Octile(a, o) <= Octile(b, o)
    ensures d.Get(a) <= d.Get(b)
  {
    hide Octile;
    if d.Get(b) != inf {
      var o: Cell :| SetAt(blocked, o) && d.Get(b) == Octile(b, o);
    }
  }

  lemma DistanceOf(hypot: (real, real) -> real, grid: Raster<int>, f: Frame, cfg: Config, cm: Costmap, cells: Raster<real>, c: Cell)
    requires f.res > 0.0 && DistanceSpec(hypot, grid, f, cfg, cm, cells) && grid.Has(c)
    ensures Blocked(hypot, grid, f, cfg).Has(c) && cm.distance.Get(c) == cells.Get(c) * f.res
    ensures IsCapped(Blocked(hypot, grid, f, cfg), (Max(2, Ceil(HaloExtent(cfg, f.res) / f.res)) + 1) as real, cells)
  {
    hide IsCapped, HaloExtent, CellRange, DropSpeckle;
  }

  lemma PriceOf(exp: real -> real, grid: Raster<int>, f: Frame, cfg: Config, cm: Costmap, c: Cell)
    requires cfg.inflationDecay != 0.0 && CostSpec(exp, grid, f, cfg, cm) && grid.Has(c) && !cm.lethal.Get(c)
    ensures cm.cost.Get(c) == Finite(CostAt(cfg, exp, f.res, cm.distance.Get(c), grid.Get(c) == -1))
  {
    hide CostAt;
  }

  lemma CostFalls(cfg: Config, exp: real -> real, res: real, d: real, d': real, unknown: bool)
    requires cfg.inflationDecay > 0.0 && cfg.haloMax >= 0.0 && cfg.safetyMargin >= 0.0 && IsDecay(exp) && NeverFalls(exp) && d <= d'
    ensures CostAt(cfg, exp, res, d', unknown) <= CostAt(cfg, exp, res, d, unknown)
  {
    HaloFalls(cfg, exp, res, d, d');
    hide HaloAt;
  }

  /**
   In a built costmap, of two cells that are not lethal, both known or both
   unknown, the one at least as far from every blocked cell costs no more.
   */
  lemma FartherCostsNoMore(hypot: (real, real) -> real, exp: real -> real, grid: Raster<int>, f: Frame, cfg: Config, cm: Costmap,
                           cells: Raster<real>, a: Cell, b: Cell)
    requires f.res > 0.0 && cfg.inflationDecay > 0.0 && cfg.haloMax >= 0.0 && cfg.safetyMargin >= 0.0 && IsDecay(exp) && NeverFalls(exp)
    requires CostSpec(exp, grid, f, cfg, cm) && DistanceSpec(hypot, grid, f, cfg, cm, cells)
    requires grid.Has(a) && grid.Has(b) && !cm.lethal.Get(a) && !cm.lethal.Get(b) && (grid.Get(a) == -1 <==> grid.Get(b) == -1)
    requires forall o: Cell :: SetAt(Blocked(hypot, grid, f, cfg), o) ==> Octile(a, o) <= Octile(b, o)
    ensures cm.cost.Get(a).Finite? && cm.cost.Get(b).Finite? && cm.cost.Get(b).value <= cm.cost.Get(a).value
  {
    hide *;
    PriceOf(exp, grid, f, cfg, cm, a);
    PriceOf(exp, grid, f, cfg, cm, b);
    DistanceOf(hypot, grid, f, cfg, cm, cells, a);
    DistanceOf(hypot, grid, f, cfg, cm, cells, b);
    CappedGrows(Blocked(hypot, grid, f, cfg), (Max(2, Ceil(HaloExtent(cfg, f.res) / f.res)) + 1) as real, cells, a, b);
    TimesMonotone(cells.Get(a), cells.Get(b), f.res);
    CostFalls(cfg, exp, f.res, cm.distance.Get(a), cm.distance.Get(b), grid.Get(a) == -1);
  }

  /** `lethal = blocked | dilate_disk(...)`, and unknown cells if configured so. */
  method LethalCells(hypot: (real, real) -> real, grid: Raster<int>, f: Frame, cfg: Config) returns (lethal: Raster<bool>)
    requires IsMetricHypot(hypot) && f.res > 0.0
    ensures LethalSpec(hypot, grid, f, cfg, lethal)
  {
    assert Dominates(CellNorm(hypot)) by {
      CellNormIsHypot(hypot);
      HypotDominates(CellNorm(hypot));
    }
    hide IsMetricHypot, CellNorm, LethalRadius, InDisk;
    var blocked := Blocked(hypot, grid, f, cfg);
    var disk := DilateDisk(CellNorm(hypot), blocked, LethalRadius(cfg, f.res) / f.res);
    lethal := Or(blocked, disk);
    if cfg.unknownIsLethal {
      lethal := Or(lethal, Raster(grid.nx, grid.ny, (i: int, j: int) => grid.at(i, j) == -1));
    }
  }

  /** `build_local_costmap`. None is the ValueError for a bad resolution. */
  method BuildLocalCostmap(hypot: (real, real) -> real, exp: real -> real, grid: Raster<int>, f: Frame, cfg: Config)
    returns (cm: Option<Costmap>, ghost cells: Raster<real>)
    requires IsMetricHypot(hypot) && cfg.inflationDecay != 0.0
    ensures cm.None? <==> f.res <= 0.0
    ensures cm.Some? ==> LethalSpec(hypot, grid, f, cfg, cm.value.lethal)
    ensures cm.Some? ==> CostSpec(exp, grid, f, cfg, cm.value)
    ensures cm.Some? ==> DistanceSpec(hypot, grid, f, cfg, cm.value, cells)
    ensures cm.Some? ==> forall c: Cell :: grid.Has(c) ==> (cm.value.unknown.Get(c) <==> grid.Get(c) == -1)
  {
    hide IsMetricHypot, LethalSpec, HaloExtent, CostAt, IsCapped;
    if f.res <= 0.0 {
      cells := Raster(0, 0, (i: int, j: int) => 0.0);
      return None, cells;
    }
    var blocked := Blocked(hypot, grid, f, cfg);
    var unknown := Raster(grid.nx, grid.ny, (i: int, j: int) => grid.at(i, j) == -1);
    var wave := WavefrontDistance(blocked, Max(2, Ceil(HaloExtent(cfg, f.res) / f.res)));
    var distance := Raster(grid.nx, grid.ny, (i: int, j: int) => wave.at(i, j) * f.res);
    var lethal := LethalCells(hypot, grid, f, cfg);
    var cost := Raster(grid.nx, grid.ny, (i: int, j: int) =>
      if lethal.at(i, j) then Infinite else Finite(CostAt(cfg, exp, f.res, distance.at(i, j), unknown.at(i, j))));
    cells := wave;
    cm := Some(Costmap(cost, lethal, unknown, distance));
  }

  /** `cm.lethal | extra`, the added cells at an infinite cost: how the controller closes off more cells before planning. */
  function CloseOff(cm: Costmap, extra: Raster<bool>): Costmap {
    Costmap(Raster(cm.cost.nx, cm.cost.ny, (i: int, j: int) => if extra.at(i, j) then Infinite else cm.cost.at(i, j)),
            Or(cm.lethal, extra), cm.unknown, cm.distance)
  }

  /**
   However many times more cells are closed off, the costmap still covers the hits
   and prices every cell by its distance, the closed ones infinitely.
   */
  lemma CloseOffKeeps(hypot: (real, real) -> real, exp: real -> real, grid: Raster<int>, f: Frame, cfg: Config, cm: Costmap,
                      extra: Raster<bool>)
    requires f.res > 0.0 && cfg.inflationDecay != 0.0
    ensures CoversHits(hypot, grid, f, cfg, cm.lethal) ==> CoversHits(hypot, grid, f, cfg, CloseOff(cm, extra).lethal)
    ensures CostSpec(exp, grid, f, cfg, cm) ==> CostSpec(exp, grid, f, cfg, CloseOff(cm, extra))
    ensures forall c :: CloseOff(cm, extra).lethal.Get(c) <==> cm.lethal.Get(c) || extra.Get(c)
  {
    hide LethalAt, CostAt, LethalRadius, CellNorm, Blocked;
  }
}
