/**
 The footprints at which downsampling loses clearance, end to end: grids on which
 `plan_local`, with the costmap it builds, hands out a path that cuts a hit.
 */
module CutCorners {
  import opened Options
  import opened Grid
  import opened Numbers
  import opened Rasters
  import opened Paths
  import opened Astar
  import opened BestEffort
  import opened StartRelax
  import opened LocalCostmap
  import opened Chords
  import opened Clearance
  import opened Downsampling
  import opened LocalPlanner

  /** Cells of one metre. */
  const FLAT: Frame := Frame(1.0, 0.0, 0.0)

  function CutConfig(phi: real): Config {
    Config(phi, true, 0.0, 1.0, 0.0, 0.0, false, false, 0, 0.0)
  }

  /** Shortest paths, no extra clearance, and the default endpoint rules. */
  function CutPlan(phi: real, step: int): PlanConfig {
    PlanConfig(CutConfig(phi), 0.0, 1.0, 100, 0, 0, step, 1.0, 3.0, 4.0)
  }

  /** Three by two: hits, but for a way around the middle one. */
  const HALL: Raster<int> :=
    Raster(3, 2, (i: int, j: int) => if (i == 0 && j == 0) || (i == 1 && j == 1) || (i == 2 && j == 0) then 1 else 0)

  /** Four by three: two hits, with one short way past the nearer. */
  const NOOK: Raster<int> := Raster(4, 3, (i: int, j: int) => if (i == 2 && j == 2) || (i == 0 && j == 0) then 0 else 1)

  const HALL_WAY: seq<Cell> := [Cell(0, 0), Cell(1, 1), Cell(2, 0)]
  const NOOK_WAY: seq<Cell> := [Cell(0, 2), Cell(1, 1), Cell(2, 0), Cell(3, 1)]

  predicate InHall(c: Cell) {
    c == Cell(0, 0) || c == Cell(1, 1) || c == Cell(2, 0)
  }

  predicate InNook(c: Cell) {
    c == Cell(0, 2) || c == Cell(1, 1) || c == Cell(2, 0) || c == Cell(3, 1) || c == Cell(3, 0)
  }

  // ── which cells are lethal ──

  /** Between whole cells, nearer than the radius is a matter of squares. */
  lemma NearerIs(norm: (int, int) -> real, radius: real, x: int, y: int)
    requires IsHypot(norm) && radius >= 0.0
    ensures norm(x, y) < radius <==> (SquareSum(x, y) as real) < Square(radius)
  {
    var d := norm(x, y);
    assert d >= 0.0 && d * d == SquareSum(x, y) as real;
    hide SquareSum, IsHypot;
    if d < radius { StrictSquare(d, radius); } else if d > radius { StrictSquare(radius, d); }
  }

  /** The lethal cells of a grid, by squared distance to its hits. */
  ghost predicate NearHit(grid: Raster<int>, square: real, c: Cell) {
    exists b: Cell :: grid.Has(b) && grid.Get(b) == 0 && (SquareSum(c.i - b.i, c.j - b.j) as real) < square
  }

  lemma SelfSquare(c: Cell)
    ensures SquareSum(c.i - c.i, c.j - c.j) == 0
  {
  }

  lemma ZeroSquare()
    ensures Square(0.0) == 0.0
  {
  }

  lemma DiskIs(norm: (int, int) -> real, grid: Raster<int>, blocked: Raster<bool>, radius: real, c: Cell)
    requires IsHypot(norm) && radius > 0.0 && grid.Has(c) && blocked.Has(c)
    requires forall b: Cell :: SetAt(blocked, b) <==> grid.Has(b) && grid.Get(b) == 0
    ensures LethalAt(norm, blocked, radius, c) <==> NearHit(grid, Square(radius), c)
  {
    hide IsHypot, Square, SquareSum;
    assert SetAt(blocked, c) <==> blocked.Get(c);
    hide SetAt;
    SelfSquare(c);
    StrictSquare(0.0, radius);
    ZeroSquare();
    if blocked.Get(c) { assert (SquareSum(c.i - c.i, c.j - c.j) as real) < Square(radius); }
    if NearHit(grid, Square(radius), c) {
      var b: Cell :| grid.Has(b) && grid.Get(b) == 0 && (SquareSum(c.i - b.i, c.j - b.j) as real) < Square(radius);
      NearerIs(norm, radius, c.i - b.i, c.j - b.j);
      assert SetAt(blocked, b) && Within(norm, radius, b, c);
    }
    if InDisk(norm, blocked, radius, c) {
      var b: Cell :| SetAt(blocked, b) && Within(norm, radius, b, c);
      NearerIs(norm, radius, c.i - b.i, c.j - b.j);
    }
  }

  lemma LethalIs(hypot: (real, real) -> real, phi: real, grid: Raster<int>, lethal: Raster<bool>, c: Cell)
    requires IsMetricHypot(hypot) && phi > 0.0 && LethalSpec(hypot, grid, FLAT, CutConfig(phi), lethal) && grid.Has(c)
    ensures lethal.Get(c) <==> NearHit(grid, Square(phi + PAD), c)
  {
    var norm, blocked := CellNorm(hypot), Blocked(hypot, grid, FLAT, CutConfig(phi));
    CellNormIsHypot(hypot);
    RadiusInCells(CutConfig(phi), 1.0);
    PadValue();
    hide IsMetricHypot, IsHypot, CellNorm, LethalRadius, Square, SquareSum, LethalAt, NearHit;
    assert forall b: Cell :: SetAt(blocked, b) <==> grid.Has(b) && grid.Get(b) == 0;
    DiskIs(norm, grid, blocked, phi + PAD, c);
  }

  lemma HallHit(c: Cell)
    requires HALL.Has(c)
    ensures HALL.Get(c) == 0 <==> !InHall(c)
  {
    assert c == Cell(c.i, c.j);
  }

  lemma SquareApart(x: int, y: int)
    requires SquareSum(x, y) < 1
    ensures x == 0 && y == 0
  {
  }

  lemma SquareApartReal(x: int, y: int, square: real)
    requires square <= 1.0 && (SquareSum(x, y) as real) < square
    ensures x == 0 && y == 0
  {
    SquareApart(x, y);
  }

  /** A radius of at most a cell takes in the hits alone. */
  lemma OnlyHits(grid: Raster<int>, square: real, c: Cell)
    requires 0.0 < square <= 1.0 && grid.Has(c)
    ensures NearHit(grid, square, c) <==> grid.Get(c) == 0
  {
    SelfSquare(c);
    hide SquareSum;
    if NearHit(grid, square, c) {
      var b: Cell :| grid.Has(b) && grid.Get(b) == 0 && (SquareSum(c.i - b.i, c.j - b.j) as real) < square;
      SquareApartReal(c.i - b.i, c.j - b.j, square);
      assert b == c;
    }
  }

  /** In the hall exactly the way is free. */
  lemma HallFree(hypot: (real, real) -> real, phi: real, lethal: Raster<bool>, c: Cell)
    requires IsMetricHypot(hypot) && 0.0 < phi <= 1.0 - PAD && LethalSpec(hypot, HALL, FLAT, CutConfig(phi), lethal)
    ensures HALL.Has(c) && !lethal.Get(c) <==> InHall(c)
  {
    PadValue();
    ProductLower(1.0, 1.0, phi + PAD, phi + PAD);
    StrictSquare(0.0, phi + PAD);
    hide LethalSpec, IsMetricHypot;
    if HALL.Has(c) {
      LethalIs(hypot, phi, HALL, lethal, c);
      OnlyHits(HALL, Square(phi + PAD), c);
      HallHit(c);
    }
  }

  lemma BeyondOne(phi: real)
    requires phi > 0.0 && Square(phi) > 0.4
    ensures Square(phi + PAD) > 1.0
  {
    PadValue();
    if phi <= 0.6 { ProductLower(0.6, 0.6, phi, phi); }
    StrictSquare(1.0, phi + PAD);
  }

  lemma NextTo(x: int, y: int)
    ensures SquareSum(x, y) < 2 <==> Abs(x) + Abs(y) <= 1
  {
    if Abs(x) >= 2 { FarSquare(x, 2); FarSquare(y, 0); }
    if Abs(y) >= 2 { FarSquare(y, 2); FarSquare(x, 0); }
  }

  /** A hit, or straight beside one. */
  ghost predicate Touches(grid: Raster<int>, c: Cell) {
    exists b: Cell :: grid.Has(b) && grid.Get(b) == 0 && Abs(c.i - b.i) + Abs(c.j - b.j) <= 1
  }

  lemma WholeSquare(s: int, square: real)
    requires 1.0 < square <= 2.0
    ensures (s as real) < square <==> s < 2
  {
  }

  /** A radius between one cell and a diagonal takes in the hits and what lies straight beside them. */
  lemma HitsAndBeside(grid: Raster<int>, square: real, c: Cell)
    requires 1.0 < square <= 2.0 && grid.Has(c)
    ensures NearHit(grid, square, c) <==> Touches(grid, c)
  {
    hide SquareSum, Abs;
    if NearHit(grid, square, c) {
      var b: Cell :| grid.Has(b) && grid.Get(b) == 0 && (SquareSum(c.i - b.i, c.j - b.j) as real) < square;
      WholeSquare(SquareSum(c.i - b.i, c.j - b.j), square);
      NextTo(c.i - b.i, c.j - b.j);
    }
    if Touches(grid, c) {
      var b: Cell :| grid.Has(b) && grid.Get(b) == 0 && Abs(c.i - b.i) + Abs(c.j - b.j) <= 1;
      WholeSquare(SquareSum(c.i - b.i, c.j - b.j), square);
      NextTo(c.i - b.i, c.j - b.j);
    }
  }

  lemma NookTouches(c: Cell)
    requires NOOK.Has(c)
    ensures Touches(NOOK, c) <==> !InNook(c)
  {
    var far, near := Cell(0, 0), Cell(2, 2);
    assert NOOK.Has(far) && NOOK.Get(far) == 0 && NOOK.Has(near) && NOOK.Get(near) == 0;
    if Touches(NOOK, c) {
      var b: Cell :| NOOK.Has(b) && NOOK.Get(b) == 0 && Abs(c.i - b.i) + Abs(c.j - b.j) <= 1;
      assert b == far || b == near;
    } else {
      assert Abs(c.i - far.i) + Abs(c.j - far.j) > 1 && Abs(c.i - near.i) + Abs(c.j - near.j) > 1;
    }
  }

  lemma NookFree(hypot: (real, real) -> real, phi: real, lethal: Raster<bool>, c: Cell)
    requires IsMetricHypot(hypot) && phi > 0.0 && Square(phi) > 0.4 && Square(phi + PAD) <= 2.0
    requires LethalSpec(hypot, NOOK, FLAT, CutConfig(phi), lethal)
    ensures NOOK.Has(c) && !lethal.Get(c) <==> InNook(c)
  {
    PadValue();
    BeyondOne(phi);
    hide LethalSpec, IsMetricHypot, Square;
    if NOOK.Has(c) {
      LethalIs(hypot, phi, NOOK, lethal, c);
      HitsAndBeside(NOOK, Square(phi + PAD), c);
      NookTouches(c);
    }
  }

  // ── which path the search finds ──

  lemma {:induction false} FlatCost(w: World, p: seq<Cell>)
    requires forall a, b :: w.step(a, b) == Base(a, b)
    ensures Cost(w, p) == Length(p)
  {
    if |p| > 1 { FlatCost(w, p[..|p| - 1]); }
  }

  /** With halo costs off, the plan reaches a reachable goal by a shortest route. */
  lemma ShortestFound(hypot: (real, real) -> real, cfg: PlanConfig, cm: Costmap, goal: Cell, n: nat, b: Basis, p: seq<Cell>)
    requires Searched(hypot, cfg, cm, goal, n, b) && b.mask.None? && b.lethal.Has(b.from) && !b.lethal.Get(b.from)
    requires cfg.perUnit == 0.0 && cfg.hWeight == 1.0 && cfg.maxExpansions > CellCount(b.lethal)
    requires Route(PlanWorld(cfg, cm, b.lethal), p, b.from, goal)
    ensures b.msg == Ok && b.trace.end == goal && Route(PlanWorld(cfg, cm, b.lethal), b.cells, b.from, goal) && Length(b.cells) <= Length(p)
  {
    var w := PlanWorld(cfg, cm, b.lethal);
    assert forall a, c :: w.step(a, c) == Base(a, c);
    hide Chosen, Base, Cost, Length, Adjacent;
    assert NonNegative(w);
    hide NonNegative;
    assert Reachable(w, b.from, goal);
    assert PlanRanking(hypot, cfg, b.mask, b.from, goal).Accepts(goal);
    assert b.msg == Ok;
    assert Route(w, b.cells, b.from, goal) && Optimal(w, b.cells, 1.0);
    FlatCost(w, p);
    FlatCost(w, b.cells);
  }

  lemma LengthStep(p: seq<Cell>)
    requires |p| > 1
    ensures Length(p) == Length(p[..|p| - 1]) + Base(p[|p| - 2], p[|p| - 1])
  {
  }

  lemma {:induction false} LengthAtLeast(p: seq<Cell>)
    ensures Length(p) >= (|p| - 1) as real
  {
    if |p| > 1 {
      LengthAtLeast(p[..|p| - 1]);
      assert Base(p[|p| - 2], p[|p| - 1]) >= 1.0;
    }
  }

  lemma LengthOf3(p: seq<Cell>)
    requires |p| == 3
    ensures Length(p) == Base(p[0], p[1]) + Base(p[1], p[2])
  {
    LengthStep(p);
    LengthStep(p[..2]);
  }

  lemma LengthOf4(p: seq<Cell>)
    requires |p| == 4
    ensures Length(p) == Base(p[0], p[1]) + Base(p[1], p[2]) + Base(p[2], p[3])
  {
    LengthStep(p);
    LengthOf3(p[..3]);
  }

  lemma LengthOf5(p: seq<Cell>)
    requires |p| == 5
    ensures Length(p) == Base(p[0], p[1]) + Base(p[1], p[2]) + Base(p[2], p[3]) + Base(p[3], p[4])
  {
    LengthStep(p);
    LengthOf4(p[..4]);
  }

  lemma Link(w: World, p: seq<Cell>, k: nat)
    requires IsPath(w, p) && 0 < k < |p|
    ensures Adjacent(p[k - 1], p[k]) && w.open(p[k])
  {
  }

  /** A walk takes at least one move for each column. */
  lemma {:induction false} ColumnsTakeMoves(w: World, p: seq<Cell>)
    requires IsPath(w, p)
    ensures p[|p| - 1].i - p[0].i <= |p| - 1
  {
    if |p| > 1 {
      ColumnsTakeMoves(w, p[..|p| - 1]);
      Link(w, p, |p| - 1);
    }
  }

  lemma HallRoute(w: World, p: seq<Cell>)
    requires forall c :: w.open(c) <==> InHall(c)
    requires Route(w, p, Cell(0, 0), Cell(2, 0)) && Length(p) <= Length(HALL_WAY)
    ensures p == HALL_WAY
  {
    LengthOf3(HALL_WAY);
    LengthAtLeast(p);
    ColumnsTakeMoves(w, p);
    hide Length;
    assert |p| == 3;
    Link(w, p, 1);
    Link(w, p, 2);
  }

  /** Four moves through the nook are longer than the way. */
  lemma NookFive(w: World, p: seq<Cell>)
    requires forall c :: w.open(c) <==> InNook(c)
    requires Route(w, p, Cell(0, 2), Cell(3, 1)) && |p| == 5
    ensures Length(p) > Length(NOOK_WAY)
  {
    LengthOf4(NOOK_WAY);
    LengthOf5(p);
    hide Length;
    Link(w, p, 1);
    Link(w, p, 2);
    Link(w, p, 3);
    Link(w, p, 4);
  }

  lemma NookRoute(w: World, p: seq<Cell>)
    requires forall c :: w.open(c) <==> InNook(c)
    requires Route(w, p, Cell(0, 2), Cell(3, 1)) && Length(p) <= Length(NOOK_WAY)
    ensures p == NOOK_WAY
  {
    LengthOf4(NOOK_WAY);
    LengthAtLeast(p);
    ColumnsTakeMoves(w, p);
    if |p| == 5 { NookFive(w, p); }
    hide Length;
    assert |p| == 4;
    Link(w, p, 1);
    Link(w, p, 2);
    Link(w, p, 3);
  }

  // ── what the planner hands out ──

  lemma HallEnds(step: int)
    requires step >= 2
    ensures Downsample(HALL_WAY, step) == [Cell(0, 0), Cell(2, 0)]
  {
    if step == 2 { assert HALL_WAY[2..] == [Cell(2, 0)]; }
  }

  lemma NookEnds()
    ensures Downsample(NOOK_WAY, 3) == [Cell(0, 2), Cell(3, 1)]
  {
    assert NOOK_WAY[3..] == [Cell(3, 1)];
  }

  lemma NoDistance(hypot: (real, real) -> real)
    requires IsMetricHypot(hypot)
    ensures hypot(0.0, 0.0) == 0.0
  {
    var d := hypot(0.0, 0.0);
    assert d >= 0.0 && d * d == 0.0;
    if d > 0.0 { StrictSquare(0.0, d); }
  }

  /** Starting at the first cell's centre, the polyline is the kept centres. */
  lemma PointsAre(hypot: (real, real) -> real, cells: seq<Cell>, step: int)
    requires IsMetricHypot(hypot) && cells != []
    ensures PathPoints(hypot, FLAT, cells, step, Centre(FLAT, cells[0])) == Centres(FLAT, Downsample(cells, step))
  {
    NoDistance(hypot);
    DownsampleKeeps(cells, step);
    hide Downsample;
  }

  /** A plan on one of the grids runs along its way. */
  lemma PlanRuns(hypot: (real, real) -> real, cfg: PlanConfig, cm: Costmap, start: Point, goal: Cell, plan: Plan, b: Basis,
                 way: seq<Cell>)
    requires IsMetricHypot(hypot) && PlanSays(hypot, FLAT, cfg, start, goal, plan, b)
    requires b.cells == way && |way| > 1 && b.msg == Ok && start == Centre(FLAT, way[0])
    ensures plan.ok && plan.reason == Reached && plan.path == Centres(FLAT, Downsample(way, cfg.step))
  {
    PointsAre(hypot, way, cfg.step);
    hide PathPoints, Centres, Downsample, IsMetricHypot;
  }

  lemma NoMoves(c: Cell, d: Cell)
    requires Chebyshev(c, d) <= 0
    ensures c == d
  {
  }

  lemma SameLethal(cm: Costmap, lethal: Raster<bool>, c: Cell)
    requires IsBall(cm.lethal, lethal, 0) && cm.lethal.Has(c)
    ensures lethal.Has(c) && (lethal.Get(c) <==> cm.lethal.Get(c))
  {
    assert lethal.Get(c) <==> InBall(cm.lethal, 0, c);
    if cm.lethal.Get(c) { BallCovers(cm.lethal, lethal, 0, c); }
    hide IsBall, Chebyshev;
    if lethal.Get(c) {
      var d: Cell :| SetAt(cm.lethal, d) && Chebyshev(c, d) <= 0;
      NoMoves(c, d);
    }
  }

  /** The planner's world has the costmap's free cells. */
  lemma WorldIs(cfg: PlanConfig, cm: Costmap, lethal: Raster<bool>, grid: Raster<int>, c: Cell)
    requires IsBall(cm.lethal, lethal, 0) && SameShape(cm.lethal, grid)
    ensures PlanWorld(cfg, cm, lethal).open(c) <==> grid.Has(c) && !cm.lethal.Get(c)
  {
    if grid.Has(c) { SameLethal(cm, lethal, c); }
  }

  lemma OneSquare()
    ensures Square(1.0) == 1.0
  {
  }

  /** A point of the polyline between two centres, by offsets from a hit. */
  lemma CutPoint(a: Cell, b: Cell, o: Cell, t: real)
    ensures Distance2(Along(Centre(FLAT, a), Centre(FLAT, b), t), Centre(FLAT, o)) == PointSquare(Offset(a, o), Offset(b, o), t)
  {
    ScaledPoint(FLAT, a, b, o, t);
    hide Square, Distance2, Along, Centre, Mix;
    assert Square(FLAT.res) == 1.0 by { OneSquare(); }
  }

  lemma HallPoint()
    ensures PointSquare(Offset(Cell(0, 0), Cell(1, 0)), Offset(Cell(2, 0), Cell(1, 0)), 0.5) == 0.0
  {
    assert Mix(-1, 1, 0.5) == 0.0 && Mix(0, 0, 0.5) == 0.0;
    hide Mix;
  }

  lemma HallCut(phi: real, path: seq<Point>)
    requires phi > 0.0 && path == Centres(FLAT, [Cell(0, 0), Cell(2, 0)])
    ensures |path| == 2 && Distance2(Along(path[0], path[1], 0.5), Centre(FLAT, Cell(1, 0))) < Square(phi)
  {
    hide PointSquare, Offset, Distance2, Along, Centre, Square;
    HallPoint();
    ZeroSquare();
    StrictSquare(0.0, phi);
    CutPoint(Cell(0, 0), Cell(2, 0), Cell(1, 0), 0.5);
  }

  lemma NookPoint()
    ensures PointSquare(Offset(Cell(0, 2), Cell(2, 2)), Offset(Cell(3, 1), Cell(2, 2)), 0.6) == 0.4
  {
    assert Mix(-2, 1, 0.6) == -0.2 && Mix(0, -1, 0.6) == -0.6;
    hide Mix;
  }

  lemma NookCut(phi: real, path: seq<Point>)
    requires Square(phi) > 0.4 && path == Centres(FLAT, [Cell(0, 2), Cell(3, 1)])
    ensures |path| == 2 && Distance2(Along(path[0], path[1], 0.6), Centre(FLAT, Cell(2, 2))) < Square(phi)
  {
    hide PointSquare, Offset, Distance2, Along, Centre, Square;
    NookPoint();
    CutPoint(Cell(0, 2), Cell(3, 1), Cell(2, 2), 0.6);
  }

  lemma HallWayRoute(w: World)
    requires forall c :: w.open(c) <==> InHall(c)
    ensures Route(w, HALL_WAY, Cell(0, 0), Cell(2, 0)) && w.open(Cell(0, 0))
  {
  }

  lemma NookWayRoute(w: World)
    requires forall c :: w.open(c) <==> InNook(c)
    ensures Route(w, NOOK_WAY, Cell(0, 2), Cell(3, 1)) && w.open(Cell(0, 2))
  {
  }

  lemma OpenIsFree(cfg: PlanConfig, cm: Costmap, lethal: Raster<bool>, c: Cell)
    requires PlanWorld(cfg, cm, lethal).open(c)
    ensures lethal.Has(c) && !lethal.Get(c)
  {
  }

  /** The plan through the hall. */
  lemma HallPlan(hypot: (real, real) -> real, phi: real, step: int, cm: Costmap, n: nat, b: Basis)
    requires IsMetricHypot(hypot) && 0.0 < phi <= 1.0 - PAD && LethalSpec(hypot, HALL, FLAT, CutConfig(phi), cm.lethal)
    requires IsBall(cm.lethal, b.lethal, 0) && b.mask.None? && b.from == Cell(0, 0)
    requires Searched(hypot, CutPlan(phi, step), cm, Cell(2, 0), n, b)
    ensures b.msg == Ok && b.cells == HALL_WAY
  {
    var cfg := CutPlan(phi, step);
    var w := PlanWorld(cfg, cm, b.lethal);
    assert SameShape(cm.lethal, HALL);
    hide LethalSpec, IsMetricHypot, Searched, PlanWorld, Length, IsBall, InHall, Route;
    forall c ensures w.open(c) <==> InHall(c) {
      HallFree(hypot, phi, cm.lethal, c);
      WorldIs(cfg, cm, b.lethal, HALL, c);
    }
    BallShape(cm.lethal, b.lethal, 0);
    HallWayRoute(w);
    OpenIsFree(cfg, cm, b.lethal, b.from);
    ShortestFound(hypot, cfg, cm, Cell(2, 0), n, b, HALL_WAY);
    HallRoute(w, b.cells);
  }

  lemma NookPlan(hypot: (real, real) -> real, phi: real, cm: Costmap, n: nat, b: Basis)
    requires IsMetricHypot(hypot) && phi > 0.0 && Square(phi) > 0.4 && Square(phi + PAD) <= 2.0
    requires LethalSpec(hypot, NOOK, FLAT, CutConfig(phi), cm.lethal)
    requires IsBall(cm.lethal, b.lethal, 0) && b.mask.None? && b.from == Cell(0, 2)
    requires Searched(hypot, CutPlan(phi, 3), cm, Cell(3, 1), n, b)
    ensures b.msg == Ok && b.cells == NOOK_WAY
  {
    var cfg := CutPlan(phi, 3);
    var w := PlanWorld(cfg, cm, b.lethal);
    assert SameShape(cm.lethal, NOOK);
    hide LethalSpec, IsMetricHypot, Searched, PlanWorld, Length, Square, IsBall, InNook, Route;
    forall c ensures w.open(c) <==> InNook(c) {
      NookFree(hypot, phi, cm.lethal, c);
      WorldIs(cfg, cm, b.lethal, NOOK, c);
    }
    BallShape(cm.lethal, b.lethal, 0);
    NookWayRoute(w);
    OpenIsFree(cfg, cm, b.lethal, b.from);
    ShortestFound(hypot, cfg, cm, Cell(3, 1), n, b, NOOK_WAY);
    NookRoute(w, b.cells);
  }

  /** The planner on a grid, from cell centre to cell centre, with the costmap it builds. */
  method PlanOn(hypot: (real, real) -> real, exp: real -> real, grid: Raster<int>, phi: real, step: int, from: Cell, goal: Cell)
    returns (plan: Plan, ghost cm: Costmap, ghost b: Basis)
    requires IsMetricHypot(hypot) && grid.Has(from) && grid.Has(goal)
    ensures LethalSpec(hypot, grid, FLAT, CutConfig(phi), cm.lethal) && IsBall(cm.lethal, b.lethal, 0)
    ensures !cm.lethal.Get(from) ==>
      && b.from == from && b.mask == None && Searched(hypot, CutPlan(phi, step), cm, goal, plan.expansions, b)
      && PlanSays(hypot, FLAT, CutPlan(phi, step), Centre(FLAT, from), goal, plan, b)
  {
    hide IsMetricHypot, CostSpec, DistanceSpec, Searched, PlanSays, WorldToCell, IsNearest, FreePath, RelaxRadius, Centre, IsBall, LethalAt;
    CentreRoundTrip(from, FLAT);
    CentreRoundTrip(goal, FLAT);
    var built, dist := BuildLocalCostmap(hypot, exp, grid, FLAT, CutConfig(phi));
    cm := built.value;
    plan, b := PlanLocal(hypot, grid, FLAT, Centre(FLAT, goal), CutPlan(phi, step), built.value, Centre(FLAT, from));
    SameLethal(cm, b.lethal, from);
  }

  /**
   For every footprint of at most `1 - pad` cells and every step from two on, the
   planner run on the hall hands out a path straight through a hit.
   */
  method PlanThroughHall(hypot: (real, real) -> real, exp: real -> real, phi: real, step: int) returns (plan: Plan)
    requires IsMetricHypot(hypot) && 0.0 < phi <= 1.0 - PAD && step >= 2
    ensures plan.ok && plan.reason == Reached && |plan.path| == 2 && HALL.Get(Cell(1, 0)) == 0
    ensures Distance2(Along(plan.path[0], plan.path[1], 0.5), Centre(FLAT, Cell(1, 0))) < Square(phi)
  {
    hide IsMetricHypot, LethalSpec, IsBall, Searched, PlanSays, Square, Distance2, Along, Centre, Downsample, PathPoints, Centres;
    ghost var cm, b;
    plan, cm, b := PlanOn(hypot, exp, HALL, phi, step, Cell(0, 0), Cell(2, 0));
    HallFree(hypot, phi, cm.lethal, Cell(0, 0));
    HallPlan(hypot, phi, step, cm, plan.expansions, b);
    PlanRuns(hypot, CutPlan(phi, step), cm, Centre(FLAT, Cell(0, 0)), Cell(2, 0), plan, b, HALL_WAY);
    HallEnds(step);
    HallCut(phi, plan.path);
  }

  /** And for every footprint of the second band, at the default step, one too near a hit. */
  method PlanThroughNook(hypot: (real, real) -> real, exp: real -> real, phi: real) returns (plan: Plan)
    requires IsMetricHypot(hypot) && phi > 0.0 && Square(phi) > 0.4 && Square(phi + PAD) <= 2.0
    ensures plan.ok && plan.reason == Reached && |plan.path| == 2 && NOOK.Get(Cell(2, 2)) == 0
    ensures Distance2(Along(plan.path[0], plan.path[1], 0.6), Centre(FLAT, Cell(2, 2))) < Square(phi)
  {
    hide IsMetricHypot, LethalSpec, IsBall, Searched, PlanSays, Square, Distance2, Along, Centre, Downsample, PathPoints, Centres;
    ghost var cm, b;
    plan, cm, b := PlanOn(hypot, exp, NOOK, phi, 3, Cell(0, 2), Cell(3, 1));
    NookFree(hypot, phi, cm.lethal, Cell(0, 2));
    NookPlan(hypot, phi, cm, plan.expansions, b);
    PlanRuns(hypot, CutPlan(phi, 3), cm, Centre(FLAT, Cell(0, 2)), Cell(3, 1), plan, b, NOOK_WAY);
    NookEnds();
    NookCut(phi, plan.path);
  }
}
