/** `plan_local` of body/lib/local_planner.py, and what its path promises the follower. */
module LocalPlanner {
  import opened Options
  import opened Grid
  import opened Numbers
  import opened Rasters
  import opened Paths
  import opened Astar
  import opened BestEffort
  import opened StartRelax
  import opened LocalCostmap
  import opened Chords
  import opened Clearance
  import opened Downsampling

  /** `LocalPlanConfig` */
  datatype PlanConfig = PlanConfig(
    costmap: Config,
    perUnit: real,
    hWeight: real,
    maxExpansions: int,
    minClearance: int,
    goalClearance: int,
    step: int,
    tie: real,
    detourRatio: real,
    detourSlack: real)

  datatype Reason =
    | Reached | Snapped | AtBest
    | AtFrontier | BoxedIn | StartBlocked | StartOutOfMap | GoalOutOfMap

  /** `LocalPlan`; `Reached`, `Snapped` and `AtBest` stand for "ok", "snapped" and "frontier". */
  datatype Plan = Plan(ok: bool, path: seq<Point>, end: Option<Point>, reason: Reason, expansions: nat)

  function CellIndex(x: real, origin: real, res: real): int
    requires res > 0.0
  {
    ((x - origin) / res + 0.000000001).Floor
  }

  /** `_world_to_cell` */
  function WorldToCell(p: Point, f: Frame): Cell
    requires f.res > 0.0
  {
    Cell(CellIndex(p.x, f.ox, f.res), CellIndex(p.y, f.oy, f.res))
  }

  /** A coordinate lies in the k-th stretch of length `res`, edges shifted down by a billionth of it. */
  predicate InStretch(x: real, origin: real, res: real, k: int) {
    origin + k as real * res <= x + 0.000000001 * res < origin + (k + 1) as real * res
  }

  /** The point lies in the square of cell `c`. */
  predicate InCell(p: Point, f: Frame, c: Cell) {
    InStretch(p.x, f.ox, f.res, c.i) && InStretch(p.y, f.oy, f.res, c.j)
  }

  /** The point lies on the map of `nx` by `ny` cells. */
  predicate OnMap(p: Point, f: Frame, nx: nat, ny: nat) {
    && f.ox <= p.x + 0.000000001 * f.res < f.ox + nx as real * f.res
    && f.oy <= p.y + 0.000000001 * f.res < f.oy + ny as real * f.res
  }

  /** A coordinate, measured in cells from the edge, against a whole number of them. */
  lemma InCells(x: real, origin: real, res: real, k: int)
    requires res > 0.0
    ensures k as real <= (x - origin) / res + 0.000000001 <==> origin + k as real * res <= x + 0.000000001 * res
  {
    var q := (x - origin) / res + 0.000000001;
    assert q * res == x - origin + 0.000000001 * res;
    TimesMonotone(k as real, q, res);
  }

  lemma IndexIsStretch(x: real, origin: real, res: real, k: int)
    requires res > 0.0
    ensures CellIndex(x, origin, res) == k <==> InStretch(x, origin, res, k)
    ensures CellIndex(x, origin, res) >= k <==> origin + k as real * res <= x + 0.000000001 * res
  {
    InCells(x, origin, res, k);
    InCells(x, origin, res, k + 1);
  }

  /** Every point falls in the cell whose square holds it, and in no other. */
  lemma CellHolds(p: Point, f: Frame, c: Cell)
    requires f.res > 0.0
    ensures WorldToCell(p, f) == c <==> InCell(p, f, c)
  {
    hide CellIndex, InStretch;
    IndexIsStretch(p.x, f.ox, f.res, c.i);
    IndexIsStretch(p.y, f.oy, f.res, c.j);
  }

  lemma OnMapHasCell<T>(p: Point, f: Frame, grid: Raster<T>)
    requires f.res > 0.0
    ensures grid.Has(WorldToCell(p, f)) <==> OnMap(p, f, grid.nx, grid.ny)
  {
    hide CellIndex;
    IndexIsStretch(p.x, f.ox, f.res, 0);
    IndexIsStretch(p.x, f.ox, f.res, grid.nx);
    IndexIsStretch(p.y, f.oy, f.res, 0);
    IndexIsStretch(p.y, f.oy, f.res, grid.ny);
  }

  /** A cell's centre is found back in its cell. */
  lemma CentreRoundTrip(c: Cell, f: Frame)
    requires f.res > 0.0
    ensures WorldToCell(Centre(f, c), f) == c
  {
    assert InCell(Centre(f, c), f, c);
    CellHolds(Centre(f, c), f, c);
  }

  // ── planning ──

  /** Every cell of the path, the first included, is free. */
  ghost predicate FreePath(lethal: Raster<bool>, cells: seq<Cell>) {
    && cells != []
    && (forall k :: 0 <= k < |cells| ==> lethal.Has(cells[k]) && !lethal.Get(cells[k]))
    && forall k :: 0 < k < |cells| ==> Adjacent(cells[k - 1], cells[k])
  }

  lemma RouteIsFree(lethal: Raster<bool>, cost: Raster<real>, perUnit: real, p: seq<Cell>, a: Cell, b: Cell)
    requires Route(CostmapWorld(lethal, cost, perUnit), p, a, b) && lethal.Has(a) && !lethal.Get(a)
    ensures FreePath(lethal, p)
  {
  }

  /** The planner's grid only ever adds lethal cells to the costmap's. */
  lemma BallCovers(mask: Raster<bool>, out: Raster<bool>, n: nat, c: Cell)
    requires IsBall(mask, out, n) && mask.Has(c) && mask.Get(c)
    ensures out.Get(c)
  {
    ChebyshevSelf(c);
  }

  /** Some neighbour of `c` is free. */
  ghost predicate FreeNeighbor(lethal: Raster<bool>, c: Cell) {
    exists n :: Adjacent(c, n) && lethal.Has(n) && !lethal.Get(n)
  }

  /** `any(...)` over the eight neighbours. */
  method HasFreeNeighbor(lethal: Raster<bool>, c: Cell) returns (r: bool)
    ensures r <==> FreeNeighbor(lethal, c)
  {
    hide Adjacent;
    r := false;
    for k := 0 to 8
      invariant r <==> exists m :: 0 <= m < k && lethal.Has(Neighbor(c, m)) && !lethal.Get(Neighbor(c, m))
    {
      NeighborTable(c, Neighbor(c, k));
      r := r || (lethal.Has(Neighbor(c, k)) && !lethal.Get(Neighbor(c, k)));
    }
    forall n | Adjacent(c, n) && lethal.Has(n) && !lethal.Get(n) ensures r {
      NeighborTable(c, n);
    }
    if r {
      var m :| 0 <= m < 8 && lethal.Has(Neighbor(c, m)) && !lethal.Get(Neighbor(c, m));
      NeighborTable(c, Neighbor(c, m));
    }
  }

  /** The endpoint mask: cells farther than `goal_clearance_cells` king's moves from anything lethal. */
  ghost predicate IsGoalMask(lethal: Raster<bool>, iters: int, mask: Option<Raster<bool>>) {
    if iters <= 0 then mask.None?
    else mask.Some? && SameShape(mask.value, lethal)
         && forall c: Cell :: lethal.Has(c) ==> (mask.value.Get(c) <==> !InBall(lethal, iters, c))
  }

  method GoalMask(lethal: Raster<bool>, iters: int) returns (mask: Option<Raster<bool>>)
    ensures IsGoalMask(lethal, iters, mask)
  {
    if iters <= 0 { return None; }
    hide InBall;
    var near := DilateBool(lethal, iters);
    mask := Some(Raster(lethal.nx, lethal.ny, (i: int, j: int) => !near.at(i, j)));
  }

  /** `radius` of the start relaxation. */
  function RelaxRadius(cfg: PlanConfig, res: real): int
    requires res > 0.0
  {
    Ceil(LethalRadius(cfg.costmap, res) / res) + 1 + cfg.minClearance
  }

  /** Less the extra clearance and one more, the radius is the fewest whole cells that cover the lethal radius. */
  lemma RelaxRadiusIs(cfg: PlanConfig, res: real) returns (n: int)
    requires res > 0.0
    ensures RelaxRadius(cfg, res) == n + 1 + cfg.minClearance
    ensures (n - 1) as real * res < LethalRadius(cfg.costmap, res) <= n as real * res
  {
    n := CeilCovers(LethalRadius(cfg.costmap, res), res);
    hide LethalRadius, Ceil;
  }

  /** `grid == 0` */
  function Hits(grid: Raster<int>): Raster<bool> {
    Raster(grid.nx, grid.ny, (i: int, j: int) => grid.at(i, j) == 0)
  }

  lemma HitsAre(grid: Raster<int>, c: Cell)
    ensures SetAt(Hits(grid), c) <==> grid.Has(c) && grid.Get(c) == 0
  {
  }

  /** Step out of a lethal start, never across a hit. */
  method FreeStart(norm: (int, int) -> real, grid: Raster<int>, lethal: Raster<bool>, at: Cell, cfg: PlanConfig, res: real)
    returns (from: Option<Cell>)
    requires res > 0.0 && lethal.Has(at)
    ensures !lethal.Get(at) ==> from == Some(at)
    ensures lethal.Get(at) ==>
              IsNearest(norm, lethal, at, RelaxRadius(cfg, res), Hits(grid), from)
    ensures from.Some? ==> lethal.Has(from.value) && !lethal.Get(from.value)
  {
    if lethal.Get(at) {
      from := NearestNonLethal(norm, lethal, at, RelaxRadius(cfg, res), Hits(grid));
    } else {
      from := Some(at);
    }
  }

  /** `msg` as `plan_local` reports it. */
  function Classify(hypot: (real, real) -> real, msg: Outcome, end: Cell, goal: Cell, goalLethal: bool,
                    mask: Option<Raster<bool>>, minClearance: int): Reason {
    if msg == Ok then Reached
    else if goalLethal then
      if hypot((end.i - goal.i) as real, (end.j - goal.j) as real) <= Max(8, 6 + 2 * minClearance) as real
      then Snapped else AtBest
    else if mask.Some? && !mask.value.Get(goal) then Snapped
    else AtBest
  }

  function Centres(f: Frame, cells: seq<Cell>): seq<Point> {
    seq(|cells|, k requires 0 <= k < |cells| => Centre(f, cells[k]))
  }

  /** The polyline handed to the follower: the downsampled centres, anchored at the robot when it is off the first. */
  function PathPoints(hypot: (real, real) -> real, f: Frame, cells: seq<Cell>, step: int, start: Point): seq<Point> {
    var pts := Centres(f, Downsample(cells, step));
    if pts != [] && hypot(pts[0].x - start.x, pts[0].y - start.y) > f.res then [start] + pts else pts
  }

  /**
   The polyline: the kept centres in order, ending at that of the last cell, with
   the robot's own position put before them exactly when it is more than a cell
   from the first.
   */
  lemma PathPointsAre(hypot: (real, real) -> real, f: Frame, cells: seq<Cell>, step: int, start: Point)
    requires cells != []
    ensures var kept, pts := Downsample(cells, step), PathPoints(hypot, f, cells, step, start);
      var first := Centre(f, cells[0]);
      var extra := if hypot(first.x - start.x, first.y - start.y) <= f.res then 0 else 1;
      && kept != [] && |pts| == |kept| + extra && (extra == 1 ==> pts[0] == start)
      && (forall k :: 0 <= k < |kept| ==> pts[k + extra] == Centre(f, kept[k]))
      && pts[|pts| - 1] == Centre(f, cells[|cells| - 1])
  {
    DownsampleKeeps(cells, step);
    hide Downsample;
  }

  /** The costs the search reads; it never reads a lethal cell's, which are the infinite ones. */
  function Prices(cost: Raster<Price>): Raster<real> {
    Raster(cost.nx, cost.ny, (i: int, j: int) => match cost.at(i, j) case Finite(v) => v case Infinite => 0.0)
  }

  /** What a plan is made from: the searched grid, the endpoint mask, the free start and what the search answered. */
  datatype Basis = Basis(lethal: Raster<bool>, mask: Option<Raster<bool>>, from: Cell, cells: seq<Cell>, msg: Outcome, trace: Trace)

  /** How the planner ranks endpoints. */
  function PlanRanking(hypot: (real, real) -> real, cfg: PlanConfig, mask: Option<Raster<bool>>, from: Cell, goal: Cell): Ranking {
    MakeRanking(CellNorm(hypot), from, goal, mask, cfg.tie, cfg.detourRatio, cfg.detourSlack)
  }

  function PlanWorld(cfg: PlanConfig, cm: Costmap, lethal: Raster<bool>): World {
    CostmapWorld(lethal, Prices(cm.cost), cfg.perUnit)
  }

  /** The search was asked for the goal, and this is an answer its contract allows. */
  ghost predicate Searched(hypot: (real, real) -> real, cfg: PlanConfig, cm: Costmap, goal: Cell, expansions: nat, b: Basis) {
    Answers(PlanRanking(hypot, cfg, b.mask, b.from, goal), Prices(cm.cost), b.lethal, b.from, goal, cfg.perUnit, cfg.hWeight,
            cfg.maxExpansions, b.cells, expansions, b.msg, b.trace)
  }

  /** The call of `astar_toward`. */
  method Search(hypot: (real, real) -> real, cfg: PlanConfig, cm: Costmap, lethal: Raster<bool>, mask: Option<Raster<bool>>,
                from: Cell, goal: Cell)
    returns (cells: seq<Cell>, expansions: nat, msg: Outcome, ghost trace: Trace)
    requires IsGoalMask(lethal, cfg.goalClearance, mask) && lethal.Has(from)
    ensures Searched(hypot, cfg, cm, goal, expansions, Basis(lethal, mask, from, cells, msg, trace))
  {
    hide Answers;
    cells, expansions, msg, trace :=
      AstarToward(PlanRanking(hypot, cfg, mask, from, goal), Prices(cm.cost), lethal, from, goal, cfg.perUnit, cfg.hWeight,
                  cfg.maxExpansions);
  }

  /** The cell path is a free route from the free start to the end, and no more than the start exactly without progress. */
  lemma SearchedPath(hypot: (real, real) -> real, cfg: PlanConfig, cm: Costmap, goal: Cell, expansions: nat, b: Basis)
    requires Searched(hypot, cfg, cm, goal, expansions, b) && b.lethal.Has(b.from) && !b.lethal.Get(b.from)
    ensures b.cells != [] && b.cells[0] == b.from && FreePath(b.lethal, b.cells)
    ensures b.msg != NoPath ==> b.cells[|b.cells| - 1] == b.trace.end
    ensures |b.cells| <= 1 <==> b.msg == NoPath || (b.msg == Ok && b.from == goal)
  {
    hide Chosen, TreeOptimal, Exhausted, NonNegative;
    var w, x := PlanWorld(cfg, cm, b.lethal), b.trace;
    if b.msg == NoPath {
      assert Route(w, [b.from], b.from, b.from);
      RouteIsFree(b.lethal, Prices(cm.cost), cfg.perUnit, b.cells, b.from, b.from);
    } else {
      assert Route(w, x.settled[x.end], b.from, x.end);
      RouteIsFree(b.lethal, Prices(cm.cost), cfg.perUnit, b.cells, b.from, x.end);
    }
  }

  /** `math.hypot` between two cells, in cells. */
  function Remote(hypot: (real, real) -> real, goal: Cell, c: Cell): real {
    hypot((c.i - goal.i) as real, (c.j - goal.j) as real)
  }

  /** `snapped`: the goal is lethal and the end within the snap radius, or the goal itself is not accepted. */
  ghost predicate SnapsTo(hypot: (real, real) -> real, cfg: PlanConfig, b: Basis, goal: Cell, end: Cell) {
    if b.lethal.Get(goal) then
      Remote(hypot, goal, end) <= Max(8, 6 + 2 * cfg.minClearance) as real
    else b.mask.Some? && !b.mask.value.Get(goal)
  }

  /** What a plan that got as far as searching says, and when. */
  ghost predicate PlanSays(hypot: (real, real) -> real, f: Frame, cfg: PlanConfig, start: Point, goal: Cell, plan: Plan, b: Basis) {
    && (plan.ok <==> |b.cells| > 1)
    && (plan.reason == Reached <==> plan.ok && b.msg == Ok)
    && (plan.reason == Snapped <==> b.msg == Frontier && SnapsTo(hypot, cfg, b, goal, b.trace.end))
    && (plan.reason == AtBest <==> b.msg == Frontier && !SnapsTo(hypot, cfg, b, goal, b.trace.end))
    && (plan.reason == AtFrontier <==> !plan.ok && FreeNeighbor(b.lethal, b.from))
    && (plan.reason == BoxedIn <==> !plan.ok && !FreeNeighbor(b.lethal, b.from))
    && plan.path == (if plan.ok then PathPoints(hypot, f, b.cells, cfg.step, start) else [])
    && plan.end == Some(Centre(f, if plan.ok then b.trace.end else b.from))
  }

  /** The grid the planner searches: the costmap's lethal cells grown by the extra clearance. */
  method PlannerGrid(cm: Costmap, minClearance: int) returns (lethal: Raster<bool>)
    ensures IsBall(cm.lethal, lethal, Max(minClearance, 0))
  {
    hide InBall;
    lethal := DilateBool(cm.lethal, if minClearance > 0 then minClearance else 0);
  }

  /** Where the search may start: the robot's cell, or the nearest free cell not behind a hit. */
  ghost predicate IsFreeStart(norm: (int, int) -> real, grid: Raster<int>, lethal: Raster<bool>, at: Cell, radius: int, from: Cell) {
    && lethal.Has(from) && !lethal.Get(from)
    && if !lethal.Get(at) then from == at else IsNearest(norm, lethal, at, radius, Hits(grid), Some(from))
  }

  /** The plan was made before any search: nowhere to start from, or nowhere to go. */
  predicate Early(reason: Reason) {
    reason == StartOutOfMap || reason == GoalOutOfMap || reason == StartBlocked
  }

  lemma SearchedMessage(hypot: (real, real) -> real, cfg: PlanConfig, cm: Costmap, goal: Cell, expansions: nat, b: Basis)
    requires Searched(hypot, cfg, cm, goal, expansions, b)
    ensures b.msg == Ok || b.msg == Frontier || b.msg == NoPath
  {
    hide Chosen, Tree, TreeOptimal, Exhausted, NonNegative;
  }

  /** If some cell qualifies, none is the wrong answer. */
  lemma NearestIsSome(norm: (int, int) -> real, lethal: Raster<bool>, at: Cell, radius: int, blocked: Raster<bool>, c: Cell)
    ensures lethal.Get(at) && IsNearest(norm, lethal, at, radius, blocked, Some(c)) ==> !IsNearest(norm, lethal, at, radius, blocked, None)
  {
    hide Crosses, Eligible, Preferred;
  }

  lemma BallShape(mask: Raster<bool>, out: Raster<bool>, n: nat)
    requires IsBall(mask, out, n)
    ensures SameShape(out, mask)
  {
  }

  /** `plan_local`, from the search on. */
  method PlanFrom(hypot: (real, real) -> real, f: Frame, cfg: PlanConfig, cm: Costmap, lethal: Raster<bool>, start: Point,
                  from: Cell, goal: Cell)
    returns (plan: Plan, ghost b: Basis)
    requires f.res > 0.0 && lethal.Has(from) && !lethal.Get(from)
    ensures b.lethal == lethal && b.from == from && !Early(plan.reason)
    ensures IsGoalMask(lethal, cfg.goalClearance, b.mask) && Searched(hypot, cfg, cm, goal, plan.expansions, b)
    ensures FreePath(lethal, b.cells) && PlanSays(hypot, f, cfg, start, goal, plan, b)
  {
    hide IsGoalMask, FreeNeighbor, PathPoints, FreePath, Searched;
    var goalOk := GoalMask(lethal, cfg.goalClearance);
    ghost var trace;
    var path, n, msg;
    path, n, msg, trace := Search(hypot, cfg, cm, lethal, goalOk, from, goal);
    b := Basis(lethal, goalOk, from, path, msg, trace);
    SearchedPath(hypot, cfg, cm, goal, n, b);
    SearchedMessage(hypot, cfg, cm, goal, n, b);
    if |path| <= 1 {
      var free := HasFreeNeighbor(lethal, from);
      plan := Plan(false, [], Some(Centre(f, from)), if free then AtFrontier else BoxedIn, n);
      return;
    }
    var end := path[|path| - 1];
    var reason := Classify(hypot, msg, end, goal, lethal.Get(goal), goalOk, cfg.minClearance);
    plan := Plan(true, PathPoints(hypot, f, path, cfg.step, start), Some(Centre(f, end)), reason, n);
  }

  /** `plan_local`, given its costmap. */
  method PlanLocal(hypot: (real, real) -> real, grid: Raster<int>, f: Frame, goalBody: Point, cfg: PlanConfig, cm: Costmap,
                   startBody: Point)
    returns (plan: Plan, ghost b: Basis)
    requires f.res > 0.0 && SameShape(cm.lethal, grid)
    ensures IsBall(cm.lethal, b.lethal, Max(cfg.minClearance, 0))
    ensures InCell(startBody, f, WorldToCell(startBody, f)) && InCell(goalBody, f, WorldToCell(goalBody, f))
    ensures plan.reason == StartOutOfMap <==> !OnMap(startBody, f, grid.nx, grid.ny)
    ensures plan.reason == GoalOutOfMap <==> OnMap(startBody, f, grid.nx, grid.ny) && !OnMap(goalBody, f, grid.nx, grid.ny)
    ensures plan.reason == StartBlocked <==>
      && OnMap(startBody, f, grid.nx, grid.ny) && OnMap(goalBody, f, grid.nx, grid.ny) && b.lethal.Get(WorldToCell(startBody, f))
      && IsNearest(CellNorm(hypot), b.lethal, WorldToCell(startBody, f), RelaxRadius(cfg, f.res), Hits(grid), None)
    ensures Early(plan.reason) ==> !plan.ok && plan.path == [] && plan.end == None
    ensures !Early(plan.reason) ==>
      && IsFreeStart(CellNorm(hypot), grid, b.lethal, WorldToCell(startBody, f), RelaxRadius(cfg, f.res), b.from)
      && IsGoalMask(b.lethal, cfg.goalClearance, b.mask)
      && Searched(hypot, cfg, cm, WorldToCell(goalBody, f), plan.expansions, b)
      && FreePath(b.lethal, b.cells)
      && PlanSays(hypot, f, cfg, startBody, WorldToCell(goalBody, f), plan, b)
  {
    hide IsBall, IsNearest, IsGoalMask, WorldToCell, InCell, OnMap, RelaxRadius, FreePath, Searched, PlanSays;
    var start, goal := WorldToCell(startBody, f), WorldToCell(goalBody, f);
    CellHolds(startBody, f, start);
    CellHolds(goalBody, f, goal);
    OnMapHasCell(startBody, f, grid);
    OnMapHasCell(goalBody, f, grid);
    var planner := PlannerGrid(cm, cfg.minClearance);
    b := Basis(planner, None, start, [], NoPath, Trace(map[], [], start, start));
    BallShape(cm.lethal, planner, Max(cfg.minClearance, 0));
    if !grid.Has(start) {
      plan := Plan(false, [], None, StartOutOfMap, 0);
      return;
    }
    if !grid.Has(goal) {
      plan := Plan(false, [], None, GoalOutOfMap, 0);
      return;
    }
    var relaxed := FreeStart(CellNorm(hypot), grid, planner, start, cfg, f.res);
    if relaxed.None? {
      plan := Plan(false, [], None, StartBlocked, 0);
      return;
    }
    NearestIsSome(CellNorm(hypot), planner, start, RelaxRadius(cfg, f.res), Hits(grid), relaxed.value);
    plan, b := PlanFrom(hypot, f, cfg, cm, planner, startBody, relaxed.value, goal);
  }

  // ── where a plan ends ──

  lemma RankedByRemote(hypot: (real, real) -> real, cfg: PlanConfig, mask: Option<Raster<bool>>, from: Cell, goal: Cell, c: Cell)
    ensures PlanRanking(hypot, cfg, mask, from, goal).near(c) == Remote(hypot, goal, c)
  {
  }

  lemma RemoteNonNegative(hypot: (real, real) -> real, goal: Cell, c: Cell)
    requires IsMetricHypot(hypot)
    ensures Remote(hypot, goal, c) >= 0.0
  {
  }

  /**
   A snapped or frontier plan ends strictly nearer the goal than it starts, and
   not by a detour, whatever the tie width; it costs least of all routes there, up
   to the heuristic weight.
   */
  lemma PlanEndsNearer(hypot: (real, real) -> real, cfg: PlanConfig, cm: Costmap, goal: Cell, expansions: nat, b: Basis)
    requires IsMetricHypot(hypot) && Searched(hypot, cfg, cm, goal, expansions, b) && b.msg == Frontier
    requires Remote(hypot, goal, b.from) <= 1000000.0
    ensures b.cells != [] && b.cells[|b.cells| - 1] == b.trace.end
    ensures Remote(hypot, goal, b.trace.end) < Remote(hypot, goal, b.from)
    ensures !PlanRanking(hypot, cfg, b.mask, b.from, goal).Detour(b.from, b.trace.end, Length(b.cells))
    ensures NonNegative(PlanWorld(cfg, cm, b.lethal)) ==> Optimal(PlanWorld(cfg, cm, b.lethal), b.cells, Epsilon(cfg.hWeight))
  {
    hide IsMetricHypot, Chosen, Exhausted, NonNegative, Remote, Optimal;
    var r := PlanRanking(hypot, cfg, b.mask, b.from, goal);
    RankedByRemote(hypot, cfg, b.mask, b.from, goal, b.trace.end);
    RankedByRemote(hypot, cfg, b.mask, b.from, goal, b.from);
    RemoteNonNegative(hypot, goal, b.trace.end);
    assert Route(PlanWorld(cfg, cm, b.lethal), b.cells, b.from, b.trace.end);
    FrontierIsNearer(r, b.from, b.trace.end, Length(b.cells));
  }

  /** A route from the free start to an eligible endpoint: in the pool, and not a detour by the way the search went. */
  ghost predicate EligibleEnd(hypot: (real, real) -> real, cfg: PlanConfig, cm: Costmap, goal: Cell, b: Basis, p: seq<Cell>) {
    var r := PlanRanking(hypot, cfg, b.mask, b.from, goal);
    && p != [] && Route(PlanWorld(cfg, cm, b.lethal), p, b.from, Last(p))
    && Last(p) in Pool(r, b.trace.settled.Keys) && Last(p) in b.trace.settled
    && !r.Detour(b.from, Last(p), Length(b.trace.settled[Last(p)]))
  }

  lemma SettledEnds(w: World, from: Cell, settled: map<Cell, seq<Cell>>, c: Cell)
    requires Tree(w, from, settled) && c in settled
    ensures settled[c] != [] && settled[c][|settled[c]| - 1] == c
  {
  }

  /**
   Without a tie width a plan is exact. A snapped or frontier plan ends nearest
   the goal, and among the nearest by the cheapest route, of all eligible ends;
   and with no path to offer, none is nearer than the start beyond the margin.
   */
  lemma PlanIsNearest(hypot: (real, real) -> real, cfg: PlanConfig, cm: Costmap, goal: Cell, expansions: nat, b: Basis, p: seq<Cell>)
    requires IsMetricHypot(hypot) && Searched(hypot, cfg, cm, goal, expansions, b) && expansions <= cfg.maxExpansions
    requires NonNegative(PlanWorld(cfg, cm, b.lethal)) && -1.0 <= cfg.hWeight <= 1.0 && cfg.tie <= 0.0
    requires Remote(hypot, goal, b.from) <= 1000000.0 && EligibleEnd(hypot, cfg, cm, goal, b, p)
    ensures b.msg == Frontier ==>
      Remote(hypot, goal, b.trace.end) < Remote(hypot, goal, Last(p))
      || (Remote(hypot, goal, b.trace.end) == Remote(hypot, goal, Last(p))
          && Cost(PlanWorld(cfg, cm, b.lethal), b.cells) <= Cost(PlanWorld(cfg, cm, b.lethal), p))
    ensures b.msg == NoPath ==> Remote(hypot, goal, Last(p)) >= Remote(hypot, goal, b.from) - 0.000000001
  {
    hide IsMetricHypot, Chosen, Exhausted, NonNegative, Remote, Length, Cost, Tree, TreeOptimal, Route, Pool;
    var r, w := PlanRanking(hypot, cfg, b.mask, b.from, goal), PlanWorld(cfg, cm, b.lethal);
    if b.msg != Ok {
      RankedByRemote(hypot, cfg, b.mask, b.from, goal, b.trace.end);
      RankedByRemote(hypot, cfg, b.mask, b.from, goal, Last(p));
      RankedByRemote(hypot, cfg, b.mask, b.from, goal, b.from);
      RemoteNonNegative(hypot, goal, b.trace.end);
      assert r.tie == cfg.tie;
      FrontierIsExact(r, w, b.from, goal, b.trace);
      SettledEnds(w, b.from, b.trace.settled, b.trace.end);
    }
  }

  /** What was settled for the last cell of a route costs no more than the route. */
  lemma SettledCheapest(w: World, from: Cell, settled: map<Cell, seq<Cell>>, p: seq<Cell>)
    requires TreeOptimal(w, settled, 1.0) && Tree(w, from, settled) && p != [] && Route(w, p, from, Last(p)) && Last(p) in settled
    ensures Cost(w, settled[Last(p)]) <= Cost(w, p)
  {
    assert Optimal(w, settled[Last(p)], 1.0);
    assert Route(w, settled[Last(p)], from, Last(p));
    hide Cost;
  }

  /**
   With a tie width, as by default, a plan that does not reach the goal ends at
   most that much farther from it than any eligible end, by a route no dearer
   than any to an eligible end tied with the leader.
   */
  lemma PlanIsTied(hypot: (real, real) -> real, cfg: PlanConfig, cm: Costmap, goal: Cell, expansions: nat, b: Basis, p: seq<Cell>)
    requires Searched(hypot, cfg, cm, goal, expansions, b) && b.msg != Ok && cfg.tie > 0.0
    requires NonNegative(PlanWorld(cfg, cm, b.lethal)) && -1.0 <= cfg.hWeight <= 1.0
    requires EligibleEnd(hypot, cfg, cm, goal, b, p)
    ensures Remote(hypot, goal, b.trace.end) <= Remote(hypot, goal, Last(p)) + cfg.tie
    ensures b.msg == Frontier && Last(p) != b.from && b.trace.base != b.from
            && Remote(hypot, goal, Last(p)) <= Remote(hypot, goal, b.trace.base) + cfg.tie ==>
      Cost(PlanWorld(cfg, cm, b.lethal), b.cells) <= Cost(PlanWorld(cfg, cm, b.lethal), p)
  {
    hide Chosen, Exhausted, NonNegative, Remote, Length, Cost, Tree, Route, Pool;
    var r, w := PlanRanking(hypot, cfg, b.mask, b.from, goal), PlanWorld(cfg, cm, b.lethal);
    RankedByRemote(hypot, cfg, b.mask, b.from, goal, b.trace.end);
    RankedByRemote(hypot, cfg, b.mask, b.from, goal, b.trace.base);
    RankedByRemote(hypot, cfg, b.mask, b.from, goal, Last(p));
    assert r.tie == cfg.tie;
    FrontierIsTied(r, w, b.from, b.trace, Last(p));
    SettledEnds(w, b.from, b.trace.settled, Last(p));
    SettledCheapest(w, b.from, b.trace.settled, p);
  }

  // ── what the follower may rely on ──

  lemma FreeInCostmap(cm: Costmap, lethal: Raster<bool>, n: nat, c: Cell)
    requires IsBall(cm.lethal, lethal, n) && lethal.Has(c) && !lethal.Get(c)
    ensures cm.lethal.Has(c) && !cm.lethal.Get(c)
  {
    if cm.lethal.Get(c) { BallCovers(cm.lethal, lethal, n, c); }
  }

  lemma AdjacentOffsets(a: Cell, b: Cell)
    requires Adjacent(a, b)
    ensures -1 <= b.i - a.i <= 1 && -1 <= b.j - a.j <= 1
  {
  }

  /**
   Clearance of planned motion: with the pad on and the denoiser off, no point of
   any segment of the cell path comes nearer a hit than the footprint radius.
   */
  lemma PlannedPathClear(hypot: (real, real) -> real, grid: Raster<int>, f: Frame, cfg: PlanConfig, cm: Costmap,
                         lethal: Raster<bool>, cells: seq<Cell>, k: nat, o: Cell, t: real)
    requires IsMetricHypot(hypot) && f.res > 0.0 && CoversHits(hypot, grid, f, cfg.costmap, cm.lethal)
    requires cfg.costmap.quantizationPad && !cfg.costmap.denoise && cfg.costmap.footprint >= 0.0
    requires IsBall(cm.lethal, lethal, Max(cfg.minClearance, 0)) && FreePath(lethal, cells)
    requires 0 < k < |cells| && grid.Has(o) && grid.Get(o) == 0 && 0.0 <= t <= 1.0
    ensures Distance2(Along(Centre(f, cells[k - 1]), Centre(f, cells[k]), t), Centre(f, o)) >= Square(cfg.costmap.footprint)
  {
    var a, b := cells[k - 1], cells[k];
    FreeInCostmap(cm, lethal, Max(cfg.minClearance, 0), a);
    FreeInCostmap(cm, lethal, Max(cfg.minClearance, 0), b);
    assert -1 <= b.i - a.i <= 1 && -1 <= b.j - a.j <= 1 by { AdjacentOffsets(a, b); }
    assert SameShape(cm.lethal, grid);
    hide IsMetricHypot, CoversHits, IsBall, FreePath, Square, Distance2, Along, Centre;
    SegmentClear(hypot, grid, f, cfg.costmap, cm.lethal, a, b, o, t);
  }

  /** With the built costmap and a non-negative weight, the planner's world has no step below its length. */
  lemma BuiltCostsNonNegative(hypot: (real, real) -> real, exp: real -> real, grid: Raster<int>, f: Frame, cfg: PlanConfig,
                              cm: Costmap, lethal: Raster<bool>)
    requires cfg.costmap.inflationDecay > 0.0 && cfg.costmap.haloMax >= 0.0 && cfg.costmap.safetyMargin >= 0.0 && IsDecay(exp)
    requires cfg.perUnit >= 0.0 && CostSpec(exp, grid, f, cfg.costmap, cm) && SameShape(lethal, grid)
    ensures NonNegative(PlanWorld(cfg, cm, lethal))
  {
    var w := PlanWorld(cfg, cm, lethal);
    forall a, b | Adjacent(a, b) && w.open(b) ensures w.step(a, b) >= Base(a, b) {
      hide CostAt, Base, Adjacent;
      CostBounds(cfg.costmap, exp, f.res, cm.distance.Get(b), grid.Get(b) == -1);
      ProductLower(cfg.perUnit, Prices(cm.cost).Get(b), 0.0, 0.0);
    }
  }

  /** Every free centre is outside the padded disk of every hit. */
  lemma FreeCellFar(hypot: (real, real) -> real, grid: Raster<int>, f: Frame, cfg: Config, lethal: Raster<bool>, c: Cell, o: Cell)
    requires IsMetricHypot(hypot) && f.res > 0.0 && CoversHits(hypot, grid, f, cfg, lethal)
    requires cfg.quantizationPad && !cfg.denoise && cfg.footprint >= 0.0
    requires grid.Has(c) && !lethal.Get(c) && grid.Has(o) && grid.Get(o) == 0
    ensures Far(Offset(c, o)) >= Need(cfg.footprint / f.res)
  {
    hide Square, SquareSum, IsMetricHypot, CoversHits, IsHypot, LethalRadius, LethalAt, Blocked, Need;
    CellNormIsHypot(hypot);
    RadiusInCells(cfg, f.res);
    PadValue();
    HitApart(hypot, grid, f, cfg, lethal, c, o);
    CentreClear(CellNorm(hypot), Blocked(hypot, grid, f, cfg), cfg.footprint / f.res + PAD, c, o);
    NeedIs(cfg.footprint / f.res, Far(Offset(c, o)));
  }

  lemma AdjacentOffset(a: Cell, b: Cell, o: Cell)
    requires Adjacent(a, b)
    ensures Adjacent(Offset(a, o), Offset(b, o))
  {
  }

  lemma PlannedCellsFar(hypot: (real, real) -> real, grid: Raster<int>, f: Frame, cfg: PlanConfig, cm: Costmap,
                        lethal: Raster<bool>, cells: seq<Cell>, o: Cell)
    requires IsMetricHypot(hypot) && f.res > 0.0 && CoversHits(hypot, grid, f, cfg.costmap, cm.lethal)
    requires cfg.costmap.quantizationPad && !cfg.costmap.denoise && cfg.costmap.footprint >= 0.0
    requires IsBall(cm.lethal, lethal, Max(cfg.minClearance, 0)) && FreePath(lethal, cells)
    requires grid.Has(o) && grid.Get(o) == 0
    ensures CellsFar(Need(cfg.costmap.footprint / f.res), Offsets(cells, o))
  {
    assert SameShape(cm.lethal, grid);
    hide IsMetricHypot, CoversHits, IsBall, Far, Need, Offset, Adjacent;
    forall k | 0 <= k < |cells| ensures Far(Offset(cells[k], o)) >= Need(cfg.costmap.footprint / f.res) {
      FreeInCostmap(cm, lethal, Max(cfg.minClearance, 0), cells[k]);
      FreeCellFar(hypot, grid, f, cfg.costmap, cm.lethal, cells[k], o);
    }
    forall k | 0 < k < |cells| ensures Adjacent(Offset(cells[k - 1], o), Offset(cells[k], o)) {
      AdjacentOffset(cells[k - 1], cells[k], o);
    }
  }

  /**
   Where the step suits the footprint, as the defaults do, the clearance carries
   over to the downsampled polyline: no point between two kept centres comes
   nearer a hit than the footprint radius.
   */
  lemma PolylineClear(hypot: (real, real) -> real, grid: Raster<int>, f: Frame, cfg: PlanConfig, cm: Costmap,
                      lethal: Raster<bool>, cells: seq<Cell>, k: nat, o: Cell, t: real)
    requires IsMetricHypot(hypot) && f.res > 0.0 && CoversHits(hypot, grid, f, cfg.costmap, cm.lethal)
    requires cfg.costmap.quantizationPad && !cfg.costmap.denoise && cfg.costmap.footprint >= 0.0
    requires IsBall(cm.lethal, lethal, Max(cfg.minClearance, 0)) && FreePath(lethal, cells)
    requires KeepsAt(cfg.costmap.footprint / f.res, cfg.step)
    requires 0 < k < |Downsample(cells, cfg.step)| && grid.Has(o) && grid.Get(o) == 0 && 0.0 <= t <= 1.0
    ensures var points := Downsample(cells, cfg.step);
      Distance2(Along(Centre(f, points[k - 1]), Centre(f, points[k]), t), Centre(f, o)) >= Square(cfg.costmap.footprint)
  {
    hide IsMetricHypot, CoversHits, IsBall, Square, Distance2, Along, Centre, CellsFar, Mix, Downsample, Need, FreePath;
    PlannedCellsFar(hypot, grid, f, cfg, cm, lethal, cells, o);
    DownsampleOffsets(cells, o, cfg.step);
    var points, phi := Downsample(cells, cfg.step), cfg.costmap.footprint / f.res;
    assert ChordsClear(phi, Offsets(points, o));
    assert PointClear(phi, Offsets(points, o), k, t);
    ScaledPoint(f, points[k - 1], points[k], o, t);
    ScaleBack(f.res, phi, cfg.costmap.footprint, PointSquare(Offset(points[k - 1], o), Offset(points[k], o), t));
  }
}
