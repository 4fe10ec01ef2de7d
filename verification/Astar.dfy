/**
 The two grid searches of body/lib/astar.py: `astar_8c`, which wants the goal,
 and `astar_toward`, which settles for the reachable cell nearest to it.
 */
module Astar {
  import opened Options
  import opened Grid
  import opened Numbers
  import opened Paths
  import opened SearchState

  /** The graph of a costmap: open cells, and steps priced by length plus weighted halo cost. */
  function CostmapWorld(lethal: Raster<bool>, cost: Raster<real>, perUnit: real): World {
    World((c: Cell) => lethal.Has(c) && !lethal.Get(c),
          (a: Cell, b: Cell) => Base(a, b) + perUnit * cost.Get(b))
  }

  /** Total cost of the cells a walk enters. */
  ghost function Entered(cost: Raster<real>, p: seq<Cell>): real {
    if |p| <= 1 then 0.0 else Entered(cost, p[..|p| - 1]) + cost.Get(p[|p| - 1])
  }

  /** What a route through a costmap costs: its length, and the weighted cost of every cell it enters. */
  lemma {:induction false} CostIs(lethal: Raster<bool>, cost: Raster<real>, perUnit: real, p: seq<Cell>)
    ensures Cost(CostmapWorld(lethal, cost, perUnit), p) == Length(p) + perUnit * Entered(cost, p)
  {
    if |p| > 1 {
      var front := p[..|p| - 1];
      CostIs(lethal, cost, perUnit, front);
      var more := cost.Get(p[|p| - 1]);
      assert perUnit * (Entered(cost, front) + more) == perUnit * Entered(cost, front) + perUnit * more;
    }
  }

  /** A route is a chain of neighbouring cells that, the first apart, lie on the map and are not lethal. */
  lemma RouteIs(lethal: Raster<bool>, cost: Raster<real>, perUnit: real, p: seq<Cell>, a: Cell, b: Cell)
    ensures Route(CostmapWorld(lethal, cost, perUnit), p, a, b) <==>
      && p != [] && p[0] == a && p[|p| - 1] == b
      && forall k :: 0 < k < |p| ==> Adjacent(p[k - 1], p[k]) && lethal.Has(p[k]) && !lethal.Get(p[k])
  {
  }

  function OctileTo(goal: Cell): Cell -> real {
    (c: Cell) => Octile(c, goal)
  }

  function Weighted(metric: Cell -> real, hWeight: real): Cell -> real {
    (c: Cell) => hWeight * metric(c)
  }

  function MakeQuery(w: World, start: Cell, goal: Cell, hWeight: real): Query {
    Query(w, start, Weighted(OctileTo(goal), hWeight))
  }

  /** No open cell is priced below the plain length of the step onto it. */
  ghost predicate NonNegative(w: World) {
    forall a, b :: Adjacent(a, b) && w.open(b) ==> w.step(a, b) >= Base(a, b)
  }

  /** The heuristic is the weighted octile distance, nothing at the goal. */
  lemma HeuristicIs(w: World, start: Cell, goal: Cell, hWeight: real, c: Cell)
    ensures var q := MakeQuery(w, start, goal, hWeight);
      q.w == w && q.start == start && q.h(c) == hWeight * Octile(c, goal) && q.h(goal) == 0.0
  {
  }

  /** How far above the optimum a weighted heuristic may leave a path. */
  function Epsilon(hWeight: real): (e: real)
    ensures e >= 1.0 && -e <= hWeight <= e
    ensures -1.0 <= hWeight <= 1.0 ==> e == 1.0
  {
    if hWeight > 1.0 then hWeight else if hWeight < -1.0 then -hWeight else 1.0
  }

  function Inflated(w: World, eps: real): World {
    World(w.open, (a: Cell, b: Cell) => eps * w.step(a, b))
  }

  lemma {:induction false} InflatedCost(w: World, eps: real, p: seq<Cell>)
    ensures Cost(Inflated(w, eps), p) == eps * Cost(w, p)
  {
    if |p| > 1 {
      InflatedCost(w, eps, p[..|p| - 1]);
      var x, y := Cost(w, p[..|p| - 1]), w.step(p[|p| - 2], p[|p| - 1]);
      assert eps * (x + y) == eps * x + eps * y;
    }
  }

  lemma ScaledDrop(hWeight: real, eps: real, ha: real, hb: real, base: real, step: real)
    requires eps >= 1.0 && -eps <= hWeight <= eps && 0.0 <= base <= step
    requires ha <= base + hb && hb <= base + ha
    ensures 0.0 <= eps * step && step <= eps * step && hWeight * ha - hWeight * hb <= eps * step
  {
    var d := ha - hb;
    assert hWeight * ha - hWeight * hb == hWeight * d;
    assert hWeight * d <= eps * base by {
      if d >= 0.0 { assert hWeight * d <= eps * d <= eps * base; }
      else { assert hWeight * d <= eps * (-d) <= eps * base; }
    }
    assert eps * base <= eps * step;
  }

  /** A metric that changes by at most the step length over a step. */
  ghost predicate Lipschitz(metric: Cell -> real) {
    forall a, b :: Adjacent(a, b) ==> metric(a) <= Base(a, b) + metric(b) && metric(b) <= Base(a, b) + metric(a)
  }

  lemma OctileLipschitz(goal: Cell)
    ensures Lipschitz(OctileTo(goal))
  {
    forall a, b | Adjacent(a, b)
      ensures OctileTo(goal)(a) <= Base(a, b) + OctileTo(goal)(b)
      ensures OctileTo(goal)(b) <= Base(a, b) + OctileTo(goal)(a)
    {
      OctileStep(a, b, goal);
      AdjacentSymmetric(a, b);
      OctileStep(b, a, goal);
    }
  }

  lemma WeightedStep(w: World, metric: Cell -> real, hWeight: real, eps: real, a: Cell, b: Cell)
    requires Base(a, b) <= w.step(a, b) && eps >= 1.0 && -eps <= hWeight <= eps
    requires metric(a) <= Base(a, b) + metric(b) && metric(b) <= Base(a, b) + metric(a)
    ensures 0.0 <= Inflated(w, eps).step(a, b) && w.step(a, b) <= Inflated(w, eps).step(a, b)
    ensures Weighted(metric, hWeight)(a) - Weighted(metric, hWeight)(b) <= Inflated(w, eps).step(a, b)
  {
    ScaledDrop(hWeight, eps, metric(a), metric(b), Base(a, b), w.step(a, b));
  }

  lemma PricesConsistent(q: Query, cap: World)
    requires forall a, b :: Adjacent(a, b) && q.w.open(b) ==>
               0.0 <= cap.step(a, b) && q.w.step(a, b) <= cap.step(a, b) && q.h(a) - q.h(b) <= cap.step(a, b)
    ensures Consistent(q, cap)
  {
  }

  /** A weighted metric is a consistent heuristic once steps are inflated by its weight. */
  lemma WeightedConsistent(w: World, start: Cell, metric: Cell -> real, hWeight: real)
    requires NonNegative(w) && Lipschitz(metric)
    ensures Consistent(Query(w, start, Weighted(metric, hWeight)), Inflated(w, Epsilon(hWeight)))
  {
    var h, cap := Weighted(metric, hWeight), Inflated(w, Epsilon(hWeight));
    forall a, b | Adjacent(a, b) && w.open(b)
      ensures 0.0 <= cap.step(a, b) && w.step(a, b) <= cap.step(a, b) && h(a) - h(b) <= cap.step(a, b)
    {
      WeightedStep(w, metric, hWeight, Epsilon(hWeight), a, b);
    }
    PricesConsistent(Query(w, start, h), cap);
  }

  // ── the cells a search can meet ──

  ghost function RowCells(i: int, ny: nat): set<Cell> {
    if ny == 0 then {} else RowCells(i, ny - 1) + {Cell(i, ny - 1)}
  }

  ghost function GridCells(nx: nat, ny: nat): set<Cell> {
    if nx == 0 then {} else GridCells(nx - 1, ny) + RowCells(nx - 1, ny)
  }

  lemma {:induction false} RowMember(i: int, ny: nat, c: Cell)
    ensures c in RowCells(i, ny) <==> c.i == i && 0 <= c.j < ny
  {
    if ny > 0 { RowMember(i, ny - 1, c); }
  }

  lemma {:induction false} RowSize(i: int, ny: nat)
    ensures |RowCells(i, ny)| == ny
  {
    if ny > 0 {
      RowSize(i, ny - 1);
      RowMember(i, ny - 1, Cell(i, ny - 1));
    }
  }

  lemma {:induction false} GridMember(nx: nat, ny: nat, c: Cell)
    ensures c in GridCells(nx, ny) <==> 0 <= c.i < nx && 0 <= c.j < ny
  {
    if nx > 0 {
      GridMember(nx - 1, ny, c);
      RowMember(nx - 1, ny, c);
    }
  }

  lemma RowDisjoint(nx: nat, ny: nat)
    ensures |GridCells(nx + 1, ny)| == |GridCells(nx, ny)| + ny
  {
    RowSize(nx, ny);
    forall c | c in GridCells(nx, ny) ensures c !in RowCells(nx, ny) {
      GridMember(nx, ny, c);
      RowMember(nx, ny, c);
    }
  }

  lemma RowProduct(nx: nat, ny: nat)
    ensures nx * ny - ny == (nx - 1) * ny
  {
  }

  lemma {:induction false} GridSize(nx: nat, ny: nat)
    ensures |GridCells(nx, ny)| == nx * ny
  {
    if nx > 0 {
      hide GridCells;
      GridSize(nx - 1, ny);
      RowDisjoint(nx - 1, ny);
      RowProduct(nx, ny);
    }
  }

  // ── the pieces the two searches share ──

  /** `heapq.heappop`: an entry that is least by priority, then by push counter. */
  method HeapPop(heap: set<Entry>) returns (e: Entry)
    requires heap != {}
    ensures e in heap
    ensures forall x :: x in heap ==> e.f < x.f || (e.f == x.f && e.count <= x.count)
  {
    e :| e in heap;
    var rest := heap - {e};
    while rest != {}
      invariant e in heap && rest <= heap
      invariant forall x :: x in heap && x !in rest ==> e.f < x.f || (e.f == x.f && e.count <= x.count)
      decreases rest
    {
      var x :| x in rest;
      rest := rest - {x};
      if x.f < e.f || (x.f == e.f && x.count < e.count) {
        e := x;
      }
    }
  }

  ghost predicate SameTrails(cells: set<Cell>, tr: map<Cell, seq<Cell>>, tr': map<Cell, seq<Cell>>) {
    forall c :: c in cells ==> c in tr && c in tr' && tr'[c] == tr[c]
  }

  /** `t` is `s` with the first `k` edges out of `cur` relaxed: closed cells and their trails stay. */
  ghost predicate Expanding(q: Query, s: State, tr: map<Cell, seq<Cell>>, t: State, tr': map<Cell, seq<Cell>>,
                            cur: Cell, k: nat, cap: World)
    requires k <= 8
  {
    && t.closed == s.closed && cur in t.closed
    && (ClosedBest(q, s, cap) ==> ClosedBest(q, t, cap))
    && (forall m :: 0 <= m < k ==> Settled(q, t, cur, Neighbor(cur, m)))
    && SameTrails(t.closed, tr, tr')
  }

  lemma ExpandStep(q: Query, s: State, tr: map<Cell, seq<Cell>>, t: State, tr': map<Cell, seq<Cell>>,
                   live: map<Cell, Entry>, cur: Cell, k: nat, cap: World)
    requires k < 8 && Inv(q, t, tr', live, {cur}) && Expanding(q, s, tr, t, tr', cur, k, cap)
    ensures Known(t, cur)
    ensures var n := Neighbor(cur, k);
            Inv(q, Relax(q, t, cur, n), RelaxTrail(q, t, tr', cur, n), RelaxLive(q, t, live, cur, n), {cur})
            && Expanding(q, s, tr, Relax(q, t, cur, n), RelaxTrail(q, t, tr', cur, n), cur, k + 1, cap)
  {
    var n := Neighbor(cur, k);
    NeighborTable(cur, n);
    RelaxKeeps(q, t, tr', live, cur, n, cap);
    RelaxSettles(q, t, cur, n);
  }

  lemma ExpandDone(q: Query, t: State, tr: map<Cell, seq<Cell>>, live: map<Cell, Entry>, cur: Cell)
    requires Inv(q, t, tr, live, {cur}) && forall m :: 0 <= m < 8 ==> Settled(q, t, cur, Neighbor(cur, m))
    ensures Inv(q, t, tr, live, {})
  {
    forall n | Adjacent(cur, n) ensures Settled(q, t, cur, n) {
      NeighborTable(cur, n);
    }
    assert SettledAll(q, t, cur);
  }

  /** The inner loop of both searches: relax every edge out of the cell just closed. */
  method Expand(q: Query, s0: State, cur: Cell, ghost tr0: map<Cell, seq<Cell>>, ghost live0: map<Cell, Entry>,
                ghost cap: World)
    returns (s: State, ghost tr: map<Cell, seq<Cell>>, ghost live: map<Cell, Entry>)
    requires Inv(q, s0, tr0, live0, {cur}) && cur in s0.closed
    ensures Inv(q, s, tr, live, {}) && s.closed == s0.closed
    ensures ClosedBest(q, s0, cap) ==> ClosedBest(q, s, cap)
    ensures SameTrails(s.closed, tr0, tr)
  {
    s, tr, live := s0, tr0, live0;
    for k := 0 to 8
      invariant Inv(q, s, tr, live, {cur}) && Expanding(q, s0, tr0, s, tr, cur, k, cap)
    {
      var n := Neighbor(cur, k);
      ExpandStep(q, s0, tr0, s, tr, live, cur, k, cap);
      tr, live := RelaxTrail(q, s, tr, cur, n), RelaxLive(q, s, live, cur, n);
      s := Relax(q, s, cur, n);
    }
    ExpandDone(q, s, tr, live, cur);
  }

  function Reverse(p: seq<Cell>): seq<Cell> {
    if p == [] then [] else Reverse(p[1..]) + [p[0]]
  }

  lemma {:induction false} ReverseAppend(p: seq<Cell>, c: Cell)
    ensures Reverse(p + [c]) == [c] + Reverse(p)
  {
    if p != [] {
      ReverseAppend(p[1..], c);
      assert (p + [c])[1..] == p[1..] + [c];
    }
  }

  /** One link back along a trail. */
  lemma TrailBack(q: Query, s: State, tr: map<Cell, seq<Cell>>, cur: Cell)
    requires Trails(q, s, tr) && cur in tr
    ensures tr[cur] != [] && tr[cur] == tr[cur][..|tr[cur]| - 1] + [cur]
    ensures if cur in s.parents
            then s.parents[cur] in tr && tr[s.parents[cur]] == tr[cur][..|tr[cur]| - 1]
            else tr[cur] == [cur]
  {
    assert TrailOk(q, s, tr, cur);
  }

  /** Walk the parent links back from `end`: the result is the trail they stand for. */
  method Reconstruct(q: Query, s: State, end: Cell, ghost tr: map<Cell, seq<Cell>>) returns (path: seq<Cell>)
    requires Trails(q, s, tr) && end in tr
    ensures path == tr[end]
  {
    var out, cur := [end], end;
    TrailBack(q, s, tr, end);
    while cur in s.parents
      invariant cur in tr && tr[cur] != [] && tr[end] == tr[cur][..|tr[cur]| - 1] + Reverse(out)
      decreases if cur in tr then |tr[cur]| else 0
    {
      TrailBack(q, s, tr, cur);
      cur := s.parents[cur];
      TrailBack(q, s, tr, cur);
      ReverseAppend(out, cur);
      out := out + [cur];
    }
    TrailBack(q, s, tr, cur);
    path := Reverse(out);
  }

  // ── astar_8c ──

  /** The message of a search: "ok", "frontier", "no path" or "max_expansions exceeded". */
  datatype Outcome = Ok | Frontier | NoPath | Exceeded

  /** No route between the ends of `path` is cheaper than `1 / eps` of it. */
  ghost predicate Optimal(w: World, path: seq<Cell>, eps: real)
    requires path != []
  {
    forall p :: Route(w, p, path[0], path[|path| - 1]) ==> Cost(w, path) <= eps * Cost(w, p)
  }

  ghost predicate Reachable(w: World, a: Cell, b: Cell) {
    exists p :: Route(w, p, a, b)
  }

  /** How many cells a raster has. */
  function CellCount(lethal: Raster<bool>): nat {
    lethal.nx * lethal.ny
  }

  /** The cells a search from `start` can meet. */
  ghost function Universe(lethal: Raster<bool>, start: Cell): set<Cell> {
    GridCells(lethal.nx, lethal.ny) + {start}
  }

  lemma UniverseSize(lethal: Raster<bool>, start: Cell)
    ensures |Universe(lethal, start)| <= CellCount(lethal) + 1
  {
    GridSize(lethal.nx, lethal.ny);
    var cells := GridCells(lethal.nx, lethal.ny);
    if start in cells {
      assert cells + {start} == cells;
    }
  }

  lemma ClosedInUniverse(lethal: Raster<bool>, cost: Raster<real>, perUnit: real, q: Query, s: State, tr: map<Cell, seq<Cell>>)
    requires q.w == CostmapWorld(lethal, cost, perUnit) && Trails(q, s, tr)
    ensures s.closed <= Universe(lethal, q.start)
    ensures |s.closed| <= CellCount(lethal) + 1
  {
    forall c | c in s.closed ensures c in Universe(lethal, q.start) {
      assert TrailOk(q, s, tr, c);
      var p := tr[c];
      if |p| > 1 {
        assert q.w.open(p[|p| - 1]);
        GridMember(lethal.nx, lethal.ny, c);
      }
    }
    UniverseSize(lethal, q.start);
    SubsetSize(s.closed, Universe(lethal, q.start));
  }

  lemma BestScaled(q: Query, c: Cell, x: real, eps: real, p: seq<Cell>)
    requires Best(q, c, x, Inflated(q.w, eps)) && Route(q.w, p, q.start, c)
    ensures x <= eps * Cost(q.w, p)
  {
    InflatedCost(q.w, eps, p);
  }

  lemma TrailOptimal(q: Query, s: State, tr: map<Cell, seq<Cell>>, c: Cell, eps: real)
    requires Trails(q, s, tr) && c in s.closed && ClosedBest(q, s, Inflated(q.w, eps))
    ensures c in tr && Route(q.w, tr[c], q.start, c) && Optimal(q.w, tr[c], eps)
  {
    assert TrailOk(q, s, tr, c);
    hide Trails, Inflated, Cost, Route;
    forall p | Route(q.w, p, q.start, c) ensures s.g[c] <= eps * Cost(q.w, p) {
      BestScaled(q, c, s.g[c], eps, p);
    }
  }

  /** A step of either search that closes a cell keeps everything the loops rely on. */
  lemma CloseStep(q: Query, s: State, tr: map<Cell, seq<Cell>>, live: map<Cell, Entry>, e: Entry, cap: World)
    requires Inv(q, s, tr, live, {}) && Least(s, e) && e.cell !in s.closed
    ensures Inv(q, Close(s, e), tr, live, {e.cell}) && |Close(s, e).closed| == |s.closed| + 1
    ensures ClosedBest(q, s, cap) && Consistent(q, cap) ==> ClosedBest(q, Close(s, e), cap)
  {
    CloseKeeps(q, s, tr, live, e);
    if ClosedBest(q, s, cap) && Consistent(q, cap) {
      CloseBest(q, s, tr, live, e, cap);
    }
  }

  lemma StayOptimal(w: World, c: Cell, eps: real)
    requires eps >= 1.0
    ensures Route(w, [c], c, c)
    ensures NonNegative(w) ==> Optimal(w, [c], eps)
  {
    if NonNegative(w) {
      forall p | Route(w, p, c, c) ensures Cost(w, [c]) <= eps * Cost(w, p) {
        CostNonNegative(Query(w, c, (x: Cell) => 0.0), p, c, w);
      }
    }
  }

  lemma TrailRoute(q: Query, s: State, tr: map<Cell, seq<Cell>>, c: Cell)
    requires Trails(q, s, tr) && c in tr
    ensures Route(q.w, tr[c], q.start, c)
  {
    assert TrailOk(q, s, tr, c);
  }

  /**
   `astar_8c`. "ok" comes with a start-to-goal path that is optimal up to the
   heuristic weight; "no path" means that no path exists; the expansion limit
   is hit only when it is below the number of cells.
   */
  method Astar8c(cost: Raster<real>, lethal: Raster<bool>, start: Cell, goal: Cell,
                 perUnit: real, hWeight: real, maxExpansions: int)
    returns (path: Option<seq<Cell>>, expansions: nat, msg: Outcome)
    ensures path.Some? <==> msg == Ok
    ensures msg != Frontier
    ensures msg == Ok ==> Route(CostmapWorld(lethal, cost, perUnit), path.value, start, goal)
    ensures msg == Ok && NonNegative(CostmapWorld(lethal, cost, perUnit)) ==>
              Optimal(CostmapWorld(lethal, cost, perUnit), path.value, Epsilon(hWeight))
    ensures msg == NoPath ==> !Reachable(CostmapWorld(lethal, cost, perUnit), start, goal)
    ensures msg == Exceeded ==> expansions > maxExpansions && maxExpansions <= CellCount(lethal)
  {
    var w := CostmapWorld(lethal, cost, perUnit);
    var q := MakeQuery(w, start, goal, hWeight);
    ghost var cap := Inflated(w, Epsilon(hWeight));
    if start == goal {
      StayOptimal(w, start, Epsilon(hWeight));
      return Some([start]), 0, Ok;
    }
    if NonNegative(w) {
      OctileLipschitz(goal);
      WeightedConsistent(w, start, OctileTo(goal), hWeight);
    }
    InitKeeps(q, cap);
    var s := Init(q);
    ghost var tr, live := map[start := [start]], map[start := Entry(q.h(start), 0, start)];
    expansions := 0;
    while s.heap != {}
      invariant Inv(q, s, tr, live, {}) && goal !in s.closed && expansions == |s.closed|
      invariant NonNegative(w) ==> Consistent(q, cap) && ClosedBest(q, s, cap)
      decreases Universe(lethal, start) - s.closed, s.heap
    {
      ClosedInUniverse(lethal, cost, perUnit, q, s, tr);
      var e := HeapPop(s.heap);
      var cur := e.cell;
      if cur in s.closed {
        DropKeeps(q, s, tr, live, e, cap);
        s := Drop(s, e);
        continue;
      }
      CloseStep(q, s, tr, live, e, cap);
      s := Close(s, e);
      if cur == goal {
        if NonNegative(w) {
          TrailOptimal(q, s, tr, goal, Epsilon(hWeight));
        }
        TrailRoute(q, s, tr, goal);
        var found := Reconstruct(q, s, cur, tr);
        return Some(found), expansions, Ok;
      }
      expansions := expansions + 1;
      ClosedInUniverse(lethal, cost, perUnit, q, s, tr);
      if expansions > maxExpansions {
        return None, expansions, Exceeded;
      }
      s, tr, live := Expand(q, s, cur, tr, live, cap);
    }
    forall p | Route(w, p, start, goal) ensures false {
      ExhaustedReach(q, s, tr, live, p, goal);
    }
    return None, expansions, NoPath;
  }
}
