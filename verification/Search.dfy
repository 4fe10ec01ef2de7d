/**
 What the two grid searches are about: the free-space graph of a costmap, its
 paths, and what a path costs.
 */
module Paths {
  import opened Grid

  /** Which cells may be entered, and the cost of the step from a cell onto an adjacent one. */
  datatype World = World(open: Cell -> bool, step: (Cell, Cell) -> real)

  /** An 8-connected walk whose cells after the first are all open. */
  ghost predicate IsPath(w: World, p: seq<Cell>) {
    |p| > 0 && forall k :: 0 < k < |p| ==> Adjacent(p[k - 1], p[k]) && w.open(p[k])
  }

  ghost predicate Route(w: World, p: seq<Cell>, a: Cell, b: Cell) {
    IsPath(w, p) && p[0] == a && p[|p| - 1] == b
  }

  /** Total step cost of a walk. */
  ghost function Cost(w: World, p: seq<Cell>): real {
    if |p| <= 1 then 0.0 else Cost(w, p[..|p| - 1]) + w.step(p[|p| - 2], p[|p| - 1])
  }

  /** Geometric length of a walk in cells. */
  ghost function Length(p: seq<Cell>): real {
    if |p| <= 1 then 0.0 else Length(p[..|p| - 1]) + Base(p[|p| - 2], p[|p| - 1])
  }

  lemma Extend(w: World, p: seq<Cell>, a: Cell, b: Cell, c: Cell)
    requires Route(w, p, a, b) && Adjacent(b, c) && w.open(c)
    ensures Route(w, p + [c], a, c)
    ensures Cost(w, p + [c]) == Cost(w, p) + w.step(b, c)
    ensures Length(p + [c]) == Length(p) + Base(b, c)
  {
    var q := p + [c];
    assert q[..|q| - 1] == p;
  }

  /** A prefix of a route is a route, and its last step is what it costs more. */
  lemma Prefix(w: World, p: seq<Cell>, a: Cell, b: Cell, k: nat)
    requires Route(w, p, a, b) && 0 < k <= |p|
    ensures Route(w, p[..k], a, p[k - 1])
  {
  }

  lemma PrefixCost(w: World, p: seq<Cell>, k: nat)
    requires 0 < k < |p|
    ensures Cost(w, p[..k + 1]) == Cost(w, p[..k]) + w.step(p[k - 1], p[k])
  {
    assert p[..k + 1][..k] == p[..k];
  }
}

/**
 The open list, the closed set and the parent links that both searches keep
 (body/lib/astar.py), and the invariant they rest on.
 */
module SearchState {
  import opened Grid
  import opened Paths

  /** A heap entry: priority, push counter, cell. Counters make entries distinct. */
  datatype Entry = Entry(f: real, count: nat, cell: Cell)

  /** One search: the graph, where it starts, and the weighted heuristic. */
  datatype Query = Query(w: World, start: Cell, h: Cell -> real)

  datatype State = State(
    g: map<Cell, real>,
    plen: map<Cell, real>,
    parents: map<Cell, Cell>,
    heap: set<Entry>,
    counter: nat,
    closed: set<Cell>)

  function Init(q: Query): State {
    State(map[q.start := 0.0], map[q.start := 0.0], map[], {Entry(q.h(q.start), 0, q.start)}, 0, {})
  }

  predicate Known(s: State, c: Cell) {
    c in s.g && c in s.plen
  }

  predicate Improves(q: Query, s: State, cur: Cell, n: Cell)
    requires Known(s, cur)
  {
    q.w.open(n) && n !in s.closed && (n in s.g ==> s.g[cur] + q.w.step(cur, n) < s.g[n])
  }

  /** Relax the edge from `cur` to its neighbour `n`. */
  function Relax(q: Query, s: State, cur: Cell, n: Cell): State
    requires Known(s, cur)
  {
    if !Improves(q, s, cur, n) then s
    else
      var tentative := s.g[cur] + q.w.step(cur, n);
      State(s.g[n := tentative], s.plen[n := s.plen[cur] + Base(cur, n)], s.parents[n := cur],
            s.heap + {Entry(tentative + q.h(n), s.counter + 1, n)}, s.counter + 1, s.closed)
  }

  /** A way that is no cheaper than the one known changes nothing: of equally cheap ways the first found stays. */
  lemma FirstWayStays(q: Query, s: State, cur: Cell, n: Cell)
    requires Known(s, cur) && n in s.g && s.g[cur] + q.w.step(cur, n) >= s.g[n]
    ensures Relax(q, s, cur, n) == s
  {
  }

  /** The trail of `c` is the route that the parent links spell out; `g` and `plen` measure it. */
  ghost predicate TrailOk(q: Query, s: State, tr: map<Cell, seq<Cell>>, c: Cell)
    requires c in tr
  {
    && Known(s, c)
    && Route(q.w, tr[c], q.start, c)
    && s.g[c] == Cost(q.w, tr[c])
    && s.plen[c] == Length(tr[c])
    && if c == q.start then c !in s.parents && tr[c] == [c]
       else c in s.parents && s.parents[c] in s.closed && s.parents[c] in tr
            && tr[c] == tr[s.parents[c]] + [c]
  }

  ghost predicate Trails(q: Query, s: State, tr: map<Cell, seq<Cell>>) {
    && s.g.Keys == tr.Keys
    && q.start in tr
    && s.closed <= tr.Keys
    && s.parents.Keys <= tr.Keys
    && forall c {:trigger TrailOk(q, s, tr, c)} :: c in tr ==> TrailOk(q, s, tr, c)
  }

  /** Every unclosed known cell has a live entry; no entry undercuts its cell's priority. */
  ghost predicate HeapOk(q: Query, s: State, live: map<Cell, Entry>) {
    && (forall e :: e in s.heap ==> e.cell in s.g && e.f >= s.g[e.cell] + q.h(e.cell))
    && (forall c :: c in s.g && c !in s.closed ==>
          c in live && live[c] in s.heap && live[c].cell == c && live[c].f == s.g[c] + q.h(c))
  }

  /** The edge from the closed cell `c` to `n` has nothing left to give. */
  ghost predicate Settled(q: Query, s: State, c: Cell, n: Cell) {
    c in s.g && (q.w.open(n) ==> n in s.g && (n in s.closed || s.g[n] <= s.g[c] + q.w.step(c, n)))
  }

  ghost predicate SettledAll(q: Query, s: State, c: Cell) {
    forall n :: Adjacent(c, n) ==> Settled(q, s, c, n)
  }

  /** `x` is at most what any route to `c` costs at the step prices of `cap`. */
  ghost predicate Best(q: Query, c: Cell, x: real, cap: World) {
    forall p :: Route(q.w, p, q.start, c) ==> x <= Cost(cap, p)
  }

  /** At the prices of `cap` no step is cheaper than it is, and none undercuts the heuristic's drop. */
  ghost predicate Consistent(q: Query, cap: World) {
    forall a, b :: Adjacent(a, b) && q.w.open(b) ==>
      0.0 <= cap.step(a, b) && q.w.step(a, b) <= cap.step(a, b) && q.h(a) - q.h(b) <= cap.step(a, b)
  }

  ghost predicate ClosedBest(q: Query, s: State, cap: World) {
    forall c :: c in s.closed ==> c in s.g && Best(q, c, s.g[c], cap)
  }

  ghost predicate ClosedSettled(q: Query, s: State, busy: set<Cell>) {
    forall c :: c in s.closed && c !in busy ==> SettledAll(q, s, c)
  }

  /** The search invariant; `busy` holds the closed cell still being expanded, if any. */
  ghost predicate Inv(q: Query, s: State, tr: map<Cell, seq<Cell>>, live: map<Cell, Entry>, busy: set<Cell>) {
    && Trails(q, s, tr)
    && HeapOk(q, s, live)
    && (q.start !in s.closed ==> s.closed == {} && s == Init(q))
    && ClosedSettled(q, s, busy)
  }

  lemma InitKeeps(q: Query, cap: World)
    ensures var s := Init(q);
            Inv(q, s, map[q.start := [q.start]], map[q.start := Entry(q.h(q.start), 0, q.start)], {})
            && ClosedBest(q, s, cap)
  {
  }

  /** What relaxing one edge does to the ghost trails. */
  ghost function RelaxTrail(q: Query, s: State, tr: map<Cell, seq<Cell>>, cur: Cell, n: Cell): map<Cell, seq<Cell>>
    requires Known(s, cur) && cur in tr
  {
    if Improves(q, s, cur, n) then tr[n := tr[cur] + [n]] else tr
  }

  ghost function RelaxLive(q: Query, s: State, live: map<Cell, Entry>, cur: Cell, n: Cell): map<Cell, Entry>
    requires Known(s, cur)
  {
    if Improves(q, s, cur, n)
    then live[n := Entry(s.g[cur] + q.w.step(cur, n) + q.h(n), s.counter + 1, n)] else live
  }

  lemma RelaxTrailNew(q: Query, s: State, tr: map<Cell, seq<Cell>>, cur: Cell, n: Cell)
    requires cur in tr && TrailOk(q, s, tr, cur) && cur in s.closed && Adjacent(cur, n) && q.start in s.closed
    requires Improves(q, s, cur, n)
    ensures TrailOk(q, Relax(q, s, cur, n), RelaxTrail(q, s, tr, cur, n), n)
  {
    Extend(q.w, tr[cur], q.start, cur, n);
  }

  lemma RelaxTrailOld(q: Query, s: State, tr: map<Cell, seq<Cell>>, cur: Cell, n: Cell, c: Cell)
    requires cur in tr && Known(s, cur) && c in tr && c != n && TrailOk(q, s, tr, c)
    requires n !in s.closed
    ensures TrailOk(q, Relax(q, s, cur, n), RelaxTrail(q, s, tr, cur, n), c)
  {
  }

  lemma RelaxTrails(q: Query, s: State, tr: map<Cell, seq<Cell>>, cur: Cell, n: Cell)
    requires Trails(q, s, tr) && cur in s.closed && Adjacent(cur, n) && q.start in s.closed
    ensures Known(s, cur)
    ensures Trails(q, Relax(q, s, cur, n), RelaxTrail(q, s, tr, cur, n))
  {
    assert TrailOk(q, s, tr, cur);
    if Improves(q, s, cur, n) {
      var s', tr' := Relax(q, s, cur, n), RelaxTrail(q, s, tr, cur, n);
      forall c | c in tr' ensures TrailOk(q, s', tr', c) {
        if c == n {
          RelaxTrailNew(q, s, tr, cur, n);
        } else {
          assert TrailOk(q, s, tr, c);
          RelaxTrailOld(q, s, tr, cur, n, c);
        }
      }
    }
  }

  lemma RelaxHeap(q: Query, s: State, live: map<Cell, Entry>, cur: Cell, n: Cell)
    requires Known(s, cur) && HeapOk(q, s, live)
    ensures HeapOk(q, Relax(q, s, cur, n), RelaxLive(q, s, live, cur, n))
  {
  }

  lemma RelaxSettles(q: Query, s: State, cur: Cell, n: Cell)
    requires Known(s, cur) && cur in s.closed && s.closed <= s.g.Keys && cur != n
    ensures Settled(q, Relax(q, s, cur, n), cur, n)
    ensures forall c, m :: c in s.closed && Settled(q, s, c, m) ==> Settled(q, Relax(q, s, cur, n), c, m)
  {
  }

  lemma RelaxClosed(q: Query, s: State, cur: Cell, n: Cell, busy: set<Cell>, cap: World)
    requires Known(s, cur) && cur in s.closed && s.closed <= s.g.Keys && cur != n
    ensures ClosedSettled(q, s, busy) ==> ClosedSettled(q, Relax(q, s, cur, n), busy)
    ensures ClosedBest(q, s, cap) ==> ClosedBest(q, Relax(q, s, cur, n), cap)
  {
    RelaxSettles(q, s, cur, n);
  }

  /** Relaxing an edge out of the cell being expanded keeps the invariant. */
  lemma RelaxKeeps(q: Query, s: State, tr: map<Cell, seq<Cell>>, live: map<Cell, Entry>, cur: Cell, n: Cell, cap: World)
    requires Inv(q, s, tr, live, {cur}) && cur in s.closed && Adjacent(cur, n)
    ensures Known(s, cur)
    ensures Inv(q, Relax(q, s, cur, n), RelaxTrail(q, s, tr, cur, n), RelaxLive(q, s, live, cur, n), {cur})
    ensures ClosedBest(q, s, cap) ==> ClosedBest(q, Relax(q, s, cur, n), cap)
  {
    assert Known(s, cur) && Trails(q, Relax(q, s, cur, n), RelaxTrail(q, s, tr, cur, n)) by {
      RelaxTrails(q, s, tr, cur, n);
    }
    assert HeapOk(q, Relax(q, s, cur, n), RelaxLive(q, s, live, cur, n)) by {
      RelaxHeap(q, s, live, cur, n);
    }
    RelaxClosed(q, s, cur, n, {cur}, cap);
  }

  /** Pop a stale entry: its cell is closed already. */
  function Drop(s: State, e: Entry): State {
    s.(heap := s.heap - {e})
  }

  /** Pop an entry and close its cell. */
  function Close(s: State, e: Entry): State {
    s.(heap := s.heap - {e}, closed := s.closed + {e.cell})
  }

  ghost predicate Least(s: State, e: Entry) {
    e in s.heap && forall x :: x in s.heap ==> e.f <= x.f
  }

  lemma DropKeeps(q: Query, s: State, tr: map<Cell, seq<Cell>>, live: map<Cell, Entry>, e: Entry, cap: World)
    requires Inv(q, s, tr, live, {}) && e in s.heap && e.cell in s.closed
    ensures Inv(q, Drop(s, e), tr, live, {})
    ensures ClosedBest(q, s, cap) ==> ClosedBest(q, Drop(s, e), cap)
  {
    var s' := Drop(s, e);
    assert Trails(q, s', tr) by {
      forall c | c in tr ensures TrailOk(q, s', tr, c) { assert TrailOk(q, s, tr, c); }
    }
    forall c | c in s'.closed ensures SettledAll(q, s', c) {
      assert SettledAll(q, s, c);
      forall n | Adjacent(c, n) ensures Settled(q, s', c, n) { assert Settled(q, s, c, n); }
    }
  }

  lemma CloseTrails(q: Query, s: State, tr: map<Cell, seq<Cell>>, e: Entry)
    requires Trails(q, s, tr) && e.cell in s.g
    ensures Trails(q, Close(s, e), tr)
  {
    forall c | c in tr ensures TrailOk(q, Close(s, e), tr, c) { assert TrailOk(q, s, tr, c); }
  }

  lemma CloseSettled(q: Query, s: State, e: Entry)
    requires ClosedSettled(q, s, {}) && e.cell in s.g
    ensures ClosedSettled(q, Close(s, e), {e.cell})
  {
    var s' := Close(s, e);
    forall c | c in s'.closed && c !in {e.cell} ensures SettledAll(q, s', c) {
      assert SettledAll(q, s, c);
      forall n | Adjacent(c, n) ensures Settled(q, s', c, n) { assert Settled(q, s, c, n); }
    }
  }

  /** Closing the cell of a least entry keeps the invariant. */
  lemma CloseKeeps(q: Query, s: State, tr: map<Cell, seq<Cell>>, live: map<Cell, Entry>, e: Entry)
    requires Inv(q, s, tr, live, {}) && e in s.heap && e.cell !in s.closed
    ensures Inv(q, Close(s, e), tr, live, {e.cell})
  {
    CloseTrails(q, s, tr, e);
    CloseSettled(q, s, e);
  }

  lemma {:induction false} CostNonNegative(q: Query, p: seq<Cell>, c: Cell, cap: World)
    requires Consistent(q, cap) && Route(q.w, p, q.start, c)
    ensures Cost(cap, p) >= 0.0
  {
    if |p| > 1 {
      var k := |p| - 1;
      Prefix(q.w, p, q.start, c, k);
      CostNonNegative(q, p[..k], p[k - 1], cap);
    }
  }

  /** Along a route the heuristic drops by at most what the route costs at the prices of `cap`. */
  lemma {:induction false} HeuristicBound(q: Query, p: seq<Cell>, c: Cell, i: nat, j: nat, cap: World)
    requires Consistent(q, cap) && Route(q.w, p, q.start, c) && i <= j < |p|
    ensures Cost(cap, p[..i + 1]) + q.h(p[i]) <= Cost(cap, p[..j + 1]) + q.h(p[j])
  {
    if i < j {
      var a, b := p[j - 1], p[j];
      assert Adjacent(a, b) && q.w.open(b);
      assert q.h(a) - q.h(b) <= cap.step(a, b);
      hide Cost, Route, Consistent, Adjacent;
      PrefixCost(cap, p, j);
      HeuristicBound(q, p, c, i, j - 1, cap);
    }
  }

  /** The first cell of a route that is not closed. */
  lemma {:induction false} FirstUnclosed(p: seq<Cell>, closed: set<Cell>, j: nat) returns (i: nat)
    requires j < |p| && p[j] !in closed
    ensures i <= j && p[i] !in closed && (i > 0 ==> p[i - 1] in closed)
  {
    i := j;
    while i > 0 && p[i - 1] !in closed
      invariant i <= j && p[i] !in closed
    {
      i := i - 1;
    }
  }

  /** The first unclosed cell of any route is known, at no more than the cost of the route so far. */
  lemma FrontierCost(q: Query, s: State, p: seq<Cell>, c: Cell, i: nat, cap: World)
    requires ClosedSettled(q, s, {}) && ClosedBest(q, s, cap) && Consistent(q, cap)
    requires Route(q.w, p, q.start, c) && 0 < i < |p| && p[i - 1] in s.closed && p[i] !in s.closed
    ensures p[i] in s.g && s.g[p[i]] <= Cost(cap, p[..i + 1])
  {
    var a, b := p[i - 1], p[i];
    assert SettledAll(q, s, a);
    assert Settled(q, s, a, b);
    Prefix(q.w, p, q.start, c, i);
    PrefixCost(cap, p, i);
    assert Best(q, a, s.g[a], cap);
  }

  /** A least entry of an unclosed cell carries that cell's priority, the least there is. */
  lemma LeastPriority(q: Query, s: State, live: map<Cell, Entry>, e: Entry, c: Cell)
    requires HeapOk(q, s, live) && Least(s, e) && e.cell !in s.closed && c in s.g && c !in s.closed
    ensures e.cell in s.g && s.g[e.cell] + q.h(e.cell) <= s.g[c] + q.h(c)
  {
    assert live[c] in s.heap;
  }

  /** When a cell is taken off the heap its cost is already the best there is. */
  lemma PopIsBest(q: Query, s: State, live: map<Cell, Entry>, e: Entry, p: seq<Cell>, cap: World)
    requires HeapOk(q, s, live) && Least(s, e) && e.cell !in s.closed
    requires ClosedSettled(q, s, {}) && ClosedBest(q, s, cap) && Consistent(q, cap)
    requires q.start !in s.closed ==> s == Init(q)
    requires Route(q.w, p, q.start, e.cell)
    ensures e.cell in s.g && s.g[e.cell] <= Cost(cap, p)
  {
    var i := FirstUnclosed(p, s.closed, |p| - 1);
    if i == 0 {
      CostNonNegative(q, p, e.cell, cap);
    } else {
      FrontierCost(q, s, p, e.cell, i, cap);
      LeastPriority(q, s, live, e, p[i]);
      HeuristicBound(q, p, e.cell, i, |p| - 1, cap);
      assert p[..|p| - 1 + 1] == p;
    }
  }

  lemma CloseBest(q: Query, s: State, tr: map<Cell, seq<Cell>>, live: map<Cell, Entry>, e: Entry, cap: World)
    requires Inv(q, s, tr, live, {}) && Least(s, e) && e.cell !in s.closed
    requires ClosedBest(q, s, cap) && Consistent(q, cap)
    ensures ClosedBest(q, Close(s, e), cap)
  {
    forall p | Route(q.w, p, q.start, e.cell) ensures s.g[e.cell] <= Cost(cap, p) {
      PopIsBest(q, s, live, e, p, cap);
    }
    assert Best(q, e.cell, s.g[e.cell], cap);
  }

  /** With the heap empty, every cell that any route reaches has been closed. */
  lemma {:induction false} ExhaustedReach(q: Query, s: State, tr: map<Cell, seq<Cell>>, live: map<Cell, Entry>, p: seq<Cell>, c: Cell)
    requires Inv(q, s, tr, live, {}) && s.heap == {} && Route(q.w, p, q.start, c)
    ensures c in s.closed
  {
    if |p| > 1 {
      var k := |p| - 1;
      Prefix(q.w, p, q.start, c, k);
      ExhaustedReach(q, s, tr, live, p[..k], p[k - 1]);
      assert SettledAll(q, s, p[k - 1]);
      assert Settled(q, s, p[k - 1], c);
    }
  }
}
