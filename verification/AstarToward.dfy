/** `astar_toward` of body/lib/astar.py: the best-effort search. */
module BestEffort {
  import opened Options
  import opened Grid
  import opened Paths
  import opened SearchState
  import opened Astar

  /**
   How endpoints are ranked: distance to the goal, the geometric length past
   which a cell counts as a detour, the endpoint mask, and the tie width.
   */
  datatype Ranking = Ranking(near: Cell -> real, limit: Cell -> real, gated: bool, goalOk: Option<Raster<bool>>, tie: real) {
    predicate Accepts(c: Cell) {
      goalOk.None? || (goalOk.value.Has(c) && goalOk.value.Get(c))
    }

    predicate Detour(start: Cell, c: Cell, length: real) {
      gated && c != start && length > limit(c)
    }

    /** `_key(c)[0]`: detours are pushed out by a million cells. */
    function Rank(start: Cell, c: Cell, length: real): real {
      near(c) + (if Detour(start, c, length) then 1000000.0 else 0.0)
    }
  }

  function MakeRanking(norm: (int, int) -> real, start: Cell, goal: Cell, goalOk: Option<Raster<bool>>,
                       tie: real, ratio: real, slack: real): Ranking {
    Ranking((c: Cell) => norm(c.i - goal.i, c.j - goal.j), (c: Cell) => ratio * Octile(start, c) + slack,
            ratio > 0.0, goalOk, tie)
  }

  /**
   A cell is a detour when the gate is on and the way to it is longer than `ratio`
   times the octile distance and the slack; the start never is.
   */
  lemma DetourIs(norm: (int, int) -> real, start: Cell, goal: Cell, goalOk: Option<Raster<bool>>, tie: real, ratio: real, slack: real,
                 c: Cell, length: real)
    ensures var r := MakeRanking(norm, start, goal, goalOk, tie, ratio, slack);
      r.Detour(start, c, length) <==> ratio > 0.0 && c != start && length > ratio * Octile(start, c) + slack
  {
  }

  /** A detour ranks by its distance, but behind every cell that is none and less than a million cells farther. */
  lemma RankOrder(r: Ranking, start: Cell, a: Cell, b: Cell, la: real, lb: real)
    ensures r.Detour(start, a, la) == r.Detour(start, b, lb) ==> (r.Rank(start, a, la) < r.Rank(start, b, lb) <==> r.near(a) < r.near(b))
    ensures !r.Detour(start, a, la) ==> r.Rank(start, a, la) == r.near(a)
    ensures !r.Detour(start, a, la) && r.Detour(start, b, lb) && r.near(a) < r.near(b) + 1000000.0 ==>
      r.Rank(start, a, la) < r.Rank(start, b, lb)
  {
  }

  /** Python's tuple order on `(rank, g)`. */
  predicate Less(a: (real, real), b: (real, real)) {
    a.0 < b.0 || (a.0 == b.0 && a.1 < b.1)
  }

  function Key(r: Ranking, start: Cell, s: State, c: Cell): (real, real)
    requires Known(s, c)
  {
    (r.Rank(start, c, s.plen[c]), s.g[c])
  }

  /** The key of a cell by the trail that leads to it. */
  ghost function TrailKey(r: Ranking, w: World, p: seq<Cell>): (real, real)
    requires p != []
  {
    (r.Rank(p[0], p[|p| - 1], Length(p)), Cost(w, p))
  }

  /** The trail keys of the closed cells are defined. */
  ghost predicate Trailed(tr: map<Cell, seq<Cell>>, order: seq<Cell>) {
    forall c :: c in order ==> c in tr && tr[c] != []
  }

  /** Whether a cell is a candidate: with `filtered`, only those the mask accepts are. */
  predicate Counts(r: Ranking, filtered: bool, c: Cell) {
    filtered ==> r.Accepts(c)
  }

  /** Candidate `k` of the closing order has `key`: no candidate beats it and none before it matches it. */
  ghost predicate LeadsAt(r: Ranking, w: World, tr: map<Cell, seq<Cell>>, order: seq<Cell>, filtered: bool, k: nat, key: (real, real))
    requires Trailed(tr, order)
  {
    && k < |order| && Counts(r, filtered, order[k]) && key == TrailKey(r, w, tr[order[k]])
    && (forall j :: 0 <= j < k && Counts(r, filtered, order[j]) ==> Less(key, TrailKey(r, w, tr[order[j]])))
    && (forall j :: k <= j < |order| && Counts(r, filtered, order[j]) ==> !Less(TrailKey(r, w, tr[order[j]]), key))
  }

  /** `best` is the first of the best candidates. */
  ghost predicate Leads(r: Ranking, w: World, tr: map<Cell, seq<Cell>>, order: seq<Cell>, filtered: bool, best: Cell, key: (real, real)) {
    Trailed(tr, order) && exists k: nat :: LeadsAt(r, w, tr, order, filtered, k, key) && order[k] == best
  }

  lemma KeyIsTrailKey(q: Query, r: Ranking, s: State, tr: map<Cell, seq<Cell>>, c: Cell)
    requires Trails(q, s, tr) && c in tr
    ensures Known(s, c) && tr[c] != [] && Key(r, q.start, s, c) == TrailKey(r, q.w, tr[c])
  {
    assert TrailOk(q, s, tr, c);
  }

  lemma LessTrans(a: (real, real), b: (real, real), c: (real, real))
    requires Less(a, b) && !Less(c, b)
    ensures Less(a, c)
  {
  }

  lemma LessBoth(a: (real, real), b: (real, real), c: (real, real))
    requires Less(a, b) && Less(b, c)
    ensures Less(a, c)
  {
  }

  lemma LessItself(a: (real, real))
    ensures !Less(a, a)
  {
  }

  lemma LeadsGrow(r: Ranking, w: World, tr: map<Cell, seq<Cell>>, order: seq<Cell>, filtered: bool, best: Cell, key: (real, real),
                  cur: Cell)
    requires Leads(r, w, tr, order, filtered, best, key) && cur in tr && tr[cur] != []
    ensures var k := TrailKey(r, w, tr[cur]);
      if Counts(r, filtered, cur) && Less(k, key) then Leads(r, w, tr, order + [cur], filtered, cur, k)
      else Leads(r, w, tr, order + [cur], filtered, best, key)
  {
    hide TrailKey, Less;
    var n: nat :| LeadsAt(r, w, tr, order, filtered, n, key) && order[n] == best;
    var k, next := TrailKey(r, w, tr[cur]), order + [cur];
    assert forall j :: 0 <= j < |order| ==> next[j] == order[j];
    if Counts(r, filtered, cur) && Less(k, key) {
      forall j | 0 <= j < |order| && Counts(r, filtered, order[j]) ensures Less(k, TrailKey(r, w, tr[order[j]])) {
        if j < n {
          LessBoth(k, key, TrailKey(r, w, tr[order[j]]));
        } else {
          LessTrans(k, key, TrailKey(r, w, tr[order[j]]));
        }
      }
      LessItself(k);
      assert LeadsAt(r, w, tr, next, filtered, |order|, k);
    } else {
      assert LeadsAt(r, w, tr, next, filtered, n, key);
    }
  }

  /** The first candidate of all leads. */
  lemma LeadsFirst(r: Ranking, w: World, tr: map<Cell, seq<Cell>>, order: seq<Cell>, filtered: bool, cur: Cell)
    requires Trailed(tr, order + [cur]) && Counts(r, filtered, cur)
    requires forall c :: c in order ==> !Counts(r, filtered, c)
    ensures Leads(r, w, tr, order + [cur], filtered, cur, TrailKey(r, w, tr[cur]))
  {
    hide TrailKey, Less;
    var next := order + [cur];
    assert forall j :: 0 <= j < |order| ==> next[j] == order[j];
    LessItself(TrailKey(r, w, tr[cur]));
    assert LeadsAt(r, w, tr, next, filtered, |order|, TrailKey(r, w, tr[cur]));
  }

  lemma LeadsSame(r: Ranking, w: World, tr: map<Cell, seq<Cell>>, tr': map<Cell, seq<Cell>>, order: seq<Cell>, filtered: bool,
                  best: Cell, key: (real, real))
    requires Leads(r, w, tr, order, filtered, best, key) && forall c :: c in order ==> c in tr' && tr'[c] == tr[c]
    ensures Leads(r, w, tr', order, filtered, best, key)
  {
    hide TrailKey, Less;
    var n: nat :| LeadsAt(r, w, tr, order, filtered, n, key) && order[n] == best;
    assert LeadsAt(r, w, tr', order, filtered, n, key);
  }

  /** The accepted ones among `cells`. */
  ghost function AcceptedOf(r: Ranking, cells: set<Cell>): set<Cell> {
    set c | c in cells && r.Accepts(c)
  }

  /** The cells an endpoint is chosen among: the accepted ones, or all when a mask accepts none. */
  ghost function Pool(r: Ranking, cells: set<Cell>): set<Cell> {
    if AcceptedOf(r, cells) == {} then cells else AcceptedOf(r, cells)
  }

  /** The best endpoint so far, with its key, and the best one the mask accepts. */
  datatype Leaders = Leaders(best: Cell, bestKey: (real, real), bestOk: Option<Cell>, okKey: (real, real)) {
    /** Whether the mask decides between endpoints. */
    predicate Filtered(r: Ranking) {
      r.goalOk.Some? && bestOk.Some?
    }

    function Base(r: Ranking): Cell {
      if r.goalOk.Some? && bestOk.Some? then bestOk.value else best
    }
  }

  /** The trackers after closing `cur`, whose key is `k`. */
  function Track(r: Ranking, l: Leaders, cur: Cell, k: (real, real)): Leaders {
    var swap := Less(k, l.bestKey);
    var take := r.goalOk.Some? && r.Accepts(cur) && (l.bestOk.None? || Less(k, l.okKey));
    Leaders(if swap then cur else l.best, if swap then k else l.bestKey,
            if take then Some(cur) else l.bestOk, if take then k else l.okKey)
  }

  ghost predicate Tracked(r: Ranking, w: World, tr: map<Cell, seq<Cell>>, order: seq<Cell>, l: Leaders) {
    && Leads(r, w, tr, order, false, l.best, l.bestKey)
    && (r.goalOk.Some? ==>
          if l.bestOk.Some? then Leads(r, w, tr, order, true, l.bestOk.value, l.okKey)
          else forall c :: c in order ==> !r.Accepts(c))
  }

  lemma TrailedGrow(r: Ranking, w: World, tr: map<Cell, seq<Cell>>, order: seq<Cell>, l: Leaders, cur: Cell)
    requires Tracked(r, w, tr, order, l) && cur in tr && tr[cur] != []
    ensures Trailed(tr, order + [cur])
  {
  }

  lemma TrackedGrow(r: Ranking, w: World, tr: map<Cell, seq<Cell>>, order: seq<Cell>, l: Leaders, cur: Cell)
    requires Tracked(r, w, tr, order, l) && cur in tr && tr[cur] != []
    ensures Tracked(r, w, tr, order + [cur], Track(r, l, cur, TrailKey(r, w, tr[cur])))
  {
    hide Leads, TrailKey, Less;
    LeadsGrow(r, w, tr, order, false, l.best, l.bestKey, cur);
    if r.goalOk.Some? {
      if l.bestOk.Some? {
        LeadsGrow(r, w, tr, order, true, l.bestOk.value, l.okKey, cur);
      } else if r.Accepts(cur) {
        TrailedGrow(r, w, tr, order, l, cur);
        LeadsFirst(r, w, tr, order, true, cur);
      }
    }
  }

  lemma TrackedSame(r: Ranking, w: World, tr: map<Cell, seq<Cell>>, tr': map<Cell, seq<Cell>>, order: seq<Cell>, l: Leaders)
    requires Tracked(r, w, tr, order, l) && forall c :: c in order ==> c in tr' && tr'[c] == tr[c]
    ensures Tracked(r, w, tr', order, l)
  {
    hide Leads;
    LeadsSame(r, w, tr, tr', order, false, l.best, l.bestKey);
    if r.goalOk.Some? && l.bestOk.Some? {
      LeadsSame(r, w, tr, tr', order, true, l.bestOk.value, l.okKey);
    }
  }

  /** Cells that tie with `base`: other than the start, in the pool, at most `tie` farther from the goal. */
  ghost predicate Tied(r: Ranking, start: Cell, cells: set<Cell>, base: Cell, c: Cell) {
    c in Pool(r, cells) && c != start && r.near(c) <= r.near(base) + r.tie
  }

  /** What a search leaves: the closed cells with the route each was reached by, in closing order, and the two endpoints. */
  datatype Trace = Trace(settled: map<Cell, seq<Cell>>, order: seq<Cell>, base: Cell, end: Cell)

  /** `order` lists the settled cells, each once, from the start on. */
  ghost predicate Ordered(start: Cell, x: Trace) {
    && (forall c :: c in x.order <==> c in x.settled)
    && (forall i, j :: 0 <= i < j < |x.order| ==> x.order[i] != x.order[j])
    && x.order != [] && x.order[0] == start
  }

  /** The end is the first, in closing order, of the cheapest tied cells, all dearer than the base missing. */
  ghost predicate FirstCheapest(r: Ranking, w: World, start: Cell, x: Trace, k: nat)
    requires forall c :: c in x.order ==> c in x.settled
  {
    && k < |x.order| && x.order[k] == x.end && Tied(r, start, x.settled.Keys, x.base, x.end)
    && forall j :: 0 <= j < k && Tied(r, start, x.settled.Keys, x.base, x.order[j]) ==>
         Cost(w, x.settled[x.end]) < Cost(w, x.settled[x.order[j]])
  }

  /** With a tie width the end is a cheapest tied cell: the base if it is one, else the first closed. */
  ghost predicate PicksTie(r: Ranking, w: World, start: Cell, x: Trace) {
    && Ordered(start, x) && x.base in x.settled && x.end in x.settled
    && Tied(r, start, x.settled.Keys, x.base, x.end)
    && (forall c :: c in x.settled && Tied(r, start, x.settled.Keys, x.base, c) ==>
          Cost(w, x.settled[x.end]) <= Cost(w, x.settled[c]))
    && (x.end == x.base
        || (Cost(w, x.settled[x.end]) < Cost(w, x.settled[x.base]) && exists k: nat :: FirstCheapest(r, w, start, x, k)))
  }

  ghost function TrailKey'(r: Ranking, w: World, settled: map<Cell, seq<Cell>>, c: Cell): (real, real)
    requires c in settled
  {
    if settled[c] == [] then (0.0, 0.0) else TrailKey(r, w, settled[c])
  }

  /** `base` is the first leader of the pool, and `end` is it, or with a tie width what the tie pass picks. */
  ghost predicate Chosen(r: Ranking, w: World, start: Cell, x: Trace) {
    && Ordered(start, x) && x.end in x.settled && x.base in x.settled
    && x.base in Pool(r, x.settled.Keys)
    && Leads(r, w, x.settled, x.order, r.goalOk.Some? && AcceptedOf(r, x.settled.Keys) != {}, x.base, TrailKey'(r, w, x.settled, x.base))
    && if r.tie <= 0.0 || x.base == start then x.end == x.base else PicksTie(r, w, start, x)
  }

  /** What the near-tie pass looks for: not the start, let through by the mask, near enough. */
  predicate InTie(r: Ranking, start: Cell, filtered: bool, base: Cell, c: Cell) {
    c != start && Counts(r, filtered, c) && r.near(c) <= r.near(base) + r.tie
  }

  ghost predicate FirstAt(r: Ranking, q: Query, s: State, order: seq<Cell>, filtered: bool, base: Cell, cand: Cell, k: nat)
    requires cand in s.g && forall c :: c in order ==> c in s.g
  {
    && k < |order| && order[k] == cand && InTie(r, q.start, filtered, base, cand)
    && forall j :: 0 <= j < k && InTie(r, q.start, filtered, base, order[j]) ==> s.g[cand] < s.g[order[j]]
  }

  /** The candidate of the tie pass after the first `n` closed cells. */
  ghost predicate TiePass(r: Ranking, q: Query, s: State, order: seq<Cell>, filtered: bool, base: Cell, cand: Cell, n: nat)
    requires base in s.g && forall c :: c in order ==> c in s.g
  {
    && cand in s.g
    && (forall j :: 0 <= j < n <= |order| && InTie(r, q.start, filtered, base, order[j]) ==> s.g[cand] <= s.g[order[j]])
    && (cand == base || (s.g[cand] < s.g[base] && exists k: nat :: k < n && FirstAt(r, q, s, order, filtered, base, cand, k)))
  }

  lemma TiePassStep(r: Ranking, q: Query, s: State, order: seq<Cell>, filtered: bool, base: Cell, cand: Cell, n: nat)
    requires base in s.g && (forall c :: c in order ==> c in s.g) && n < |order|
    requires TiePass(r, q, s, order, filtered, base, cand, n)
    ensures var c := order[n];
      TiePass(r, q, s, order, filtered, base, if InTie(r, q.start, filtered, base, c) && s.g[c] < s.g[cand] then c else cand, n + 1)
  {
    hide InTie;
    var c := order[n];
    if InTie(r, q.start, filtered, base, c) && s.g[c] < s.g[cand] {
      assert FirstAt(r, q, s, order, filtered, base, c, n);
    }
  }

  lemma TiePassStart(r: Ranking, q: Query, s: State, order: seq<Cell>, filtered: bool, base: Cell)
    requires base in s.g && forall c :: c in order ==> c in s.g
    ensures TiePass(r, q, s, order, filtered, base, base, 0)
  {
  }

  lemma TiePassKnown(r: Ranking, q: Query, s: State, order: seq<Cell>, filtered: bool, base: Cell, cand: Cell, n: nat)
    requires base in s.g && (forall c :: c in order ==> c in s.g) && TiePass(r, q, s, order, filtered, base, cand, n)
    ensures cand in s.g
  {
  }

  /**
   The near-tie pass over the closed cells, in closing order: the base if no tied
   cell is cheaper, else the first closed of the cheapest.
   */
  method CheapestTie(r: Ranking, q: Query, s: State, order: seq<Cell>, base: Cell, filtered: bool) returns (cand: Cell)
    requires base in s.g && forall c :: c in order ==> c in s.g
    ensures TiePass(r, q, s, order, filtered, base, cand, |order|)
  {
    hide TiePass;
    var dbest := r.near(base);
    cand := base;
    TiePassStart(r, q, s, order, filtered, base);
    for n := 0 to |order|
      invariant cand in s.g && TiePass(r, q, s, order, filtered, base, cand, n)
    {
      var c := order[n];
      TiePassStep(r, q, s, order, filtered, base, cand, n);
      if c == q.start { continue; }
      if filtered && !r.Accepts(c) { continue; }
      if r.near(c) <= dbest + r.tie && s.g[c] < s.g[cand] {
        cand := c;
      }
      TiePassKnown(r, q, s, order, filtered, base, cand, n + 1);
    }
  }

  /** `order` is the order the closed cells were closed in. */
  ghost predicate ClosingOrder(q: Query, s: State, order: seq<Cell>) {
    && (forall c :: c in order <==> c in s.closed)
    && (forall i, j :: 0 <= i < j < |order| ==> order[i] != order[j])
    && (order != [] ==> order[0] == q.start)
  }

  /** With the mask deciding exactly when it accepts some closed cell, the candidates are the pool. */
  lemma PoolIs(r: Ranking, w: World, tr: map<Cell, seq<Cell>>, order: seq<Cell>, cells: set<Cell>, l: Leaders)
    requires Tracked(r, w, tr, order, l) && forall c :: c in order <==> c in cells
    ensures l.Filtered(r) <==> r.goalOk.Some? && AcceptedOf(r, cells) != {}
    ensures forall c :: c in Pool(r, cells) <==> c in cells && Counts(r, l.Filtered(r), c)
    ensures l.Base(r) in order && Counts(r, l.Filtered(r), l.Base(r))
  {
    hide TrailKey, Less;
    if l.Filtered(r) {
      var k: nat :| LeadsAt(r, w, tr, order, true, k, l.okKey) && order[k] == l.bestOk.value;
      assert order[k] in AcceptedOf(r, cells);
    } else {
      var k: nat :| LeadsAt(r, w, tr, order, false, k, l.bestKey) && order[k] == l.best;
      assert order[k] in order;
      if r.goalOk.None? {
        assert AcceptedOf(r, cells) == cells;
      } else {
        assert AcceptedOf(r, cells) == {};
      }
    }
  }

  lemma LeaderKey(r: Ranking, w: World, tr: map<Cell, seq<Cell>>, order: seq<Cell>, filtered: bool, best: Cell, key: (real, real))
    requires Leads(r, w, tr, order, filtered, best, key)
    ensures best in order && best in tr && tr[best] != [] && key == TrailKey(r, w, tr[best])
  {
  }

  /** The trails of the closed cells. */
  ghost function Settle(tr: map<Cell, seq<Cell>>, cells: set<Cell>): map<Cell, seq<Cell>>
    requires cells <= tr.Keys
  {
    map c | c in cells :: tr[c]
  }

  lemma BaseLeads(r: Ranking, q: Query, s: State, tr: map<Cell, seq<Cell>>, order: seq<Cell>, l: Leaders)
    requires s.closed <= tr.Keys && ClosingOrder(q, s, order) && Tracked(r, q.w, tr, order, l)
    ensures var settled, base := Settle(tr, s.closed), l.Base(r);
      && settled.Keys == s.closed && base in settled && base in Pool(r, settled.Keys)
      && Leads(r, q.w, settled, order, r.goalOk.Some? && AcceptedOf(r, settled.Keys) != {}, base, TrailKey'(r, q.w, settled, base))
  {
    PoolIs(r, q.w, tr, order, s.closed, l);
    var settled := Settle(tr, s.closed);
    assert settled.Keys == s.closed;
    hide TrailKey, Less, LeadsAt;
    if l.Filtered(r) {
      LeadsSame(r, q.w, tr, settled, order, true, l.bestOk.value, l.okKey);
      LeaderKey(r, q.w, settled, order, true, l.bestOk.value, l.okKey);
    } else {
      LeadsSame(r, q.w, tr, settled, order, false, l.best, l.bestKey);
      LeaderKey(r, q.w, settled, order, false, l.best, l.bestKey);
    }
  }

  lemma EndIsTied(r: Ranking, q: Query, s: State, order: seq<Cell>, filtered: bool, base: Cell, end: Cell)
    requires base in s.g && (forall c :: c in order ==> c in s.g) && TiePass(r, q, s, order, filtered, base, end, |order|)
    requires r.tie > 0.0 && base != q.start && Counts(r, filtered, base) && base in order
    ensures InTie(r, q.start, filtered, base, end) && end in order
  {
  }

  lemma TiedIs(r: Ranking, start: Cell, cells: set<Cell>, filtered: bool, base: Cell)
    requires forall c :: c in Pool(r, cells) <==> c in cells && Counts(r, filtered, c)
    ensures forall c {:trigger Tied(r, start, cells, base, c)} {:trigger InTie(r, start, filtered, base, c)} ::
      c in cells ==> (Tied(r, start, cells, base, c) <==> InTie(r, start, filtered, base, c))
  {
    hide Pool;
  }

  lemma TrailCosts(q: Query, s: State, tr: map<Cell, seq<Cell>>)
    requires Trails(q, s, tr)
    ensures forall c :: c in tr ==> c in s.g && s.g[c] == Cost(q.w, tr[c])
  {
    forall c | c in tr ensures s.g[c] == Cost(q.w, tr[c]) {
      assert TrailOk(q, s, tr, c);
    }
  }

  lemma SettledCosts(q: Query, s: State, tr: map<Cell, seq<Cell>>)
    requires Trails(q, s, tr)
    ensures Settle(tr, s.closed).Keys == s.closed
    ensures forall c :: c in s.closed ==> c in s.g && s.g[c] == Cost(q.w, Settle(tr, s.closed)[c])
  {
    hide Cost;
    TrailCosts(q, s, tr);
  }

  /** The tie pass, read on the settled routes. */
  lemma TiePicked(r: Ranking, q: Query, s: State, x: Trace, filtered: bool)
    requires Ordered(q.start, x) && x.base in x.settled && x.end in x.settled && x.settled.Keys == s.closed
    requires forall c :: c in x.settled ==> c in s.g && s.g[c] == Cost(q.w, x.settled[c])
    requires forall c :: c in x.settled ==>
      (Tied(r, q.start, x.settled.Keys, x.base, c) <==> InTie(r, q.start, filtered, x.base, c))
    requires InTie(r, q.start, filtered, x.base, x.end)
    requires TiePass(r, q, s, x.order, filtered, x.base, x.end, |x.order|)
    ensures PicksTie(r, q.w, q.start, x)
  {
    hide Cost, Tied, InTie;
    if x.end != x.base {
      var k: nat :| k < |x.order| && FirstAt(r, q, s, x.order, filtered, x.base, x.end, k);
      assert forall j :: 0 <= j < |x.order| ==> x.order[j] in x.order;
      assert FirstCheapest(r, q.w, q.start, x, k);
    }
    forall c | c in x.settled && Tied(r, q.start, x.settled.Keys, x.base, c)
      ensures Cost(q.w, x.settled[x.end]) <= Cost(q.w, x.settled[c])
    {
      var j :| 0 <= j < |x.order| && x.order[j] == c;
    }
  }

  lemma TieIsChosen(r: Ranking, q: Query, s: State, tr: map<Cell, seq<Cell>>, order: seq<Cell>, l: Leaders, end: Cell)
    requires Trails(q, s, tr) && r.tie > 0.0 && l.Base(r) != q.start
    requires ClosingOrder(q, s, order) && order != [] && Tracked(r, q.w, tr, order, l)
    requires l.Base(r) in s.g && (forall c :: c in order ==> c in s.g)
    requires TiePass(r, q, s, order, l.Filtered(r), l.Base(r), end, |order|)
    ensures PicksTie(r, q.w, q.start, Trace(Settle(tr, s.closed), order, l.Base(r), end))
  {
    assert s.closed <= tr.Keys;
    hide Tracked, Trails, Cost, Pool, Settle, TiePass, PicksTie;
    PoolIs(r, q.w, tr, order, s.closed, l);
    SettledCosts(q, s, tr);
    EndIsTied(r, q, s, order, l.Filtered(r), l.Base(r), end);
    TiedIs(r, q.start, s.closed, l.Filtered(r), l.Base(r));
    TiePicked(r, q, s, Trace(Settle(tr, s.closed), order, l.Base(r), end), l.Filtered(r));
  }

  lemma PickedIsSettled(r: Ranking, w: World, start: Cell, x: Trace)
    requires PicksTie(r, w, start, x)
    ensures x.end in x.settled
  {
  }

  /** The endpoint rule of `astar_toward`, from what the main loop tracked. */
  method ChooseEnd(r: Ranking, q: Query, s: State, ghost tr: map<Cell, seq<Cell>>, order: seq<Cell>, l: Leaders)
    returns (end: Cell, ghost base: Cell)
    requires Trails(q, s, tr) && ClosingOrder(q, s, order) && order != [] && Tracked(r, q.w, tr, order, l)
    ensures Chosen(r, q.w, q.start, Trace(Settle(tr, s.closed), order, base, end))
  {
    hide Tracked, TiePass, PicksTie, Leads, AcceptedOf, Pool;
    BaseLeads(r, q, s, tr, order, l);
    end := l.Base(r);
    base := end;
    if r.tie > 0.0 && end != q.start {
      end := CheapestTie(r, q, s, order, end, l.Filtered(r));
      TieIsChosen(r, q, s, tr, order, l, end);
      PickedIsSettled(r, q.w, q.start, Trace(Settle(tr, s.closed), order, base, end));
    }
  }

  /** The settled cells with the route each was reached by. */
  ghost predicate Tree(w: World, start: Cell, settled: map<Cell, seq<Cell>>) {
    && start in settled && settled[start] == [start]
    && forall c :: c in settled ==> Route(w, settled[c], start, c)
  }

  ghost predicate TreeOptimal(w: World, settled: map<Cell, seq<Cell>>, eps: real) {
    forall c :: c in settled ==> settled[c] != [] && Optimal(w, settled[c], eps)
  }

  lemma SettledTree(q: Query, s: State, tr: map<Cell, seq<Cell>>, cap: World, eps: real)
    requires Trails(q, s, tr) && q.start in s.closed
    ensures Tree(q.w, q.start, Settle(tr, s.closed))
    ensures cap == Inflated(q.w, eps) && ClosedBest(q, s, cap) ==> TreeOptimal(q.w, Settle(tr, s.closed), eps)
  {
    TrailRoute(q, s, tr, q.start);
    assert TrailOk(q, s, tr, q.start);
    forall c | c in s.closed ensures Route(q.w, tr[c], q.start, c) { TrailRoute(q, s, tr, c); }
    if cap == Inflated(q.w, eps) && ClosedBest(q, s, cap) {
      forall c | c in s.closed ensures tr[c] != [] && Optimal(q.w, tr[c], eps) { TrailOptimal(q, s, tr, c, eps); }
    }
  }

  lemma ExhaustedSettled(q: Query, s: State, tr: map<Cell, seq<Cell>>, live: map<Cell, Entry>)
    requires Inv(q, s, tr, live, {}) && s.heap == {}
    ensures forall c :: Reachable(q.w, q.start, c) ==> c in s.closed
  {
    forall c | Reachable(q.w, q.start, c) ensures c in s.closed {
      var p :| Route(q.w, p, q.start, c);
      ExhaustedReach(q, s, tr, live, p, c);
    }
  }

  function FirstLeaders(r: Ranking, q: Query): Leaders {
    var key := Key(r, q.start, Init(q), q.start);
    Leaders(q.start, key, if r.Accepts(q.start) then Some(q.start) else None, key)
  }

  /** The cells the trackers range over: before the first pop, the start. */
  ghost function Seen(q: Query, order: seq<Cell>): seq<Cell> {
    if order == [] then [q.start] else order
  }

  lemma TrackedInit(r: Ranking, q: Query)
    ensures Tracked(r, q.w, map[q.start := [q.start]], [q.start], FirstLeaders(r, q))
  {
    var tr := map[q.start := [q.start]];
    var key := TrailKey(r, q.w, [q.start]);
    assert key == FirstLeaders(r, q).bestKey;
    hide TrailKey;
    assert LeadsAt(r, q.w, tr, [q.start], false, 0, key);
    if r.Accepts(q.start) {
      assert LeadsAt(r, q.w, tr, [q.start], true, 0, key);
    }
  }

  /** Closing the start again changes nothing: it was there from the beginning. */
  lemma TrackedStart(r: Ranking, q: Query, tr: map<Cell, seq<Cell>>, l: Leaders)
    requires Tracked(r, q.w, tr, [q.start], l)
    ensures q.start in tr && tr[q.start] != []
      && Tracked(r, q.w, tr, [q.start], Track(r, l, q.start, TrailKey(r, q.w, tr[q.start])))
  {
    hide TrailKey;
    var k: nat :| LeadsAt(r, q.w, tr, [q.start], false, k, l.bestKey) && [q.start][k] == l.best;
    if r.goalOk.Some? && l.bestOk.Some? {
      var m: nat :| LeadsAt(r, q.w, tr, [q.start], true, m, l.okKey) && [q.start][m] == l.bestOk.value;
    }
  }

  lemma ClosingGrows(q: Query, s: State, e: Entry, order: seq<Cell>)
    requires ClosingOrder(q, s, order) && e.cell !in s.closed && (order == [] ==> e.cell == q.start)
    ensures ClosingOrder(q, Close(s, e), order + [e.cell])
  {
    var next := order + [e.cell];
    assert forall j :: 0 <= j < |order| ==> next[j] == order[j] && order[j] in order;
  }

  /** One turn of the main loop up to the expansion: close the cell of `e` and track its key. */
  lemma CloseAndTrack(r: Ranking, q: Query, s: State, tr: map<Cell, seq<Cell>>, live: map<Cell, Entry>, e: Entry,
                      order: seq<Cell>, l: Leaders)
    requires Inv(q, s, tr, live, {}) && Least(s, e) && e.cell !in s.closed
    requires ClosingOrder(q, s, order) && Tracked(r, q.w, tr, Seen(q, order), l)
    ensures var t := Close(s, e);
      && Known(t, e.cell) && ClosingOrder(q, t, order + [e.cell])
      && Tracked(r, q.w, tr, order + [e.cell], Track(r, l, e.cell, Key(r, q.start, t, e.cell)))
  {
    KeyIsTrailKey(q, r, s, tr, e.cell);
    hide Tracked, Track, TrailKey;
    if order == [] {
      assert q.start !in s.closed;
      assert e.cell == q.start;
      assert order + [e.cell] == [q.start];
      TrackedStart(r, q, tr, l);
    } else {
      TrackedGrow(r, q.w, tr, order, l, e.cell);
    }
    ClosingGrows(q, s, e, order);
  }

  /** What holds whenever the main loop looks at the heap. */
  ghost predicate Ready(r: Ranking, q: Query, s: State, tr: map<Cell, seq<Cell>>, live: map<Cell, Entry>, order: seq<Cell>,
                        l: Leaders, cap: World) {
    && Inv(q, s, tr, live, {}) && ClosingOrder(q, s, order) && Tracked(r, q.w, tr, Seen(q, order), l)
    && (Consistent(q, cap) ==> ClosedBest(q, s, cap))
  }

  /** What holds once a cell has been closed and its key compared. */
  ghost predicate Closed(r: Ranking, q: Query, s: State, tr: map<Cell, seq<Cell>>, order: seq<Cell>, l: Leaders, cap: World) {
    && Trails(q, s, tr) && q.start in s.closed && ClosingOrder(q, s, order) && Tracked(r, q.w, tr, order, l)
    && (Consistent(q, cap) ==> ClosedBest(q, s, cap))
  }

  lemma DropReady(r: Ranking, q: Query, s: State, tr: map<Cell, seq<Cell>>, live: map<Cell, Entry>, e: Entry, order: seq<Cell>,
                  l: Leaders, cap: World)
    requires Ready(r, q, s, tr, live, order, l, cap) && e in s.heap && e.cell in s.closed
    ensures Ready(r, q, Drop(s, e), tr, live, order, l, cap)
  {
    hide Tracked, Inv, ClosedBest, Consistent;
    DropKeeps(q, s, tr, live, e, cap);
  }

  lemma CloseReady(r: Ranking, q: Query, s: State, tr: map<Cell, seq<Cell>>, live: map<Cell, Entry>, e: Entry, order: seq<Cell>,
                   l: Leaders, cap: World)
    requires Ready(r, q, s, tr, live, order, l, cap) && Least(s, e) && e.cell !in s.closed
    ensures var t := Close(s, e);
      && Inv(q, t, tr, live, {e.cell}) && Known(t, e.cell) && |t.closed| == |s.closed| + 1
      && Closed(r, q, t, tr, order + [e.cell], Track(r, l, e.cell, Key(r, q.start, t, e.cell)), cap)
  {
    CloseStep(q, s, tr, live, e, cap);
    CloseAndTrack(r, q, s, tr, live, e, order, l);
    hide Tracked, Track, ClosedBest, Consistent;
    assert q.start in Close(s, e).closed by {
      assert (order + [e.cell])[0] in order + [e.cell];
    }
  }

  lemma ExpandReady(r: Ranking, q: Query, s: State, tr: map<Cell, seq<Cell>>, t: State, tr': map<Cell, seq<Cell>>,
                    live: map<Cell, Entry>, order: seq<Cell>, l: Leaders, cap: World)
    requires Closed(r, q, s, tr, order, l, cap) && Inv(q, t, tr', live, {}) && t.closed == s.closed
    requires (ClosedBest(q, s, cap) ==> ClosedBest(q, t, cap)) && SameTrails(t.closed, tr, tr')
    ensures Ready(r, q, t, tr', live, order, l, cap)
  {
    hide Tracked, Inv, ClosedBest, Consistent, Trails;
    TrackedSame(r, q.w, tr, tr', order, l);
    assert q.start in order;
  }

  lemma FinishedClosed(r: Ranking, q: Query, s: State, tr: map<Cell, seq<Cell>>, live: map<Cell, Entry>, order: seq<Cell>,
                       l: Leaders, cap: World)
    requires Ready(r, q, s, tr, live, order, l, cap) && s.heap == {}
    ensures Closed(r, q, s, tr, order, l, cap)
    ensures forall c :: Reachable(q.w, q.start, c) ==> c in s.closed
  {
    hide Tracked, ClosedBest, Consistent;
    ExhaustedSettled(q, s, tr, live);
    assert q.start in s.g;
    assert q.start in order;
  }

  lemma StartReady(r: Ranking, q: Query, cap: World)
    ensures Ready(r, q, Init(q), map[q.start := [q.start]], map[q.start := Entry(q.h(q.start), 0, q.start)], [], FirstLeaders(r, q), cap)
  {
    hide Tracked, FirstLeaders;
    InitKeeps(q, cap);
    TrackedInit(r, q);
  }

  lemma ClosedTrails(r: Ranking, q: Query, s: State, tr: map<Cell, seq<Cell>>, order: seq<Cell>, l: Leaders, cap: World)
    requires Closed(r, q, s, tr, order, l, cap)
    ensures Trails(q, s, tr) && ClosingOrder(q, s, order) && order != [] && q.start in s.closed && Tracked(r, q.w, tr, order, l)
    ensures Consistent(q, cap) ==> ClosedBest(q, s, cap)
  {
    assert q.start in order;
  }

  /**
   The main loop of `astar_toward`: it stops at the goal, at the expansion
   limit, or with every reachable cell closed.
   */
  method Explore(r: Ranking, q: Query, lethal: Raster<bool>, cost: Raster<real>, perUnit: real, goal: Cell,
                 maxExpansions: int, ghost cap: World)
    returns (s: State, order: seq<Cell>, l: Leaders, expansions: nat, found: bool, ghost tr: map<Cell, seq<Cell>>)
    requires q.w == CostmapWorld(lethal, cost, perUnit)
    ensures Closed(r, q, s, tr, order, l, cap)
    ensures found ==> goal in s.closed && r.Accepts(goal)
    ensures !found && r.Accepts(goal) ==> goal !in s.closed
    ensures !found && expansions <= maxExpansions ==> forall c :: Reachable(q.w, q.start, c) ==> c in s.closed
    ensures expansions > maxExpansions && expansions > 0 ==> maxExpansions <= CellCount(lethal)
  {
    hide Track, Key, Closed, Ready;
    InitKeeps(q, cap);
    s, order, l, expansions := Init(q), [], FirstLeaders(r, q), 0;
    tr := map[q.start := [q.start]];
    ghost var live := map[q.start := Entry(q.h(q.start), 0, q.start)];
    StartReady(r, q, cap);
    while s.heap != {}
      invariant Ready(r, q, s, tr, live, order, l, cap) && (r.Accepts(goal) ==> goal !in s.closed)
      invariant expansions == |s.closed| && (expansions > 0 ==> expansions <= maxExpansions)
      decreases Universe(lethal, q.start) - s.closed, s.heap
    {
      var e := HeapPop(s.heap);
      var cur := e.cell;
      if cur in s.closed {
        DropReady(r, q, s, tr, live, e, order, l, cap);
        s := Drop(s, e);
        continue;
      }
      CloseReady(r, q, s, tr, live, e, order, l, cap);
      s := Close(s, e);
      order := order + [cur];
      l := Track(r, l, cur, Key(r, q.start, s, cur));
      if cur == goal && r.Accepts(goal) {
        return s, order, l, expansions, true, tr;
      }
      expansions := expansions + 1;
      ClosedTrails(r, q, s, tr, order, l, cap);
      ClosedInUniverse(lethal, cost, perUnit, q, s, tr);
      if expansions > maxExpansions {
        return s, order, l, expansions, false, tr;
      }
      ghost var t, tr0 := s, tr;
      s, tr, live := Expand(q, s, cur, tr, live, cap);
      ExpandReady(r, q, t, tr0, s, tr, live, order, l, cap);
    }
    FinishedClosed(r, q, s, tr, live, order, l, cap);
    found := false;
  }

  /** An endpoint that is worth going to: not the start, and its rank beats the start's distance. */
  predicate Progress(r: Ranking, start: Cell, end: Cell, length: real) {
    end != start && r.Rank(start, end, length) < r.near(start) - 0.000000001
  }

  /** The search came to its end: everything reachable was considered, and an acceptable goal is out of reach. */
  ghost predicate Exhausted(r: Ranking, w: World, start: Cell, goal: Cell, x: Trace) {
    && (forall c :: Reachable(w, start, c) ==> c in x.settled)
    && (r.Accepts(goal) ==> !Reachable(w, start, goal))
  }

  /** Everything `astar_toward` promises about one answer, `x` being what the search left. */
  ghost predicate Answers(r: Ranking, cost: Raster<real>, lethal: Raster<bool>, start: Cell, goal: Cell, perUnit: real, hWeight: real,
                          maxExpansions: int, path: seq<Cell>, expansions: nat, msg: Outcome, x: Trace) {
    var w := CostmapWorld(lethal, cost, perUnit);
    && (msg == Ok || msg == Frontier || msg == NoPath)
    && Tree(w, start, x.settled) && x.end in x.settled
    && (NonNegative(w) ==> TreeOptimal(w, x.settled, Epsilon(hWeight)))
    && path == (if msg == NoPath then [start] else x.settled[x.end])
    && (msg == Ok ==> x.end == goal && r.Accepts(goal))
    && (msg != Ok ==> Chosen(r, w, start, x) && (msg == Frontier <==> Progress(r, start, x.end, Length(x.settled[x.end]))))
    && (msg != Ok && expansions <= maxExpansions ==> Exhausted(r, w, start, goal, x))
    && (maxExpansions > CellCount(lethal) ==> expansions <= maxExpansions)
  }

  lemma LengthKnown(q: Query, s: State, tr: map<Cell, seq<Cell>>, c: Cell)
    requires Trails(q, s, tr) && c in s.closed
    ensures c in tr && c in s.plen && s.plen[c] == Length(tr[c])
  {
    assert TrailOk(q, s, tr, c);
  }

  lemma StartOnly(w: World, start: Cell, eps: real)
    requires eps >= 1.0
    ensures Tree(w, start, map[start := [start]])
    ensures NonNegative(w) ==> TreeOptimal(w, map[start := [start]], eps)
  {
    StayOptimal(w, start, eps);
  }

  lemma ChosenIsSettled(r: Ranking, w: World, start: Cell, x: Trace)
    requires Chosen(r, w, start, x)
    ensures x.end in x.settled && x.base in x.settled
  {
  }

  lemma NoGoalClosed(r: Ranking, q: Query, s: State, tr: map<Cell, seq<Cell>>, goal: Cell, x: Trace)
    requires s.closed <= tr.Keys && x.settled == Settle(tr, s.closed) && (r.Accepts(goal) ==> goal !in s.closed)
    requires forall c :: Reachable(q.w, q.start, c) ==> c in s.closed
    ensures Exhausted(r, q.w, q.start, goal, x)
  {
    assert x.settled.Keys == s.closed;
  }

  /** The path of an answer: a route from the start, to the goal if it says so, and no more than the start without progress. */
  ghost predicate AnswerPath(w: World, start: Cell, goal: Cell, path: seq<Cell>, msg: Outcome) {
    && path != [] && path[0] == start
    && (if msg == NoPath then path == [start] else Route(w, path, start, path[|path| - 1]))
    && (msg == Ok ==> path[|path| - 1] == goal)
  }

  lemma AnswersPath(w: World, start: Cell, goal: Cell, path: seq<Cell>, msg: Outcome, x: Trace)
    requires Tree(w, start, x.settled) && x.end in x.settled
    requires path == (if msg == NoPath then [start] else x.settled[x.end]) && (msg == Ok ==> x.end == goal)
    ensures AnswerPath(w, start, goal, path, msg)
  {
    assert Route(w, x.settled[x.end], start, x.end);
  }

  /** `astar_toward`. The ghost result is what the search left. */
  method AstarToward(r: Ranking, cost: Raster<real>, lethal: Raster<bool>, start: Cell, goal: Cell,
                     perUnit: real, hWeight: real, maxExpansions: int)
    returns (path: seq<Cell>, expansions: nat, msg: Outcome, ghost x: Trace)
    requires r.goalOk.Some? ==> r.goalOk.value.Has(start)
    ensures Answers(r, cost, lethal, start, goal, perUnit, hWeight, maxExpansions, path, expansions, msg, x)
    ensures AnswerPath(CostmapWorld(lethal, cost, perUnit), start, goal, path, msg)
  {
    hide Chosen, Tracked, TreeOptimal, Closed, Tree, Trails, Exhausted, ClosingOrder, Optimal, ClosedBest, Consistent;
    hide NonNegative, Progress, Route;
    var w := CostmapWorld(lethal, cost, perUnit);
    var q := MakeQuery(w, start, goal, hWeight);
    ghost var cap := Inflated(w, Epsilon(hWeight));
    if start == goal && r.Accepts(goal) {
      StartOnly(w, start, Epsilon(hWeight));
      path, expansions, msg, x := [start], 0, Ok, Trace(map[start := [start]], [start], start, start);
      AnswersPath(w, start, goal, path, msg, x);
      return;
    }
    if NonNegative(w) {
      OctileLipschitz(goal);
      WeightedConsistent(w, start, OctileTo(goal), hWeight);
    }
    var s, order, l, n, found, tr := Explore(r, q, lethal, cost, perUnit, goal, maxExpansions, cap);
    ClosedTrails(r, q, s, tr, order, l, cap);
    expansions := n;
    SettledTree(q, s, tr, cap, Epsilon(hWeight));
    if found {
      path := Reconstruct(q, s, goal, tr);
      msg, x := Ok, Trace(Settle(tr, s.closed), order, goal, goal);
      AnswersPath(w, start, goal, path, msg, x);
      return;
    }
    var chosen, lead := ChooseEnd(r, q, s, tr, order, l);
    x := Trace(Settle(tr, s.closed), order, lead, chosen);
    ChosenIsSettled(r, w, start, x);
    LengthKnown(q, s, tr, chosen);
    if n <= maxExpansions {
      NoGoalClosed(r, q, s, tr, goal, x);
    }
    if !Progress(r, start, chosen, s.plen[chosen]) {
      path, msg := [start], NoPath;
      AnswersPath(w, start, goal, path, msg, x);
      return;
    }
    path := Reconstruct(q, s, chosen, tr);
    msg := Frontier;
    AnswersPath(w, start, goal, path, msg, x);
  }

  // ── what that means for the caller ──

  /** `a` is strictly behind `b` in (distance to the goal, path cost). */
  ghost predicate NearerOrCheaper(r: Ranking, w: World, a: seq<Cell>, b: seq<Cell>)
    requires a != [] && b != []
  {
    Less((r.near(a[|a| - 1]), Cost(w, a)), (r.near(b[|b| - 1]), Cost(w, b)))
  }

  /**
   A frontier endpoint is strictly nearer the goal than the start and never a
   detour, whatever the tie width, when the start is within a million cells.
   */
  lemma FrontierIsNearer(r: Ranking, start: Cell, end: Cell, length: real)
    requires Progress(r, start, end, length) && r.near(end) >= 0.0 && r.near(start) <= 1000000.0
    ensures r.near(end) < r.near(start) && !r.Detour(start, end, length)
  {
  }

  /** The last cell of a route, by whatever route it was settled. */
  function Last(p: seq<Cell>): Cell
    requires p != []
  {
    p[|p| - 1]
  }

  lemma LessNotBoth(a: (real, real), b: (real, real))
    requires Less(a, b)
    ensures !Less(b, a)
  {
  }

  /** No pool cell has a better key than the base. */
  lemma BaseIsLeast(r: Ranking, w: World, start: Cell, x: Trace, c: Cell)
    requires Tree(w, start, x.settled) && Chosen(r, w, start, x) && c in Pool(r, x.settled.Keys)
    ensures x.settled[x.base] != [] && x.settled[c] != []
    ensures !Less(TrailKey(r, w, x.settled[c]), TrailKey(r, w, x.settled[x.base]))
  {
    hide TrailKey, Less, PicksTie, Cost;
    var filtered := r.goalOk.Some? && AcceptedOf(r, x.settled.Keys) != {};
    var k: nat :| LeadsAt(r, w, x.settled, x.order, filtered, k, TrailKey'(r, w, x.settled, x.base)) && x.order[k] == x.base;
    var j :| 0 <= j < |x.order| && x.order[j] == c;
    assert Counts(r, filtered, c);
    if j < k {
      LessNotBoth(TrailKey'(r, w, x.settled, x.base), TrailKey(r, w, x.settled[c]));
    }
  }

  /**
   Best-effort search is exact. Without a tie width, a frontier endpoint beats
   every route there is: no route ends at a pool cell that passes the detour gate
   and is nearer the goal, or as near for less cost. And when no path is
   reported, no such cell is nearer than the start by more than the margin.
   */
  lemma FrontierIsExact(r: Ranking, w: World, start: Cell, goal: Cell, x: Trace)
    requires Tree(w, start, x.settled) && TreeOptimal(w, x.settled, 1.0) && Chosen(r, w, start, x) && Exhausted(r, w, start, goal, x)
    requires r.tie <= 0.0 && r.near(x.end) >= 0.0 && r.near(start) <= 1000000.0
    ensures forall p :: p != [] && Route(w, p, start, Last(p)) && Last(p) in Pool(r, x.settled.Keys)
                        && !r.Detour(start, Last(p), Length(x.settled[Last(p)])) ==>
              if Progress(r, start, x.end, Length(x.settled[x.end])) then !NearerOrCheaper(r, w, p, x.settled[x.end])
              else r.near(Last(p)) >= r.near(start) - 0.000000001
  {
    forall p | p != [] && Route(w, p, start, Last(p)) && Last(p) in Pool(r, x.settled.Keys)
               && !r.Detour(start, Last(p), Length(x.settled[Last(p)]))
      ensures if Progress(r, start, x.end, Length(x.settled[x.end])) then !NearerOrCheaper(r, w, p, x.settled[x.end])
              else r.near(Last(p)) >= r.near(start) - 0.000000001
    {
      var c := Last(p);
      BaseIsLeast(r, w, start, x, c);
      assert Optimal(w, x.settled[c], 1.0);
      assert Cost(w, x.settled[c]) <= 1.0 * Cost(w, p);
    }
  }

  /**
   With a tie width the end is at most that much farther than any cell of the pool
   that passes the detour gate, and no dearer than any cell of the pool that is at
   most that much farther than the leader.
   */
  lemma FrontierIsTied(r: Ranking, w: World, start: Cell, x: Trace, c: Cell)
    requires Tree(w, start, x.settled) && Chosen(r, w, start, x) && r.tie > 0.0 && c in Pool(r, x.settled.Keys)
    ensures x.end in x.settled && x.base in x.settled && c in x.settled
    ensures !r.Detour(start, c, Length(x.settled[c])) ==> r.near(x.end) <= r.near(c) + r.tie
    ensures x.base != start && c != start && r.near(c) <= r.near(x.base) + r.tie ==>
      Cost(w, x.settled[x.end]) <= Cost(w, x.settled[c])
  {
    BaseIsLeast(r, w, start, x, c);
    assert Route(w, x.settled[c], start, c) && Route(w, x.settled[x.base], start, x.base);
    hide Cost, Length, Leads, Route, Tree;
    if x.base != start {
      assert Tied(r, start, x.settled.Keys, x.base, x.end);
    }
  }
}
