/**
 What the tie width of `astar_toward` does to its promise that "no path" means
 no reachable cell is nearer the goal than the start.
 */
module TieWidth {
  import opened Options
  import opened Grid
  import opened Numbers
  import opened Paths
  import opened Astar
  import opened BestEffort

  const MARGIN: real := 0.000000001

  /** One call of `astar_toward` with no endpoint mask. */
  datatype Call = Call(cost: Raster<real>, lethal: Raster<bool>, start: Cell, goal: Cell, perUnit: real, hWeight: real,
                       maxExpansions: int, tie: real, ratio: real, slack: real) {
    function World(): World {
      CostmapWorld(lethal, cost, perUnit)
    }

    function Ranking(norm: (int, int) -> real): Ranking {
      MakeRanking(norm, start, goal, None, tie, ratio, slack)
    }

    /** An answer the contract of `AstarToward` allows. */
    ghost predicate Allows(norm: (int, int) -> real, path: seq<Cell>, expansions: nat, msg: Outcome, x: Trace) {
      Answers(Ranking(norm), cost, lethal, start, goal, perUnit, hWeight, maxExpansions, path, expansions, msg, x)
    }
  }

  function Near(norm: (int, int) -> real, goal: Cell, c: Cell): real {
    norm(c.i - goal.i, c.j - goal.j)
  }

  lemma NearIs(norm: (int, int) -> real, m: Call, c: Cell)
    ensures m.Ranking(norm).near(c) == Near(norm, m.goal, c)
  {
  }

  /** Nearer the goal than the start, by more than the margin. */
  predicate Gains(norm: (int, int) -> real, start: Cell, goal: Cell, c: Cell) {
    Near(norm, goal, c) < Near(norm, goal, start) - MARGIN
  }

  /** Some reachable cell is nearer. */
  ghost predicate CanGain(norm: (int, int) -> real, m: Call) {
    exists c :: Reachable(m.World(), m.start, c) && Gains(norm, m.start, m.goal, c)
  }

  /** Every answer keeps the promise: "no path" after a full search means that nothing reachable is nearer. */
  ghost predicate Kept(norm: (int, int) -> real, m: Call) {
    forall path, n: nat, x :: m.Allows(norm, path, n, NoPath, x) && n <= m.maxExpansions ==> !CanGain(norm, m)
  }

  /** Every answer breaks it: a nearer cell is reachable, and only "no path" after a full search is allowed. */
  ghost predicate Broken(norm: (int, int) -> real, m: Call) {
    && CanGain(norm, m)
    && forall path, n: nat, msg, x :: m.Allows(norm, path, n, msg, x) ==> msg == NoPath && n <= m.maxExpansions
  }

  /** A cell `a` short of the goal that gains, and a cell `i` beside the start that does not, within the tie width of it. */
  predicate Shadows(norm: (int, int) -> real, start: Cell, goal: Cell, tie: real, a: Cell, i: Cell) {
    && a != goal && Gains(norm, start, goal, a)
    && i != start && !Gains(norm, start, goal, i)
    && Near(norm, goal, i) <= Near(norm, goal, a) + tie
  }

  // ── a hidden gain leaves a shadow ──

  lemma Everything(r: Ranking, cells: set<Cell>)
    requires r.goalOk.None?
    ensures Pool(r, cells) == cells
  {
    assert AcceptedOf(r, cells) == cells;
  }

  /** The base of a full search gains when anything the gate lets through does. */
  lemma BaseGains(norm: (int, int) -> real, m: Call, x: Trace, c: Cell)
    requires IsHypot(norm) && (m.ratio > 0.0 ==> Near(norm, m.goal, m.start) <= 1000000.0)
    requires Tree(m.World(), m.start, x.settled) && Chosen(m.Ranking(norm), m.World(), m.start, x)
    requires c in x.settled && Gains(norm, m.start, m.goal, c)
    requires !m.Ranking(norm).Detour(m.start, c, Length(x.settled[c]))
    ensures Gains(norm, m.start, m.goal, x.base) && Near(norm, m.goal, x.base) <= Near(norm, m.goal, c)
    ensures x.settled[x.base] != [] && !m.Ranking(norm).Detour(m.start, x.base, Length(x.settled[x.base]))
  {
    var r := m.Ranking(norm);
    Everything(r, x.settled.Keys);
    BaseIsLeast(r, m.World(), m.start, x, c);
    NearIs(norm, m, c);
    NearIs(norm, m, x.base);
    assert Near(norm, m.goal, x.base) >= 0.0;
    var p, b := x.settled[c], x.settled[x.base];
    assert p[0] == m.start && p[|p| - 1] == c && b[0] == m.start && b[|b| - 1] == x.base;
    hide Length, Cost, Tree, Chosen, IsHypot;
    assert r.Rank(m.start, x.base, Length(b)) <= r.Rank(m.start, c, Length(p));
  }

  /**
   If "no path" hides a cell that the gate lets through and that gains, the base
   gains, and the end, tied with it, does not, or is itself a detour.
   */
  lemma HiddenGain(norm: (int, int) -> real, m: Call, path: seq<Cell>, n: nat, x: Trace, c: Cell)
    requires IsHypot(norm) && (m.ratio > 0.0 ==> Near(norm, m.goal, m.start) <= 1000000.0)
    requires m.Allows(norm, path, n, NoPath, x) && n <= m.maxExpansions
    requires Reachable(m.World(), m.start, c) && Gains(norm, m.start, m.goal, c) && c in x.settled
    requires !m.Ranking(norm).Detour(m.start, c, Length(x.settled[c]))
    ensures x.end in x.settled
    ensures Shadows(norm, m.start, m.goal, m.tie, x.base, x.end)
            || (m.Ranking(norm).Detour(m.start, x.end, Length(x.settled[x.end]))
                && Near(norm, m.goal, x.end) <= Near(norm, m.goal, x.base) + m.tie)
  {
    var r := m.Ranking(norm);
    BaseGains(norm, m, x, c);
    NearIs(norm, m, x.base);
    NearIs(norm, m, x.end);
    NearIs(norm, m, m.start);
    assert x.base != m.goal by {
      assert Route(m.World(), x.settled[x.base], m.start, x.base);
    }
    hide Length, Cost, Tree, Leads, IsHypot, Route;
    if x.end != x.base {
      assert PicksTie(r, m.World(), m.start, x);
    }
  }

  /** With the gate off, the promise holds of every call that no pair of cells shadows. */
  lemma UnshadowedKept(norm: (int, int) -> real, m: Call)
    requires IsHypot(norm) && m.ratio <= 0.0
    requires forall a, i :: !Shadows(norm, m.start, m.goal, m.tie, a, i)
    ensures Kept(norm, m)
  {
    hide Shadows, Gains;
    forall path, n: nat, x | m.Allows(norm, path, n, NoPath, x) && n <= m.maxExpansions ensures !CanGain(norm, m) {
      if CanGain(norm, m) {
        var c :| Reachable(m.World(), m.start, c) && Gains(norm, m.start, m.goal, c);
        HiddenGain(norm, m, path, n, x, c);
      }
    }
  }

  // ── a shadow hides a gain on some map ──

  /** A route of at most `n` steps. */
  ghost predicate Within(w: World, a: Cell, b: Cell, n: nat) {
    exists p :: Route(w, p, a, b) && |p| <= n + 1
  }

  lemma WithinTrans(w: World, a: Cell, b: Cell, c: Cell, n: nat, m: nat)
    requires Within(w, a, b, n) && Within(w, b, c, m)
    ensures Within(w, a, c, n + m)
  {
    var p :| Route(w, p, a, b) && |p| <= n + 1;
    var q :| Route(w, q, b, c) && |q| <= m + 1;
    var r := p + q[1..];
    assert Route(w, r, a, c) && |r| <= n + m + 1;
  }

  /** On the axis-parallel segment between two cells. */
  predicate Between(a: Cell, b: Cell, c: Cell) {
    Min(a.i, b.i) <= c.i <= Max(a.i, b.i) && Min(a.j, b.j) <= c.j <= Max(a.j, b.j)
  }

  /** A straight walk through open cells. */
  lemma {:induction false} Straight(w: World, a: Cell, b: Cell, n: nat)
    requires (a.i == b.i && Abs(a.j - b.j) == n) || (a.j == b.j && Abs(a.i - b.i) == n)
    requires forall c :: Between(a, b, c) ==> w.open(c)
    ensures Within(w, a, b, n)
    decreases n
  {
    if n == 0 {
      assert Route(w, [a], a, b);
    } else {
      var next := Cell(a.i + Sign(b.i - a.i), a.j + Sign(b.j - a.j));
      assert Between(a, b, next);
      forall c | Between(next, b, c) ensures w.open(c) {
        assert Between(a, b, c);
      }
      Straight(w, next, b, n - 1);
      assert Route(w, [a, next], a, next);
      WithinTrans(w, a, next, b, 1, n - 1);
    }
  }

  /** A cell's offset from the goal, whose centre the box of half-width `k` shares. */
  predicate InBox(k: nat, goal: Cell, c: Cell) {
    Abs(c.i - goal.i) <= k && Abs(c.j - goal.j) <= k
  }

  lemma NormOrder(norm: (int, int) -> real, x: int, y: int, u: int, v: int)
    requires IsHypot(norm) && SquareSum(x, y) <= SquareSum(u, v)
    ensures norm(x, y) <= norm(u, v)
  {
    var a, b := norm(x, y), norm(u, v);
    assert a >= 0.0 && b >= 0.0 && a * a <= b * b by {
      assert a * a == SquareSum(x, y) as real && b * b == SquareSum(u, v) as real;
    }
    hide IsHypot, SquareSum;
    if a > b { StrictSquare(b, a); }
  }

  lemma SmallerSquare(a: nat, b: nat)
    requires a <= b
    ensures a * a <= b * b
  {
    assert a * a <= a * b <= b * b;
  }

  lemma AbsSquare(x: int)
    ensures x * x == Abs(x) * Abs(x)
  {
  }

  lemma SquareGrows(x: int, u: int)
    requires Abs(x) <= Abs(u)
    ensures x * x <= u * u
  {
    AbsSquare(x);
    AbsSquare(u);
    hide Abs;
    SmallerSquare(Abs(x), Abs(u));
  }

  /** Moving out along either axis goes farther from the goal. */
  lemma OutIsFarther(norm: (int, int) -> real, x: int, y: int, u: int, v: int)
    requires IsHypot(norm) && Abs(x) <= Abs(u) && Abs(y) <= Abs(v)
    ensures norm(x, y) <= norm(u, v)
  {
    SquareGrows(x, u);
    SquareGrows(y, v);
    NormOrder(norm, x, y, u, v);
  }

  lemma SumSquares(a: nat, b: nat)
    ensures a * a + b * b <= (a + b) * (a + b)
  {
    assert (a + b) * (a + b) == a * a + 2 * (a * b) + b * b;
  }

  /** A cell `|x| + |y|` out along one axis is at least as far as `(x, y)`, wherever along the other. */
  lemma EdgeIsFarther(norm: (int, int) -> real, x: int, y: int, u: int, v: int, k: nat)
    requires IsHypot(norm) && Abs(x) + Abs(y) <= k && (Abs(u) == k || Abs(v) == k)
    ensures norm(x, y) <= norm(u, v)
  {
    SumSquares(Abs(x), Abs(y));
    SquareGrows(x, Abs(x));
    SquareGrows(y, Abs(y));
    SquareGrows(Abs(x) + Abs(y), k);
    SquareGrows(k, if Abs(u) == k then u else v);
    SquareGrows(0, u);
    SquareGrows(0, v);
    NormOrder(norm, x, y, u, v);
  }

  /** Open is every cell of the box at least `rad` from the goal. */
  ghost predicate OpenOutside(norm: (int, int) -> real, w: World, goal: Cell, k: nat, rad: real) {
    forall c :: InBox(k, goal, c) && Near(norm, goal, c) >= rad ==> w.open(c)
  }

  lemma BetweenBack(a: Cell, b: Cell, c: Cell)
    ensures Between(a, b, c) == Between(b, a, c)
  {
  }

  lemma LegBothWays(w: World, a: Cell, b: Cell, n: nat)
    requires (a.i == b.i && Abs(a.j - b.j) <= n) || (a.j == b.j && Abs(a.i - b.i) <= n)
    requires forall c :: Between(a, b, c) ==> w.open(c)
    ensures Within(w, a, b, n) && Within(w, b, a, n)
  {
    var d := if a.i == b.i then Abs(a.j - b.j) else Abs(a.i - b.i);
    forall c | Between(b, a, c) ensures w.open(c) {
      BetweenBack(a, b, c);
    }
    Straight(w, a, b, d);
    Straight(w, b, a, d);
  }

  lemma ThereAndBack(w: World, p: Cell, side: Cell, turn: Cell, corner: Cell, k: nat)
    requires p.j == side.j && side.i == turn.i && turn.j == corner.j
    requires Abs(p.i - side.i) <= 2 * k && Abs(side.j - turn.j) <= 2 * k && Abs(turn.i - corner.i) <= 2 * k
    requires forall c :: Between(p, side, c) || Between(side, turn, c) || Between(turn, corner, c) ==> w.open(c)
    ensures Within(w, p, corner, 6 * k) && Within(w, corner, p, 6 * k)
  {
    LegBothWays(w, p, side, 2 * k);
    LegBothWays(w, side, turn, 2 * k);
    LegBothWays(w, turn, corner, 2 * k);
    hide Within, Between;
    WithinTrans(w, p, side, turn, 2 * k, 2 * k);
    WithinTrans(w, p, turn, corner, 4 * k, 2 * k);
    WithinTrans(w, corner, turn, side, 2 * k, 2 * k);
    WithinTrans(w, corner, side, p, 4 * k, 2 * k);
  }

  /** From any cell outside the disk, a walk outside it leads to the corner of the box, and back. */
  lemma RoundToCorner(norm: (int, int) -> real, w: World, goal: Cell, k: nat, rad: real, p: Cell)
    requires IsHypot(norm) && OpenOutside(norm, w, goal, k, rad)
    requires Near(norm, goal, p) >= rad && Abs(p.i - goal.i) + Abs(p.j - goal.j) <= k
    ensures Within(w, p, Cell(goal.i + k, goal.j + k), 6 * k) && Within(w, Cell(goal.i + k, goal.j + k), p, 6 * k)
  {
    var x := if p.i >= goal.i then goal.i + k else goal.i - k;
    var side, turn, corner := Cell(x, p.j), Cell(x, goal.j + k), Cell(goal.i + k, goal.j + k);
    forall c | Between(p, side, c) ensures w.open(c) {
      OutIsFarther(norm, p.i - goal.i, p.j - goal.j, c.i - goal.i, c.j - goal.j);
    }
    forall c | Between(side, turn, c) || Between(turn, corner, c) ensures w.open(c) {
      EdgeIsFarther(norm, p.i - goal.i, p.j - goal.j, c.i - goal.i, c.j - goal.j, k);
    }
    hide IsHypot, OpenOutside;
    ThereAndBack(w, p, side, turn, corner, k);
  }

  /** Any two cells outside a disk are joined outside it. */
  lemma RoundTheDisk(norm: (int, int) -> real, w: World, goal: Cell, k: nat, rad: real, p: Cell, q: Cell)
    requires IsHypot(norm) && OpenOutside(norm, w, goal, k, rad)
    requires Near(norm, goal, p) >= rad && Abs(p.i - goal.i) + Abs(p.j - goal.j) <= k
    requires Near(norm, goal, q) >= rad && Abs(q.i - goal.i) + Abs(q.j - goal.j) <= k
    ensures Within(w, p, q, 12 * k)
  {
    hide IsHypot, OpenOutside, Within;
    RoundToCorner(norm, w, goal, k, rad, p);
    RoundToCorner(norm, w, goal, k, rad, q);
    WithinTrans(w, p, Cell(goal.i + k, goal.j + k), q, 6 * k, 6 * k);
  }

  function Taxi(c: Cell, goal: Cell): nat {
    Abs(c.i - goal.i) + Abs(c.j - goal.j)
  }

  /** Half the width of the map: every cell of interest is within it, even walking. */
  function HalfWidth(start: Cell, goal: Cell, a: Cell, i: Cell): nat {
    Taxi(start, goal) + Taxi(a, goal) + Taxi(i, goal)
  }

  /** The same cell on a map whose centre is the goal. */
  function Moved(goal: Cell, k: nat, c: Cell): Cell {
    Cell(c.i - goal.i + k, c.j - goal.j + k)
  }

  /** More than the dearest way round that gains nothing. */
  function Toll(k: nat, hWeight: real): real {
    Epsilon(hWeight) * (24 * k) as real + 1.0
  }

  /**
   The map that hides the gain at `a` behind `i`: a square round the goal, lethal
   wherever it is nearer than `a`, and with a toll on every cell that gains.
   */
  function TieCall(norm: (int, int) -> real, start: Cell, goal: Cell, tie: real, a: Cell, i: Cell, hWeight: real): Call {
    var k := HalfWidth(start, goal, a, i);
    var n := 2 * k + 1;
    Call(Raster(n, n, (x: int, y: int) =>
           if Near(norm, Cell(k, k), Cell(x, y)) < Near(norm, goal, start) - MARGIN then Toll(k, hWeight) else 0.0),
         Raster(n, n, (x: int, y: int) => Near(norm, Cell(k, k), Cell(x, y)) < Near(norm, goal, a)),
         Moved(goal, k, start), Cell(k, k), 1.0, hWeight, n * n + 1, tie, 0.0, 0.0)
  }

  /** What the map is, in the terms of the proof. */
  ghost predicate IsTieMap(norm: (int, int) -> real, m: Call, k: nat, a: Cell, i: Cell) {
    && m.perUnit == 1.0 && m.ratio == 0.0 && m.goal == Cell(k, k) && m.maxExpansions > CellCount(m.lethal)
    && Taxi(m.start, m.goal) <= k && Taxi(a, m.goal) <= k && Taxi(i, m.goal) <= k
    && (forall c :: m.lethal.Has(c) <==> InBox(k, m.goal, c))
    && (forall c :: m.lethal.Get(c) <==> Near(norm, m.goal, c) < Near(norm, m.goal, a))
    && (forall c {:trigger m.cost.Get(c)} :: m.cost.Get(c) == if Gains(norm, m.start, m.goal, c) then Toll(k, m.hWeight) else 0.0)
    && Shadows(norm, m.start, m.goal, m.tie, a, i)
  }

  lemma MovedNear(norm: (int, int) -> real, goal: Cell, k: nat, c: Cell)
    ensures Near(norm, Cell(k, k), Moved(goal, k, c)) == Near(norm, goal, c)
  {
  }

  lemma MovedTaxi(goal: Cell, k: nat, c: Cell)
    ensures Taxi(Moved(goal, k, c), Cell(k, k)) == Taxi(c, goal)
  {
  }

  lemma MovedApart(goal: Cell, k: nat, c: Cell, d: Cell)
    requires c != d
    ensures Moved(goal, k, c) != Moved(goal, k, d) && Moved(goal, k, goal) == Cell(k, k)
  {
  }

  lemma BoxIs(lethal: Raster<bool>, k: nat)
    requires lethal.nx == 2 * k + 1 && lethal.ny == 2 * k + 1
    ensures forall c :: lethal.Has(c) <==> InBox(k, Cell(k, k), c)
  {
  }

  lemma TieCallIsTieMap(norm: (int, int) -> real, start: Cell, goal: Cell, tie: real, a: Cell, i: Cell, hWeight: real)
    requires Shadows(norm, start, goal, tie, a, i)
    ensures var k := HalfWidth(start, goal, a, i);
      IsTieMap(norm, TieCall(norm, start, goal, tie, a, i, hWeight), k, Moved(goal, k, a), Moved(goal, k, i))
  {
    var k := HalfWidth(start, goal, a, i);
    var m := TieCall(norm, start, goal, tie, a, i, hWeight);
    hide Toll, Near, Moved, Taxi;
    MovedNear(norm, goal, k, start);
    MovedNear(norm, goal, k, a);
    MovedNear(norm, goal, k, i);
    MovedTaxi(goal, k, start);
    MovedTaxi(goal, k, a);
    MovedTaxi(goal, k, i);
    MovedApart(goal, k, a, goal);
    MovedApart(goal, k, i, start);
    BoxIs(m.lethal, k);
    assert forall c: Cell {:trigger m.cost.Get(c)} {:trigger m.lethal.Get(c)} :: Cell(c.i, c.j) == c;
  }

  /** The open cells that gain nothing. */
  function IdleWorld(norm: (int, int) -> real, m: Call): World {
    World((c: Cell) => m.World().open(c) && !Gains(norm, m.start, m.goal, c), m.World().step)
  }

  lemma {:induction false} LengthBound(p: seq<Cell>)
    requires forall k :: 0 < k < |p| ==> Adjacent(p[k - 1], p[k])
    ensures Length(p) <= if p == [] then 0.0 else (2 * (|p| - 1)) as real
  {
    if |p| > 1 {
      hide Adjacent;
      var q := p[..|p| - 1];
      assert q[|q| - 1] == p[|p| - 2];
      LengthBound(q);
      assert Base(p[|p| - 2], p[|p| - 1]) <= 2.0;
    }
  }

  /** A walk that gains nothing pays no toll. */
  lemma {:induction false} IdleCost(norm: (int, int) -> real, m: Call, k: nat, a: Cell, i: Cell, p: seq<Cell>)
    requires IsTieMap(norm, m, k, a, i) && IsPath(IdleWorld(norm, m), p)
    ensures IsPath(m.World(), p) && Cost(m.World(), p) == Length(p)
  {
    if |p| > 1 {
      hide Adjacent, Base, Gains;
      var q := p[..|p| - 1];
      assert forall j :: 0 <= j < |q| ==> q[j] == p[j];
      IdleCost(norm, m, k, a, i, q);
      assert m.cost.Get(p[|p| - 1]) == 0.0;
    }
  }

  lemma TieMapOpen(norm: (int, int) -> real, m: Call, k: nat, a: Cell, i: Cell, c: Cell)
    requires IsTieMap(norm, m, k, a, i)
    ensures m.World().open(c) <==> InBox(k, m.goal, c) && Near(norm, m.goal, c) >= Near(norm, m.goal, a)
  {
    hide Near, Shadows, Toll;
    assert m.lethal.Has(c) <==> InBox(k, m.goal, c);
  }

  lemma TieMapFacts(norm: (int, int) -> real, m: Call, k: nat, a: Cell, i: Cell)
    requires IsTieMap(norm, m, k, a, i)
    ensures m.ratio == 0.0 && m.maxExpansions > CellCount(m.lethal) && Shadows(norm, m.start, m.goal, m.tie, a, i)
    ensures Taxi(m.start, m.goal) <= k && Taxi(a, m.goal) <= k && Taxi(i, m.goal) <= k
  {
  }

  /** The distances a shadow stands for. */
  lemma ShadowDistances(norm: (int, int) -> real, start: Cell, goal: Cell, tie: real, a: Cell, i: Cell)
    requires Shadows(norm, start, goal, tie, a, i)
    ensures Near(norm, goal, a) < Near(norm, goal, start) - MARGIN <= Near(norm, goal, i) <= Near(norm, goal, a) + tie
    ensures a != goal && i != start && tie > 0.0
  {
  }

  lemma IdleRouteCosts(norm: (int, int) -> real, m: Call, k: nat, a: Cell, i: Cell, p: seq<Cell>)
    requires IsTieMap(norm, m, k, a, i) && Route(IdleWorld(norm, m), p, m.start, i) && |p| <= 12 * k + 1
    ensures Route(m.World(), p, m.start, i) && Cost(m.World(), p) <= (24 * k) as real
  {
    IdleCost(norm, m, k, a, i, p);
    LengthBound(p);
    hide IsTieMap, Cost, Length;
  }

  /** The tie cell can be reached without a toll. */
  lemma IdleRoute(norm: (int, int) -> real, m: Call, k: nat, a: Cell, i: Cell)
    requires IsHypot(norm) && IsTieMap(norm, m, k, a, i)
    ensures exists p :: Route(m.World(), p, m.start, i) && Cost(m.World(), p) <= (24 * k) as real
  {
    hide IsTieMap, IsHypot, Route, Cost, Near, Shadows;
    var w, rad := IdleWorld(norm, m), Near(norm, m.goal, m.start) - MARGIN;
    TieMapFacts(norm, m, k, a, i);
    ShadowDistances(norm, m.start, m.goal, m.tie, a, i);
    forall c | InBox(k, m.goal, c) && Near(norm, m.goal, c) >= rad ensures w.open(c) {
      TieMapOpen(norm, m, k, a, i, c);
    }
    assert OpenOutside(norm, w, m.goal, k, rad);
    hide OpenOutside;
    RoundTheDisk(norm, w, m.goal, k, rad, m.start, i);
    var p :| Route(w, p, m.start, i) && |p| <= 12 * k + 1;
    IdleRouteCosts(norm, m, k, a, i, p);
  }

  /** The gain can be reached. */
  lemma GainRoute(norm: (int, int) -> real, m: Call, k: nat, a: Cell, i: Cell)
    requires IsHypot(norm) && IsTieMap(norm, m, k, a, i)
    ensures Reachable(m.World(), m.start, a)
  {
    hide IsTieMap, IsHypot, Route, Near, Shadows;
    var w, rad := m.World(), Near(norm, m.goal, a);
    TieMapFacts(norm, m, k, a, i);
    ShadowDistances(norm, m.start, m.goal, m.tie, a, i);
    forall c | InBox(k, m.goal, c) && Near(norm, m.goal, c) >= rad ensures w.open(c) {
      TieMapOpen(norm, m, k, a, i, c);
    }
    assert OpenOutside(norm, w, m.goal, k, rad);
    hide OpenOutside;
    RoundTheDisk(norm, w, m.goal, k, rad, m.start, a);
  }

  lemma TollPositive(k: nat, hWeight: real)
    ensures Toll(k, hWeight) > Epsilon(hWeight) * (24 * k) as real >= 0.0
  {
  }

  lemma MapNonNegative(norm: (int, int) -> real, m: Call, k: nat, a: Cell, i: Cell)
    requires IsTieMap(norm, m, k, a, i)
    ensures NonNegative(m.World())
  {
    hide Toll, Gains, Base;
    TollPositive(k, m.hWeight);
    forall b, c | Adjacent(b, c) && m.World().open(c) ensures m.World().step(b, c) >= Base(b, c) {
      assert m.cost.Get(c) >= 0.0;
    }
  }

  lemma {:induction false} PathCostNonNegative(w: World, p: seq<Cell>)
    requires NonNegative(w) && IsPath(w, p)
    ensures Cost(w, p) >= 0.0
  {
    if |p| > 1 {
      PathCostNonNegative(w, p[..|p| - 1]);
      assert w.step(p[|p| - 2], p[|p| - 1]) >= Base(p[|p| - 2], p[|p| - 1]);
    }
  }

  /** Every gain costs the toll. */
  lemma TollPaid(norm: (int, int) -> real, m: Call, k: nat, a: Cell, i: Cell, p: seq<Cell>, c: Cell)
    requires IsTieMap(norm, m, k, a, i) && Route(m.World(), p, m.start, c) && Gains(norm, m.start, m.goal, c)
    ensures Cost(m.World(), p) >= Toll(k, m.hWeight)
  {
    MapNonNegative(norm, m, k, a, i);
    hide Toll, Near;
    assert |p| > 1;
    var q := p[..|p| - 1];
    assert IsPath(m.World(), q);
    PathCostNonNegative(m.World(), q);
    assert m.cost.Get(c) == Toll(k, m.hWeight);
  }

  lemma ApartSquares(x: int, y: int)
    requires (x, y) != (0, 0)
    ensures SquareSum(x, y) > 0
  {
  }

  lemma RootSign(d: real, s: real)
    requires d >= 0.0 && d * d == s
    ensures s == 0.0 ==> d == 0.0
    ensures s > 0.0 ==> d > 0.0
  {
    if d > 0.0 {
      StrictSquare(0.0, d);
    }
  }

  /** Only the goal is at no distance from itself. */
  lemma AwayFromGoal(norm: (int, int) -> real, goal: Cell, c: Cell)
    requires IsHypot(norm)
    ensures Near(norm, goal, c) >= 0.0 && (c == goal ==> Near(norm, goal, c) == 0.0) && (c != goal ==> Near(norm, goal, c) > 0.0)
  {
    var x, y := c.i - goal.i, c.j - goal.j;
    var d := norm(x, y);
    assert d >= 0.0 && d * d == SquareSum(x, y) as real;
    if c != goal {
      ApartSquares(x, y);
    }
    hide IsHypot;
    RootSign(d, SquareSum(x, y) as real);
  }

  /** The goal itself is lethal. */
  lemma GoalShut(norm: (int, int) -> real, m: Call, k: nat, a: Cell, i: Cell)
    requires IsHypot(norm) && IsTieMap(norm, m, k, a, i)
    ensures !m.World().open(m.goal) && m.start != m.goal
  {
    hide IsTieMap, IsHypot, Near, Shadows;
    TieMapFacts(norm, m, k, a, i);
    ShadowDistances(norm, m.start, m.goal, m.tie, a, i);
    TieMapOpen(norm, m, k, a, i, m.goal);
    AwayFromGoal(norm, m.goal, m.goal);
    AwayFromGoal(norm, m.goal, a);
  }

  lemma NeverThere(w: World, settled: map<Cell, seq<Cell>>, start: Cell, c: Cell)
    requires Tree(w, start, settled) && !w.open(c) && c != start
    ensures c !in settled
  {
  }

  lemma SettledBound(w: World, start: Cell, settled: map<Cell, seq<Cell>>, eps: real, c: Cell, p: seq<Cell>)
    requires Tree(w, start, settled) && TreeOptimal(w, settled, eps) && c in settled && Route(w, p, start, c)
    ensures Cost(w, settled[c]) <= eps * Cost(w, p)
  {
    hide Cost;
    assert Optimal(w, settled[c], eps);
  }

  lemma SettledRoute(w: World, start: Cell, settled: map<Cell, seq<Cell>>, c: Cell)
    requires Tree(w, start, settled) && c in settled
    ensures Route(w, settled[c], start, c)
  {
  }

  /** The base is as near as the map lets anything be. */
  lemma BaseIsLevel(norm: (int, int) -> real, m: Call, k: nat, a: Cell, i: Cell, x: Trace)
    requires IsHypot(norm) && IsTieMap(norm, m, k, a, i)
    requires Tree(m.World(), m.start, x.settled) && Chosen(m.Ranking(norm), m.World(), m.start, x) && a in x.settled
    ensures Near(norm, m.goal, x.base) == Near(norm, m.goal, a) && Gains(norm, m.start, m.goal, x.base) && x.base != m.start
  {
    hide IsTieMap, IsHypot, Near, Chosen, Tree, Length, Shadows;
    TieMapFacts(norm, m, k, a, i);
    ShadowDistances(norm, m.start, m.goal, m.tie, a, i);
    BaseGains(norm, m, x, a);
    ChosenIsSettled(m.Ranking(norm), m.World(), m.start, x);
    TieMapOpen(norm, m, k, a, i, x.base);
    if !m.World().open(x.base) {
      NeverThere(m.World(), x.settled, m.start, x.base);
    }
  }

  /** The end costs no more than the tie cell. */
  lemma EndIsCheap(norm: (int, int) -> real, m: Call, k: nat, a: Cell, i: Cell, x: Trace)
    requires IsHypot(norm) && IsTieMap(norm, m, k, a, i)
    requires Tree(m.World(), m.start, x.settled) && Chosen(m.Ranking(norm), m.World(), m.start, x)
    requires a in x.settled && i in x.settled
    ensures x.end in x.settled && Cost(m.World(), x.settled[x.end]) <= Cost(m.World(), x.settled[i])
  {
    hide IsTieMap, IsHypot, Near, Leads, Cost, Tree, Shadows;
    TieMapFacts(norm, m, k, a, i);
    ShadowDistances(norm, m.start, m.goal, m.tie, a, i);
    BaseIsLevel(norm, m, k, a, i, x);
    Everything(m.Ranking(norm), x.settled.Keys);
    NearIs(norm, m, i);
    NearIs(norm, m, x.base);
    assert Tied(m.Ranking(norm), m.start, x.settled.Keys, x.base, i);
  }

  lemma ScaledMore(e: real, x: real, y: real)
    requires e >= 0.0 && x <= y
    ensures e * x <= e * y
  {
  }

  /** The tie pass settles for a cell that gains nothing. */
  lemma EndIsIdle(norm: (int, int) -> real, m: Call, k: nat, a: Cell, i: Cell, x: Trace)
    requires IsHypot(norm) && IsTieMap(norm, m, k, a, i)
    requires Tree(m.World(), m.start, x.settled) && TreeOptimal(m.World(), x.settled, Epsilon(m.hWeight))
    requires Chosen(m.Ranking(norm), m.World(), m.start, x) && a in x.settled && i in x.settled
    ensures x.end in x.settled && !Gains(norm, m.start, m.goal, x.end)
  {
    hide IsTieMap, IsHypot, Toll, Near, Chosen, Gains, Cost, Tree, TreeOptimal, Optimal, Route;
    EndIsCheap(norm, m, k, a, i, x);
    IdleRoute(norm, m, k, a, i);
    TollPositive(k, m.hWeight);
    var p :| Route(m.World(), p, m.start, i) && Cost(m.World(), p) <= (24 * k) as real;
    SettledBound(m.World(), m.start, x.settled, Epsilon(m.hWeight), i, p);
    SettledRoute(m.World(), m.start, x.settled, x.end);
    ScaledMore(Epsilon(m.hWeight), Cost(m.World(), p), (24 * k) as real);
    if Gains(norm, m.start, m.goal, x.end) {
      TollPaid(norm, m, k, a, i, x.settled[x.end], x.end);
    }
  }

  /** What every answer on the map comes to. */
  lemma OnlyNoPath(norm: (int, int) -> real, m: Call, k: nat, a: Cell, i: Cell, path: seq<Cell>, n: nat, msg: Outcome, x: Trace)
    requires IsHypot(norm) && IsTieMap(norm, m, k, a, i) && m.Allows(norm, path, n, msg, x)
    ensures msg == NoPath && n <= m.maxExpansions
  {
    hide IsTieMap, IsHypot, Cost, Length, Near, Chosen, Tree, TreeOptimal, NonNegative, Route, Shadows;
    TieMapFacts(norm, m, k, a, i);
    GoalShut(norm, m, k, a, i);
    NeverThere(m.World(), x.settled, m.start, m.goal);
    MapNonNegative(norm, m, k, a, i);
    GainRoute(norm, m, k, a, i);
    IdleRoute(norm, m, k, a, i);
    assert Reachable(m.World(), m.start, i);
    assert a in x.settled && i in x.settled;
    EndIsIdle(norm, m, k, a, i, x);
    NearIs(norm, m, x.end);
    NearIs(norm, m, m.start);
  }

  lemma GainIs(norm: (int, int) -> real, start: Cell, goal: Cell, c: Cell)
    ensures Gains(norm, start, goal, c) <==> Near(norm, goal, c) < Near(norm, goal, start) - MARGIN
  {
  }

  /** Where a pair of cells shadows the start, some map breaks the promise, whatever the heuristic weight. */
  lemma ShadowedBroken(norm: (int, int) -> real, start: Cell, goal: Cell, tie: real, a: Cell, i: Cell, hWeight: real)
    requires IsHypot(norm) && Shadows(norm, start, goal, tie, a, i)
    ensures Broken(norm, TieCall(norm, start, goal, tie, a, i, hWeight))
  {
    hide TieCall, IsTieMap, IsHypot, Shadows, Gains, Route, Answers;
    var m, k := TieCall(norm, start, goal, tie, a, i, hWeight), HalfWidth(start, goal, a, i);
    var a', i' := Moved(goal, k, a), Moved(goal, k, i);
    TieCallIsTieMap(norm, start, goal, tie, a, i, hWeight);
    TieMapFacts(norm, m, k, a', i');
    ShadowDistances(norm, m.start, m.goal, m.tie, a', i');
    GainRoute(norm, m, k, a', i');
    GainIs(norm, m.start, m.goal, a');
    forall path, n: nat, msg, x | m.Allows(norm, path, n, msg, x) ensures msg == NoPath && n <= m.maxExpansions {
      OnlyNoPath(norm, m, k, a', i', path, n, msg, x);
    }
  }

  // ── the exact condition ──

  /** Some pair of cells shadows a start at this offset from the goal. */
  ghost predicate Shadowed(norm: (int, int) -> real, start: Cell, goal: Cell, tie: real) {
    exists a, i :: Shadows(norm, start, goal, tie, a, i)
  }

  /** A call for the same offset, tie width and heuristic weight, with the detour gate off. */
  predicate SameAim(m: Call, start: Cell, goal: Cell, tie: real, hWeight: real) {
    && m.goal.i - m.start.i == goal.i - start.i && m.goal.j - m.start.j == goal.j - start.j
    && m.tie == tie && m.hWeight == hWeight && m.ratio <= 0.0
  }

  lemma ShadowsMove(norm: (int, int) -> real, start: Cell, goal: Cell, tie: real, a: Cell, i: Cell, di: int, dj: int)
    requires Shadows(norm, start, goal, tie, a, i)
    ensures Shadows(norm, Cell(start.i + di, start.j + dj), Cell(goal.i + di, goal.j + dj), tie,
                    Cell(a.i + di, a.j + dj), Cell(i.i + di, i.j + dj))
  {
  }

  /** Without a tie width nothing shadows the start. */
  lemma NoTieNoShadow(norm: (int, int) -> real, start: Cell, goal: Cell, tie: real)
    requires tie <= 0.0
    ensures !Shadowed(norm, start, goal, tie)
  {
  }

  /**
   The exact condition, in terms known before the call: for a given offset from
   start to goal and a given tie width, with the detour gate off, either no pair
   of cells shadows the start and the promise is kept on every map, or one does
   and some map breaks it. Without a tie width no pair does.
   */
  lemma TiePromiseExact(norm: (int, int) -> real, start: Cell, goal: Cell, tie: real, hWeight: real)
    requires IsHypot(norm)
    ensures !Shadowed(norm, start, goal, tie) ==> forall m :: SameAim(m, start, goal, tie, hWeight) ==> Kept(norm, m)
    ensures Shadowed(norm, start, goal, tie) ==> exists m :: SameAim(m, start, goal, tie, hWeight) && Broken(norm, m)
    ensures tie <= 0.0 ==> !Shadowed(norm, start, goal, tie)
  {
    hide Shadows, Kept, Broken, IsHypot;
    if tie <= 0.0 { NoTieNoShadow(norm, start, goal, tie); }
    if Shadowed(norm, start, goal, tie) {
      var a, i :| Shadows(norm, start, goal, tie, a, i);
      ShadowedBroken(norm, start, goal, tie, a, i, hWeight);
      assert SameAim(TieCall(norm, start, goal, tie, a, i, hWeight), start, goal, tie, hWeight);
    } else {
      forall m | SameAim(m, start, goal, tie, hWeight) ensures Kept(norm, m) {
        forall a, i ensures !Shadows(norm, m.start, m.goal, m.tie, a, i) {
          if Shadows(norm, m.start, m.goal, m.tie, a, i) {
            ShadowsMove(norm, m.start, m.goal, tie, a, i, start.i - m.start.i, start.j - m.start.j);
          }
        }
        UnshadowedKept(norm, m);
      }
    }
  }

  lemma SameWeight(norm: (int, int) -> real, start: Cell, goal: Cell, tie: real, a: Cell, i: Cell, hWeight: real)
    ensures TieCall(norm, start, goal, tie, a, i, hWeight).hWeight == hWeight
  {
  }

  /** The search itself, on the map of a shadow: it answers "no path", with a nearer cell in reach. */
  method HideGain(norm: (int, int) -> real, start: Cell, goal: Cell, tie: real, a: Cell, i: Cell, hWeight: real)
    returns (path: seq<Cell>, msg: Outcome)
    requires IsHypot(norm) && Shadows(norm, start, goal, tie, a, i)
    ensures msg == NoPath && CanGain(norm, TieCall(norm, start, goal, tie, a, i, hWeight))
  {
    hide TieCall, IsHypot, Shadows;
    var m := TieCall(norm, start, goal, tie, a, i, hWeight);
    ShadowedBroken(norm, start, goal, tie, a, i, hWeight);
    var n;
    ghost var x;
    path, n, msg, x := AstarToward(m.Ranking(norm), m.cost, m.lethal, m.start, m.goal, m.perUnit, hWeight, m.maxExpansions);
    SameWeight(norm, start, goal, tie, a, i, hWeight);
    assert m.Allows(norm, path, n, msg, x);
  }

  // ── with every default, detour gate included ──

  const BESIDE := Cell(1, 0)
  const AHEAD := Cell(1, 1)

  /** Two columns by four, three cells free, a goal three cells off, and the defaults of the local planner. */
  function DefaultCall(): Call {
    Call(Raster(2, 4, (x: int, y: int) => 0.0),
         Raster(2, 4, (x: int, y: int) => Cell(x, y) !in [Cell(0, 0), BESIDE, AHEAD]),
         Cell(0, 0), Cell(0, 3), 0.1, 1.0, 50000, 1.0, 3.0, 4.0)
  }

  lemma RootBounds(x: real, lo: real, hi: real)
    requires x >= 0.0 && 0.0 <= lo <= hi && lo * lo <= x * x <= hi * hi
    ensures lo <= x <= hi
  {
    if x < lo { StrictSquare(x, lo); }
    if x > hi { StrictSquare(hi, x); }
  }

  lemma DefaultDistances(norm: (int, int) -> real)
    requires IsHypot(norm)
    ensures var goal := Cell(0, 3);
      && Near(norm, goal, Cell(0, 0)) == 3.0 && 3.0 < Near(norm, goal, BESIDE) <= Near(norm, goal, AHEAD) + 1.0
      && Near(norm, goal, AHEAD) < 2.3
  {
    var a, b, c := norm(0, -3), norm(1, -3), norm(1, -2);
    assert a >= 0.0 && b >= 0.0 && c >= 0.0;
    assert a * a == 9.0 && b * b == 10.0 && c * c == 5.0;
    RootBounds(a, 3.0, 3.0);
    RootBounds(b, 3.1, 3.2);
    RootBounds(c, 2.2, 2.3);
  }

  lemma DefaultOpen(c: Cell)
    ensures DefaultCall().World().open(c) <==> c == Cell(0, 0) || c == BESIDE || c == AHEAD
  {
  }

  lemma {:induction false} DefaultCosts(p: seq<Cell>)
    ensures Cost(DefaultCall().World(), p) == Length(p)
  {
    if |p| > 1 {
      DefaultCosts(p[..|p| - 1]);
    }
  }

  /** No walk is shorter than the octile distance between its ends. */
  lemma {:induction false} LengthAtLeastOctile(p: seq<Cell>)
    requires p != [] && forall k :: 0 < k < |p| ==> Adjacent(p[k - 1], p[k])
    ensures Length(p) >= Octile(p[|p| - 1], p[0])
  {
    hide Octile, Adjacent, Base;
    if |p| > 1 {
      var q := p[..|p| - 1];
      LengthAtLeastOctile(q);
      AdjacentSymmetric(p[|p| - 2], p[|p| - 1]);
      OctileStep(p[|p| - 1], p[|p| - 2], p[0]);
    } else {
      OctileSelf(p[0]);
    }
  }

  lemma DefaultRoutes()
    ensures var w := DefaultCall().World();
      && Route(w, [Cell(0, 0), BESIDE], Cell(0, 0), BESIDE) && Route(w, [Cell(0, 0), AHEAD], Cell(0, 0), AHEAD)
      && Cost(w, [Cell(0, 0), BESIDE]) == 1.0 && Cost(w, [Cell(0, 0), AHEAD]) == SQRT2
      && NonNegative(w)
  {
    DefaultOpen(BESIDE);
    DefaultOpen(AHEAD);
    DefaultCosts([Cell(0, 0), BESIDE]);
    DefaultCosts([Cell(0, 0), AHEAD]);
    assert [Cell(0, 0), BESIDE][..1] == [Cell(0, 0)] && [Cell(0, 0), AHEAD][..1] == [Cell(0, 0)];
  }

  lemma DefaultOctile()
    ensures Octile(AHEAD, Cell(0, 0)) == SQRT2 && Octile(Cell(0, 0), AHEAD) == SQRT2
  {
  }

  /** What a full search of that map settles, and at what cost. */
  lemma DefaultSettled(settled: map<Cell, seq<Cell>>)
    requires Tree(DefaultCall().World(), Cell(0, 0), settled) && TreeOptimal(DefaultCall().World(), settled, 1.0)
    requires BESIDE in settled && AHEAD in settled
    ensures forall c :: c in settled ==> c == Cell(0, 0) || c == BESIDE || c == AHEAD
    ensures Cost(DefaultCall().World(), settled[BESIDE]) <= 1.0 && Length(settled[AHEAD]) <= SQRT2
    ensures Cost(DefaultCall().World(), settled[AHEAD]) >= SQRT2
  {
    hide DefaultCall, Tree, TreeOptimal, Cost, Length, Octile;
    var w := DefaultCall().World();
    DefaultRoutes();
    SettledBound(w, Cell(0, 0), settled, 1.0, BESIDE, [Cell(0, 0), BESIDE]);
    SettledBound(w, Cell(0, 0), settled, 1.0, AHEAD, [Cell(0, 0), AHEAD]);
    SettledRoute(w, Cell(0, 0), settled, AHEAD);
    DefaultCosts(settled[AHEAD]);
    LengthAtLeastOctile(settled[AHEAD]);
    assert Octile(AHEAD, Cell(0, 0)) == SQRT2 by { DefaultOctile(); }
    forall c | c in settled ensures c == Cell(0, 0) || c == BESIDE || c == AHEAD {
      DefaultOpen(c);
      if !w.open(c) && c != Cell(0, 0) {
        NeverThere(w, settled, Cell(0, 0), c);
      }
    }
  }

  /** The end of a full search is the cell beside the start. */
  lemma DefaultEnd(norm: (int, int) -> real, x: Trace)
    requires IsHypot(norm) && Tree(DefaultCall().World(), Cell(0, 0), x.settled)
    requires TreeOptimal(DefaultCall().World(), x.settled, 1.0) && BESIDE in x.settled && AHEAD in x.settled
    requires Chosen(DefaultCall().Ranking(norm), DefaultCall().World(), Cell(0, 0), x)
    ensures x.end == BESIDE
  {
    hide Tree, TreeOptimal, Cost, Length, Octile, IsHypot, Near, Leads;
    var m := DefaultCall();
    DefaultDistances(norm);
    DefaultSettled(x.settled);
    DefaultOctile();
    BaseGains(norm, m, x, AHEAD);
    Everything(m.Ranking(norm), x.settled.Keys);
    NearIs(norm, m, BESIDE);
    NearIs(norm, m, AHEAD);
    assert x.base == AHEAD;
    assert Tied(m.Ranking(norm), Cell(0, 0), x.settled.Keys, AHEAD, BESIDE);
  }

  lemma DefaultIs()
    ensures var m := DefaultCall();
      m.start == Cell(0, 0) && m.goal == Cell(0, 3) && m.hWeight == 1.0 && m.maxExpansions > CellCount(m.lethal)
  {
  }

  /**
   The promise fails with every default in place: a cell straight ahead is
   reachable and nearer, the cheaper cell beside the start ties with it and gains
   nothing, and whatever the search does its answer is "no path".
   */
  lemma DefaultsHideGain(norm: (int, int) -> real)
    requires IsHypot(norm)
    ensures Broken(norm, DefaultCall())
  {
    hide DefaultCall, Chosen, Tree, TreeOptimal, Cost, Length, IsHypot, Near, Route, NonNegative;
    var m := DefaultCall();
    DefaultIs();
    DefaultDistances(norm);
    DefaultRoutes();
    DefaultOpen(m.goal);
    assert Reachable(m.World(), m.start, AHEAD) && Reachable(m.World(), m.start, BESIDE);
    forall path, n: nat, msg, x | m.Allows(norm, path, n, msg, x) ensures msg == NoPath && n <= m.maxExpansions {
      NeverThere(m.World(), x.settled, m.start, m.goal);
      DefaultEnd(norm, x);
      NearIs(norm, m, x.end);
      NearIs(norm, m, m.start);
    }
  }
}
