/**
 What a tie width does to the "no path" promise of `astar_toward` with its detour
 gate on, as it is by default: for every start more than one cell from the goal
 some map hides an eligible nearer cell.
 */
module TieGate {
  import opened Grid
  import opened Numbers
  import opened Paths
  import opened Astar
  import opened BestEffort
  import opened TieWidth

  /** The gate bars the cell `c` as an endpoint, reached over this length. */
  predicate Barred(norm: (int, int) -> real, m: Call, c: Cell, length: real) {
    m.Ranking(norm).Detour(m.start, c, length)
  }

  /** A nearer cell that the search met, and that the gate lets through. */
  ghost predicate HiddenAt(norm: (int, int) -> real, m: Call, x: Trace, c: Cell) {
    && c in x.settled && Gains(norm, m.start, m.goal, c)
    && !Barred(norm, m, c, Length(x.settled[c]))
  }

  /** Every answer keeps the promise: "no path" after a full search means that every nearer cell it met is a detour. */
  ghost predicate KeptGated(norm: (int, int) -> real, m: Call) {
    forall path, n: nat, x, c :: m.Allows(norm, path, n, NoPath, x) && n <= m.maxExpansions ==> !HiddenAt(norm, m, x, c)
  }

  /** Every answer breaks it: only "no path" after a full search is allowed, and the nearer cell `c` is hidden. */
  ghost predicate BrokenGated(norm: (int, int) -> real, m: Call, c: Cell) {
    forall path, n: nat, msg, x :: m.Allows(norm, path, n, msg, x) ==>
      msg == NoPath && n <= m.maxExpansions && HiddenAt(norm, m, x, c)
  }

  // ── where the promise is kept ──

  lemma BelowOne(d: real, s: int)
    requires d >= 0.0 && d * d == s as real && s >= 1
    ensures d >= 1.0
  {
    if d < 1.0 { StrictSquare(d, 1.0); }
  }

  /** Every other cell is at least one cell from the goal. */
  lemma UnitAway(norm: (int, int) -> real, goal: Cell, c: Cell)
    requires IsHypot(norm) && c != goal
    ensures Near(norm, goal, c) >= 1.0
  {
    var x, y := c.i - goal.i, c.j - goal.j;
    ApartSquares(x, y);
    var d := norm(x, y);
    assert d >= 0.0 && d * d == SquareSum(x, y) as real;
    BelowOne(d, SquareSum(x, y));
  }

  lemma BaseIsOpen(w: World, start: Cell, goal: Cell, x: Trace)
    requires Tree(w, start, x.settled) && x.base in x.settled && x.base == goal
    ensures Reachable(w, start, goal)
  {
    assert Route(w, x.settled[x.base], start, x.base);
  }

  /** Without a tie width, or next to the goal, nothing eligible is hidden. */
  lemma GateKept(norm: (int, int) -> real, m: Call)
    requires IsHypot(norm) && Near(norm, m.goal, m.start) <= 1000000.0
    requires m.tie <= 0.0 || Near(norm, m.goal, m.start) <= 1.0
    ensures KeptGated(norm, m)
  {
    hide IsHypot, Near, Length, Cost, Tree, TreeOptimal, Leads;
    forall path, n: nat, x, c | m.Allows(norm, path, n, NoPath, x) && n <= m.maxExpansions ensures !HiddenAt(norm, m, x, c) {
      if HiddenAt(norm, m, x, c) {
        BaseGains(norm, m, x, c);
        NearIs(norm, m, x.base);
        NearIs(norm, m, m.start);
        if x.base == m.goal {
          BaseIsOpen(m.World(), m.start, m.goal, x);
        } else {
          UnitAway(norm, m.goal, x.base);
        }
      }
    }
  }

  // ── a frame with the start above the goal ──

  /** Which axis is up, and which way. */
  datatype Turn = Turn(swap: bool, flip: bool)

  function Across(t: Turn, goal: Cell, c: Cell): int {
    if t.swap then c.j - goal.j else c.i - goal.i
  }

  function Up(t: Turn, goal: Cell, c: Cell): int {
    var u := if t.swap then c.i - goal.i else c.j - goal.j;
    if t.flip then -u else u
  }

  /** The cell `p` across and `q` up from the goal. */
  function At(t: Turn, goal: Cell, p: int, q: int): (c: Cell)
    ensures Across(t, goal, c) == p && Up(t, goal, c) == q
  {
    var u := if t.flip then -q else q;
    if t.swap then Cell(goal.i + u, goal.j + p) else Cell(goal.i + p, goal.j + u)
  }

  /** The start's longer offset points up. */
  function TurnOf(start: Cell, goal: Cell): Turn {
    var x, y := start.i - goal.i, start.j - goal.j;
    Turn(Abs(x) > Abs(y), if Abs(x) > Abs(y) then x < 0 else y < 0)
  }

  lemma StartIsUp(start: Cell, goal: Cell)
    ensures Abs(Across(TurnOf(start, goal), goal, start)) <= Up(TurnOf(start, goal), goal, start)
  {
  }

  lemma TurnFacts(t: Turn, goal: Cell, c: Cell)
    ensures At(t, goal, Across(t, goal, c), Up(t, goal, c)) == c
    ensures SquareSum(Across(t, goal, c), Up(t, goal, c)) == SquareSum(c.i - goal.i, c.j - goal.j)
    ensures Taxi(c, goal) == Abs(Across(t, goal, c)) + Abs(Up(t, goal, c))
    ensures forall k: nat :: InBox(k, goal, c) <==> Abs(Across(t, goal, c)) <= k && Abs(Up(t, goal, c)) <= k
  {
  }

  /** The distance in the frame. */
  lemma NearTurned(norm: (int, int) -> real, t: Turn, goal: Cell, c: Cell)
    requires IsHypot(norm)
    ensures Near(norm, goal, c) == norm(Across(t, goal, c), Up(t, goal, c))
  {
    TurnFacts(t, goal, c);
    NormOrder(norm, Across(t, goal, c), Up(t, goal, c), c.i - goal.i, c.j - goal.j);
    NormOrder(norm, c.i - goal.i, c.j - goal.j, Across(t, goal, c), Up(t, goal, c));
  }

  lemma TurnStep(t: Turn, goal: Cell, a: Cell, b: Cell)
    requires Adjacent(a, b)
    ensures -1 <= Across(t, goal, b) - Across(t, goal, a) <= 1 && -1 <= Up(t, goal, b) - Up(t, goal, a) <= 1
  {
  }

  // ── the map: a wall along the goal's row, open at one end, and a toll on every gain above it ──

  /** More than the way round the wall. */
  function Levy(k: nat): real {
    (12 * k) as real + 1.0
  }

  /** Half the width of the map: the way round is a detour to every cell that gains. */
  function GateWidth(start: Cell, goal: Cell, ratio: real, slack: real): nat
    requires ratio >= 0.0 && slack >= 0.0
  {
    var t := Taxi(start, goal);
    var more := Ceil(ratio * (4 * t) as real + slack);
    t + 1 + if more > 0 then more else 0
  }

  predicate Tolled(norm: (int, int) -> real, start: Cell, goal: Cell, t: Turn, c: Cell) {
    Gains(norm, start, goal, c) && Up(t, goal, c) >= 1
  }

  function GateCall(norm: (int, int) -> real, start: Cell, goal: Cell, tie: real, ratio: real, slack: real, hWeight: real): Call
    requires ratio >= 0.0 && slack >= 0.0
  {
    var k := GateWidth(start, goal, ratio, slack);
    var n, t, centre, from := 2 * k + 1, TurnOf(start, goal), Cell(k, k), Moved(goal, k, start);
    Call(Raster(n, n, (x: int, y: int) => if Tolled(norm, from, centre, t, Cell(x, y)) then Levy(k) else 0.0),
         Raster(n, n, (x: int, y: int) => Up(t, centre, Cell(x, y)) == 0 && Across(t, centre, Cell(x, y)) < k),
         from, centre, 1.0, hWeight, n * n + 1, tie, ratio, slack)
  }

  /** What the gate allows a cell at most `r` from the goal along either axis. */
  function Allowance(m: Call, r: nat): real {
    m.ratio * (4 * r) as real + m.slack
  }

  /** What the call asks for. */
  predicate GateAim(norm: (int, int) -> real, m: Call, t: Turn, k: nat) {
    && m.ratio >= 1.0 && m.slack >= 0.0 && m.tie > 0.0 && -1.0 <= m.hWeight <= 1.0
    && 1.0 < Near(norm, m.goal, m.start) <= 1000000.0
    && Abs(Across(t, m.goal, m.start)) <= Up(t, m.goal, m.start)
    && Taxi(m.start, m.goal) < k
    && (2 * (k - Taxi(m.start, m.goal))) as real > Allowance(m, Taxi(m.start, m.goal))
  }

  /** What the map is, in the terms of the proof. */
  ghost predicate IsGateMap(norm: (int, int) -> real, m: Call, t: Turn, k: nat) {
    && GateAim(norm, m, t, k)
    && m.perUnit == 1.0 && m.maxExpansions > CellCount(m.lethal)
    && (forall c :: m.lethal.Has(c) <==> InBox(k, m.goal, c))
    && (forall c :: m.lethal.Get(c) <==> Up(t, m.goal, c) == 0 && Across(t, m.goal, c) < k)
    && (forall c {:trigger m.cost.Get(c)} :: m.cost.Get(c) == if Tolled(norm, m.start, m.goal, t, c) then Levy(k) else 0.0)
  }

  lemma MovedTurn(start: Cell, goal: Cell, k: nat)
    ensures TurnOf(Moved(goal, k, start), Cell(k, k)) == TurnOf(start, goal)
  {
  }

  lemma CeilAbove(x: real, n: int)
    requires n >= Ceil(x)
    ensures n as real >= x
  {
  }

  lemma WideEnough(start: Cell, goal: Cell, ratio: real, slack: real)
    requires ratio >= 0.0 && slack >= 0.0
    ensures var k, t := GateWidth(start, goal, ratio, slack), Taxi(start, goal);
      t < k && (2 * (k - t)) as real > ratio * (4 * t) as real + slack
  {
    hide Taxi, Ceil;
    var t := Taxi(start, goal);
    var x := ratio * (4 * t) as real + slack;
    var more := if Ceil(x) > 0 then Ceil(x) else 0;
    CeilAbove(x, more);
    var k := GateWidth(start, goal, ratio, slack);
    assert k - t == 1 + more;
  }

  lemma GateCallAims(norm: (int, int) -> real, start: Cell, goal: Cell, tie: real, ratio: real, slack: real, hWeight: real)
    requires ratio >= 1.0 && slack >= 0.0 && tie > 0.0 && -1.0 <= hWeight <= 1.0 && 1.0 < Near(norm, goal, start) <= 1000000.0
    ensures GateAim(norm, GateCall(norm, start, goal, tie, ratio, slack, hWeight), TurnOf(start, goal),
                    GateWidth(start, goal, ratio, slack))
  {
    hide Near, Moved, Taxi, TurnOf, GateWidth, Across, Up;
    var k := GateWidth(start, goal, ratio, slack);
    MovedNear(norm, goal, k, start);
    MovedTaxi(goal, k, start);
    MovedTurn(start, goal, k);
    StartIsUp(Moved(goal, k, start), Cell(k, k));
    WideEnough(start, goal, ratio, slack);
  }

  lemma GateCallIsGateMap(norm: (int, int) -> real, start: Cell, goal: Cell, tie: real, ratio: real, slack: real, hWeight: real)
    requires ratio >= 1.0 && slack >= 0.0 && tie > 0.0 && -1.0 <= hWeight <= 1.0 && 1.0 < Near(norm, goal, start) <= 1000000.0
    ensures var k := GateWidth(start, goal, ratio, slack);
      IsGateMap(norm, GateCall(norm, start, goal, tie, ratio, slack, hWeight), TurnOf(start, goal), k)
  {
    GateCallAims(norm, start, goal, tie, ratio, slack, hWeight);
    hide Levy, Near, Moved, TurnOf, GateWidth, Tolled, Across, Up, GateAim;
    var k := GateWidth(start, goal, ratio, slack);
    var m := GateCall(norm, start, goal, tie, ratio, slack, hWeight);
    BoxIs(m.lethal, k);
    assert forall c: Cell {:trigger m.cost.Get(c)} {:trigger m.lethal.Get(c)} :: Cell(c.i, c.j) == c;
  }

  lemma GateOpen(norm: (int, int) -> real, m: Call, t: Turn, k: nat, c: Cell)
    requires IsGateMap(norm, m, t, k)
    ensures m.World().open(c) <==>
      && Abs(Across(t, m.goal, c)) <= k && Abs(Up(t, m.goal, c)) <= k
      && (Up(t, m.goal, c) == 0 ==> Across(t, m.goal, c) == k)
  {
    hide Tolled, GateAim, Levy;
    TurnFacts(t, m.goal, c);
    assert m.lethal.Has(c) <==> InBox(k, m.goal, c);
  }

  lemma GateStart(norm: (int, int) -> real, m: Call, t: Turn, k: nat)
    requires IsHypot(norm) && IsGateMap(norm, m, t, k)
    ensures 1 <= Up(t, m.goal, m.start) < k && Abs(Across(t, m.goal, m.start)) <= Up(t, m.goal, m.start)
    ensures Taxi(m.start, m.goal) == Abs(Across(t, m.goal, m.start)) + Up(t, m.goal, m.start) < k
    ensures m.World().open(m.start) && m.start != m.goal
  {
    TurnFacts(t, m.goal, m.start);
    GateOpen(norm, m, t, k, m.start);
    AwayFromGoal(norm, m.goal, m.start);
  }

  // ── prices ──

  lemma LevyPositive(k: nat)
    ensures Levy(k) > (12 * k) as real >= 0.0
  {
  }

  lemma GateNonNegative(norm: (int, int) -> real, m: Call, t: Turn, k: nat)
    requires IsGateMap(norm, m, t, k)
    ensures NonNegative(m.World())
  {
    hide Levy, Tolled, Base, GateAim;
    LevyPositive(k);
    forall b, c | Adjacent(b, c) && m.World().open(c) ensures m.World().step(b, c) >= Base(b, c) {
      assert m.cost.Get(c) >= 0.0;
    }
  }

  lemma {:induction false} CostsItsLength(w: World, p: seq<Cell>)
    requires NonNegative(w) && IsPath(w, p)
    ensures Cost(w, p) >= Length(p)
  {
    if |p| > 1 {
      hide Base, Adjacent;
      CostsItsLength(w, p[..|p| - 1]);
      assert w.step(p[|p| - 2], p[|p| - 1]) >= Base(p[|p| - 2], p[|p| - 1]);
    }
  }

  /** A route to a tolled cell pays the toll on top of its length. */
  lemma LevyPaid(norm: (int, int) -> real, m: Call, t: Turn, k: nat, p: seq<Cell>, c: Cell)
    requires IsGateMap(norm, m, t, k) && Route(m.World(), p, m.start, c) && Tolled(norm, m.start, m.goal, t, c)
    ensures Cost(m.World(), p) >= Length(p) + Levy(k)
  {
    GateNonNegative(norm, m, t, k);
    assert c != m.start;
    hide Levy, Near, GateAim, Base, Adjacent, Tolled, NonNegative;
    var q := p[..|p| - 1];
    assert IsPath(m.World(), q);
    CostsItsLength(m.World(), q);
    assert m.cost.Get(c) == Levy(k);
  }

  /** The open cells without a toll. */
  function FreeWorld(norm: (int, int) -> real, m: Call, t: Turn): World {
    World((c: Cell) => m.World().open(c) && !Tolled(norm, m.start, m.goal, t, c), m.World().step)
  }

  lemma {:induction false} FreeCost(norm: (int, int) -> real, m: Call, t: Turn, k: nat, p: seq<Cell>)
    requires IsGateMap(norm, m, t, k) && IsPath(FreeWorld(norm, m, t), p)
    ensures IsPath(m.World(), p) && Cost(m.World(), p) == Length(p)
  {
    if |p| > 1 {
      hide Adjacent, Base, Tolled, GateAim;
      var q := p[..|p| - 1];
      assert forall j :: 0 <= j < |q| ==> q[j] == p[j];
      FreeCost(norm, m, t, k, q);
      assert m.cost.Get(p[|p| - 1]) == 0.0;
    }
  }

  lemma FreeRouteCosts(norm: (int, int) -> real, m: Call, t: Turn, k: nat, p: seq<Cell>, c: Cell)
    requires IsGateMap(norm, m, t, k) && Route(FreeWorld(norm, m, t), p, m.start, c) && |p| <= 6 * k + 1
    ensures Route(m.World(), p, m.start, c) && Cost(m.World(), p) <= (12 * k) as real
  {
    FreeCost(norm, m, t, k, p);
    LengthBound(p);
    hide IsGateMap, Cost, Length;
  }

  // ── the way round the wall ──

  lemma BetweenAt(t: Turn, goal: Cell, a: Cell, b: Cell, c: Cell)
    requires Between(a, b, c)
    ensures Min(Across(t, goal, a), Across(t, goal, b)) <= Across(t, goal, c) <= Max(Across(t, goal, a), Across(t, goal, b))
    ensures Min(Up(t, goal, a), Up(t, goal, b)) <= Up(t, goal, c) <= Max(Up(t, goal, a), Up(t, goal, b))
  {
  }

  /** No toll far up, at the end of the wall, or below it. */
  lemma FreeCell(norm: (int, int) -> real, m: Call, t: Turn, k: nat, c: Cell)
    requires IsHypot(norm) && IsGateMap(norm, m, t, k)
    requires var p, q := Across(t, m.goal, c), Up(t, m.goal, c);
      && Abs(p) <= k && Abs(q) <= k
      && (p == k || q == k || q == -1 || (p == Across(t, m.goal, m.start) && q >= Up(t, m.goal, m.start)))
    ensures FreeWorld(norm, m, t).open(c)
  {
    GateOpen(norm, m, t, k, c);
    GateStart(norm, m, t, k);
    var p, q := Across(t, m.goal, c), Up(t, m.goal, c);
    var ps, qs := Across(t, m.goal, m.start), Up(t, m.goal, m.start);
    NearTurned(norm, t, m.goal, c);
    NearTurned(norm, t, m.goal, m.start);
    hide IsHypot, IsGateMap, Near, Across, Up;
    if q != -1 {
      if p == k || q == k {
        EdgeIsFarther(norm, ps, qs, p, q, k);
      } else {
        OutIsFarther(norm, ps, qs, p, q);
      }
      GainIs(norm, m.start, m.goal, c);
    }
  }

  lemma LegIsStraight(t: Turn, goal: Cell, a: Cell, b: Cell)
    requires Across(t, goal, a) == Across(t, goal, b) || Up(t, goal, a) == Up(t, goal, b)
    ensures a.i == b.i || a.j == b.j
    ensures Abs(a.i - b.i) + Abs(a.j - b.j) == Abs(Across(t, goal, a) - Across(t, goal, b)) + Abs(Up(t, goal, a) - Up(t, goal, b))
  {
  }

  /** One straight leg of the way round. */
  lemma Leg(norm: (int, int) -> real, m: Call, t: Turn, k: nat, a: Cell, b: Cell)
    requires IsHypot(norm) && IsGateMap(norm, m, t, k)
    requires var pa, qa, pb, qb := Across(t, m.goal, a), Up(t, m.goal, a), Across(t, m.goal, b), Up(t, m.goal, b);
      && Abs(pa) <= k && Abs(qa) <= k && Abs(pb) <= k && Abs(qb) <= k
      && (pa == pb == k || qa == qb == k || qa == qb == -1
          || (pa == pb == Across(t, m.goal, m.start) && qa >= Up(t, m.goal, m.start) && qb >= Up(t, m.goal, m.start)))
    ensures Within(FreeWorld(norm, m, t), a, b,
                   Abs(Across(t, m.goal, a) - Across(t, m.goal, b)) + Abs(Up(t, m.goal, a) - Up(t, m.goal, b)))
  {
    hide IsHypot, IsGateMap, Within, FreeWorld, Across, Up;
    forall c | Between(a, b, c) ensures FreeWorld(norm, m, t).open(c) {
      BetweenAt(t, m.goal, a, b, c);
      FreeCell(norm, m, t, k, c);
    }
    LegIsStraight(t, m.goal, a, b);
    Straight(FreeWorld(norm, m, t), a, b, Abs(a.i - b.i) + Abs(a.j - b.j));
  }

  lemma WithinMore(w: World, a: Cell, b: Cell, n: nat, k: nat)
    requires Within(w, a, b, n) && n <= k
    ensures Within(w, a, b, k)
  {
  }

  /** The cell under the goal, beyond the wall. */
  function Beyond(t: Turn, goal: Cell): Cell {
    At(t, goal, 0, -1)
  }

  lemma WithinIs(w: World, a: Cell, b: Cell, n: nat)
    requires Within(w, a, b, n)
    ensures exists p :: Route(w, p, a, b) && |p| <= n + 1
  {
  }

  /** Up, over, down past the end of the wall and back under it, without a toll. */
  lemma WayRound(norm: (int, int) -> real, m: Call, t: Turn, k: nat)
    requires IsHypot(norm) && IsGateMap(norm, m, t, k)
    ensures exists p :: Route(m.World(), p, m.start, Beyond(t, m.goal)) && Cost(m.World(), p) <= (12 * k) as real
  {
    GateStart(norm, m, t, k);
    hide IsHypot, IsGateMap, Within, FreeWorld, Across, Up, At, Route, Cost, Taxi;
    var w, ps := FreeWorld(norm, m, t), Across(t, m.goal, m.start);
    var top, corner, foot := At(t, m.goal, ps, k), At(t, m.goal, k, k), At(t, m.goal, k, -1);
    Leg(norm, m, t, k, m.start, top);
    Leg(norm, m, t, k, top, corner);
    Leg(norm, m, t, k, corner, foot);
    Leg(norm, m, t, k, foot, Beyond(t, m.goal));
    var n1, n2 := k - Up(t, m.goal, m.start), k - ps;
    WithinTrans(w, m.start, top, corner, n1, n2);
    WithinTrans(w, m.start, corner, foot, n1 + n2, k + 1);
    WithinTrans(w, m.start, foot, Beyond(t, m.goal), n1 + n2 + (k + 1), k);
    WithinMore(w, m.start, Beyond(t, m.goal), n1 + n2 + (k + 1) + k, 6 * k);
    WithinIs(w, m.start, Beyond(t, m.goal), 6 * k);
    var p :| Route(w, p, m.start, Beyond(t, m.goal)) && |p| <= 6 * k + 1;
    FreeRouteCosts(norm, m, t, k, p, Beyond(t, m.goal));
  }

  // ── how long it is ──

  /** How far along the way round a cell lies. */
  function Along(t: Turn, goal: Cell, k: nat, c: Cell): int {
    var p := Across(t, goal, c);
    if Up(t, goal, c) >= 1 then p else if Up(t, goal, c) == 0 then k else 2 * k - p
  }

  lemma AlongStep(norm: (int, int) -> real, m: Call, t: Turn, k: nat, a: Cell, b: Cell)
    requires IsGateMap(norm, m, t, k) && Adjacent(a, b) && m.World().open(a) && m.World().open(b)
    ensures Along(t, m.goal, k, b) <= Along(t, m.goal, k, a) + 1
  {
    GateOpen(norm, m, t, k, a);
    GateOpen(norm, m, t, k, b);
    TurnStep(t, m.goal, a, b);
    hide IsGateMap, Across, Up;
  }

  /** Every route is at least as long as it leads along. */
  lemma {:induction false} LongWay(norm: (int, int) -> real, m: Call, t: Turn, k: nat, p: seq<Cell>)
    requires IsHypot(norm) && IsGateMap(norm, m, t, k) && IsPath(m.World(), p) && p[0] == m.start
    ensures m.World().open(p[|p| - 1])
    ensures Length(p) >= (Along(t, m.goal, k, p[|p| - 1]) - Along(t, m.goal, k, m.start)) as real
  {
    GateStart(norm, m, t, k);
    hide IsHypot, IsGateMap, Along, Adjacent;
    if |p| > 1 {
      var q := p[..|p| - 1];
      LongWay(norm, m, t, k, q);
      AlongStep(norm, m, t, k, p[|p| - 2], p[|p| - 1]);
      assert Base(p[|p| - 2], p[|p| - 1]) >= 1.0;
    }
  }

  /** What gains lies within the start's own walk of the goal. */
  lemma GainIsClose(norm: (int, int) -> real, m: Call, t: Turn, k: nat, c: Cell)
    requires IsHypot(norm) && IsGateMap(norm, m, t, k) && Gains(norm, m.start, m.goal, c)
    ensures Abs(Across(t, m.goal, c)) <= Taxi(m.start, m.goal) && Abs(Up(t, m.goal, c)) <= Taxi(m.start, m.goal)
  {
    GateStart(norm, m, t, k);
    NearTurned(norm, t, m.goal, c);
    NearTurned(norm, t, m.goal, m.start);
    var p, q := Across(t, m.goal, c), Up(t, m.goal, c);
    var ps, qs := Across(t, m.goal, m.start), Up(t, m.goal, m.start);
    hide IsHypot, IsGateMap, Near, Across, Up, Taxi;
    GainIs(norm, m.start, m.goal, c);
    if Abs(p) > Taxi(m.start, m.goal) { EdgeIsFarther(norm, ps, qs, p, q, Abs(p)); }
    if Abs(q) > Taxi(m.start, m.goal) { EdgeIsFarther(norm, ps, qs, p, q, Abs(q)); }
  }

  lemma OctileShort(t: Turn, goal: Cell, a: Cell, b: Cell, r: nat)
    requires Abs(Across(t, goal, a)) <= r && Abs(Up(t, goal, a)) <= r && Abs(Across(t, goal, b)) <= r && Abs(Up(t, goal, b)) <= r
    ensures Octile(a, b) <= (4 * r) as real
  {
    var di, dj := Abs(a.i - b.i), Abs(a.j - b.j);
    assert di <= 2 * r && dj <= 2 * r;
    hide Across, Up;
    assert OctileForm(di + dj, Min(di, dj)) <= (di + dj) as real by {
      assert Min(di, dj) >= 0;
    }
  }

  lemma LimitIs(norm: (int, int) -> real, m: Call, c: Cell, length: real)
    requires m.ratio > 0.0
    ensures Barred(norm, m, c, length) <==> c != m.start && length > m.ratio * Octile(m.start, c) + m.slack
  {
  }

  lemma PastAllowance(m: Call, r: nat, o: real, length: real)
    requires m.ratio >= 0.0 && o <= (4 * r) as real && length > Allowance(m, r)
    ensures length > m.ratio * o + m.slack
  {
    ScaledMore(m.ratio, o, (4 * r) as real);
  }

  lemma PastGate(norm: (int, int) -> real, m: Call, r: nat, c: Cell, length: real)
    requires m.ratio > 0.0 && c != m.start && Octile(m.start, c) <= (4 * r) as real && length > Allowance(m, r)
    ensures Barred(norm, m, c, length)
  {
    PastAllowance(m, r, Octile(m.start, c), length);
    hide Octile, Allowance;
    LimitIs(norm, m, c, length);
  }

  lemma AimIs(norm: (int, int) -> real, m: Call, t: Turn, k: nat)
    requires IsGateMap(norm, m, t, k)
    ensures m.ratio >= 1.0 && m.slack >= 0.0 && m.tie > 0.0 && -1.0 <= m.hWeight <= 1.0
    ensures 1.0 < Near(norm, m.goal, m.start) <= 1000000.0 && m.maxExpansions > CellCount(m.lethal)
    ensures (2 * (k - Taxi(m.start, m.goal))) as real > Allowance(m, Taxi(m.start, m.goal))
  {
  }

  lemma RealDifference(length: real, n: int, lo: int)
    requires length >= n as real && n >= lo
    ensures length >= lo as real
  {
  }

  lemma BeyondIsFar(norm: (int, int) -> real, m: Call, t: Turn, k: nat, p: seq<Cell>, c: Cell)
    requires IsHypot(norm) && IsGateMap(norm, m, t, k) && Route(m.World(), p, m.start, c)
    requires Gains(norm, m.start, m.goal, c) && Up(t, m.goal, c) < 1
    ensures Length(p) >= (2 * (k - Taxi(m.start, m.goal))) as real
  {
    hide IsHypot, IsGateMap, Near, Gains, Across, Up, Taxi, Length, Adjacent;
    GateStart(norm, m, t, k);
    GainIsClose(norm, m, t, k, c);
    LongWay(norm, m, t, k, p);
    GateOpen(norm, m, t, k, c);
    var n := Along(t, m.goal, k, c) - Along(t, m.goal, k, m.start);
    assert n >= 2 * (k - Taxi(m.start, m.goal));
    RealDifference(Length(p), n, 2 * (k - Taxi(m.start, m.goal)));
  }

  /** What gains is close to the start, as the crow flies. */
  lemma GainOctile(norm: (int, int) -> real, m: Call, t: Turn, k: nat, c: Cell)
    requires IsHypot(norm) && IsGateMap(norm, m, t, k) && Gains(norm, m.start, m.goal, c)
    ensures c != m.start && Octile(m.start, c) <= (4 * Taxi(m.start, m.goal)) as real
  {
    assert c != m.start;
    hide IsHypot, IsGateMap, Near, Gains, Across, Up, Taxi, Octile;
    GateStart(norm, m, t, k);
    TurnFacts(t, m.goal, m.start);
    GainIsClose(norm, m, t, k, c);
    OctileShort(t, m.goal, m.start, c, Taxi(m.start, m.goal));
  }

  // ── the hidden cell ──

  /** One step nearer the goal, above the wall. */
  function Ahead(t: Turn, goal: Cell, start: Cell): Cell {
    if Up(t, goal, start) >= 2 then At(t, goal, Across(t, goal, start), Up(t, goal, start) - 1) else At(t, goal, 0, 1)
  }

  lemma StepSquare(u: real, d: real)
    requires 0.0 <= u <= d
    ensures u * u <= d * d
  {
    if u < d { StrictSquare(u, d); }
  }

  lemma SquaresGain(d: real, s: real, gap: real)
    requires d >= 0.0 && s >= 1.0 && d * d <= s * s - gap && 2.0 * MARGIN * s < gap
    ensures d < s - MARGIN
  {
    var u := s - MARGIN;
    assert u * u == s * s - 2.0 * MARGIN * s + MARGIN * MARGIN;
    if d >= u {
      StepSquare(u, d);
    }
  }

  lemma StepDown(p: int, q: int)
    ensures SquareSum(p, q - 1) == SquareSum(p, q) - (2 * q - 1)
  {
  }

  lemma SmallShare(s: real, q: int)
    requires 0.0 <= s <= 1000000.0 && q >= 1
    ensures 2.0 * MARGIN * s < (2 * q - 1) as real
  {
    assert 2.0 * MARGIN * s <= 0.002;
  }

  /** A distance in the frame, squared. */
  lemma DistanceIs(norm: (int, int) -> real, t: Turn, goal: Cell, c: Cell)
    requires IsHypot(norm)
    ensures var d := Near(norm, goal, c); d >= 0.0 && d * d == SquareSum(Across(t, goal, c), Up(t, goal, c)) as real
  {
    TurnFacts(t, goal, c);
    hide SquareSum, Across, Up;
  }

  lemma MoreThanOne(s: real)
    requires s > 1.0
    ensures s * s > 1.0
  {
    StrictSquare(1.0, s);
  }

  lemma AheadCloser(t: Turn, goal: Cell, start: Cell)
    requires Abs(Across(t, goal, start)) <= Up(t, goal, start) && Up(t, goal, start) >= 1
    requires SquareSum(Across(t, goal, start), Up(t, goal, start)) > 1
    ensures var a := Ahead(t, goal, start);
      && Up(t, goal, a) >= 1
      && SquareSum(Across(t, goal, a), Up(t, goal, a)) <= SquareSum(Across(t, goal, start), Up(t, goal, start)) - (2 * Up(t, goal, start) - 1)
  {
    var p, q := Across(t, goal, start), Up(t, goal, start);
    hide Across, Up, At;
    if q >= 2 {
      StepDown(p, q);
    } else {
      assert p == 1 || p == -1;
    }
  }

  lemma AheadGains(norm: (int, int) -> real, m: Call, t: Turn, k: nat)
    requires IsHypot(norm) && IsGateMap(norm, m, t, k)
    ensures Tolled(norm, m.start, m.goal, t, Ahead(t, m.goal, m.start))
  {
    hide IsHypot, IsGateMap, Near, Gains, Across, Up, SquareSum, Ahead, Taxi;
    GateStart(norm, m, t, k);
    AimIs(norm, m, t, k);
    var a := Ahead(t, m.goal, m.start);
    var p, q := Across(t, m.goal, m.start), Up(t, m.goal, m.start);
    var s, d := Near(norm, m.goal, m.start), Near(norm, m.goal, a);
    DistanceIs(norm, t, m.goal, a);
    DistanceIs(norm, t, m.goal, m.start);
    MoreThanOne(s);
    SmallShare(s, q);
    AheadCloser(t, m.goal, m.start);
    SquaresGain(d, s, (2 * q - 1) as real);
    GainIs(norm, m.start, m.goal, a);
  }

  lemma AheadAdjacent(t: Turn, goal: Cell, start: Cell)
    requires Abs(Across(t, goal, start)) <= Up(t, goal, start) && Up(t, goal, start) >= 1
    requires Ahead(t, goal, start) != start
    ensures Adjacent(start, Ahead(t, goal, start))
  {
    TurnFacts(t, goal, start);
  }

  lemma AdjacentOctile(a: Cell, b: Cell)
    requires Adjacent(a, b)
    ensures Octile(a, b) == Base(a, b)
  {
  }

  lemma StepRoute(w: World, a: Cell, b: Cell)
    requires Adjacent(a, b) && w.open(b)
    ensures Route(w, [a, b], a, b) && Cost(w, [a, b]) == w.step(a, b)
  {
    assert [a, b][..1] == [a];
  }

  lemma AheadOpen(norm: (int, int) -> real, m: Call, t: Turn, k: nat)
    requires IsHypot(norm) && IsGateMap(norm, m, t, k)
    ensures m.World().open(Ahead(t, m.goal, m.start))
  {
    GateStart(norm, m, t, k);
    GateOpen(norm, m, t, k, Ahead(t, m.goal, m.start));
    hide IsGateMap, Across, Up, At;
  }

  lemma AheadRoute(norm: (int, int) -> real, m: Call, t: Turn, k: nat)
    requires IsHypot(norm) && IsGateMap(norm, m, t, k)
    ensures var a := Ahead(t, m.goal, m.start);
      && Route(m.World(), [m.start, a], m.start, a)
      && Cost(m.World(), [m.start, a]) == Octile(m.start, a) + Levy(k)
  {
    GateStart(norm, m, t, k);
    AheadGains(norm, m, t, k);
    var a := Ahead(t, m.goal, m.start);
    assert a != m.start;
    AheadAdjacent(t, m.goal, m.start);
    AdjacentOctile(m.start, a);
    AheadOpen(norm, m, t, k);
    StepRoute(m.World(), m.start, a);
    hide Levy, Tolled, GateAim, Ahead, Adjacent, Base, Octile;
    assert m.cost.Get(a) == Levy(k);
  }

  lemma OctileNonNegative(a: Cell, b: Cell)
    ensures Octile(a, b) >= 0.0
  {
  }

  lemma RatioKeeps(ratio: real, slack: real, o: real)
    requires ratio >= 1.0 && slack >= 0.0 && o >= 0.0
    ensures ratio * o + slack >= o
  {
    assert (ratio - 1.0) * o >= 0.0;
  }

  /** The cell ahead is no detour by the cheapest way to it. */
  lemma AheadIsHidden(norm: (int, int) -> real, m: Call, t: Turn, k: nat, x: Trace)
    requires IsHypot(norm) && IsGateMap(norm, m, t, k) && Tree(m.World(), m.start, x.settled)
    requires TreeOptimal(m.World(), x.settled, 1.0) && Ahead(t, m.goal, m.start) in x.settled
    ensures HiddenAt(norm, m, x, Ahead(t, m.goal, m.start))
  {
    hide IsHypot, IsGateMap, Near, Gains, Ahead, Levy, Cost, Length, Octile, Tree, TreeOptimal, Route, Up;
    var a := Ahead(t, m.goal, m.start);
    AimIs(norm, m, t, k);
    AheadGains(norm, m, t, k);
    AheadRoute(norm, m, t, k);
    SettledBound(m.World(), m.start, x.settled, 1.0, a, [m.start, a]);
    SettledRoute(m.World(), m.start, x.settled, a);
    LevyPaid(norm, m, t, k, x.settled[a], a);
    OctileNonNegative(m.start, a);
    RatioKeeps(m.ratio, m.slack, Octile(m.start, a));
    LimitIs(norm, m, a, Length(x.settled[a]));
  }

  // ── every answer ──

  lemma UnitUnder(norm: (int, int) -> real)
    requires IsHypot(norm)
    ensures norm(0, -1) == 1.0
  {
    var d := norm(0, -1);
    assert d >= 0.0 && d * d == SquareSum(0, -1) as real == 1.0;
    if d < 1.0 { StrictSquare(d, 1.0); }
    if d > 1.0 { StrictSquare(1.0, d); }
  }

  /** The leader is a tolled cell, and the cell beyond the wall ties with it. */
  lemma LeaderTied(norm: (int, int) -> real, m: Call, t: Turn, k: nat, x: Trace)
    requires IsHypot(norm) && IsGateMap(norm, m, t, k) && Tree(m.World(), m.start, x.settled)
    requires Chosen(m.Ranking(norm), m.World(), m.start, x)
    requires HiddenAt(norm, m, x, Ahead(t, m.goal, m.start)) && Beyond(t, m.goal) in x.settled && m.goal !in x.settled
    ensures x.base in x.settled && x.base != m.start
    ensures Tied(m.Ranking(norm), m.start, x.settled.Keys, x.base, Beyond(t, m.goal))
  {
    AimIs(norm, m, t, k);
    GateStart(norm, m, t, k);
    var e := Beyond(t, m.goal);
    assert e != m.start;
    NearTurned(norm, t, m.goal, e);
    UnitUnder(norm);
    hide IsHypot, IsGateMap, Near, Length, Cost, Leads, Ahead, Tree;
    BaseGains(norm, m, x, Ahead(t, m.goal, m.start));
    UnitAway(norm, m.goal, x.base);
    Everything(m.Ranking(norm), x.settled.Keys);
    NearIs(norm, m, e);
    NearIs(norm, m, x.base);
  }

  lemma {:induction false} LengthNonNegative(w: World, p: seq<Cell>)
    requires p != []
    ensures Length(p) >= 0.0
  {
    if |p| > 1 { LengthNonNegative(w, p[..|p| - 1]); }
  }

  /** The end pays no toll: it gains nothing, or it is a detour. */
  lemma EndIsNoUse(norm: (int, int) -> real, m: Call, t: Turn, k: nat, x: Trace)
    requires IsHypot(norm) && IsGateMap(norm, m, t, k) && Tree(m.World(), m.start, x.settled)
    requires Chosen(m.Ranking(norm), m.World(), m.start, x) && TreeOptimal(m.World(), x.settled, 1.0)
    requires HiddenAt(norm, m, x, Ahead(t, m.goal, m.start)) && Beyond(t, m.goal) in x.settled && m.goal !in x.settled
    ensures x.end in x.settled
    ensures !Gains(norm, m.start, m.goal, x.end) || Barred(norm, m, x.end, Length(x.settled[x.end]))
  {
    LeaderTied(norm, m, t, k, x);
    AimIs(norm, m, t, k);
    hide IsHypot, IsGateMap, Near, Length, Cost, Leads, Ahead, Tree, TreeOptimal, Tied, HiddenAt, Beyond, Route, Levy, Up, Taxi, Allowance, Octile, Barred, Gains;
    WayRound(norm, m, t, k);
    var p :| Route(m.World(), p, m.start, Beyond(t, m.goal)) && Cost(m.World(), p) <= (12 * k) as real;
    SettledBound(m.World(), m.start, x.settled, 1.0, Beyond(t, m.goal), p);
    LevyPositive(k);
    assert PicksTie(m.Ranking(norm), m.World(), m.start, x);
    SettledRoute(m.World(), m.start, x.settled, x.end);
    if Gains(norm, m.start, m.goal, x.end) {
      if Up(t, m.goal, x.end) >= 1 {
        LevyPaid(norm, m, t, k, x.settled[x.end], x.end);
        LengthNonNegative(m.World(), x.settled[x.end]);
      } else {
        BeyondIsFar(norm, m, t, k, x.settled[x.end], x.end);
        GainOctile(norm, m, t, k, x.end);
        PastGate(norm, m, Taxi(m.start, m.goal), x.end, Length(x.settled[x.end]));
      }
    }
  }

  lemma NoProgress(norm: (int, int) -> real, m: Call, end: Cell, length: real)
    requires IsHypot(norm) && Near(norm, m.goal, m.start) <= 1000000.0
    requires !Gains(norm, m.start, m.goal, end) || Barred(norm, m, end, length)
    ensures !Progress(m.Ranking(norm), m.start, end, length)
  {
    NearIs(norm, m, end);
    NearIs(norm, m, m.start);
    assert Near(norm, m.goal, end) >= 0.0;
  }

  lemma GateGoalShut(norm: (int, int) -> real, m: Call, t: Turn, k: nat)
    requires IsHypot(norm) && IsGateMap(norm, m, t, k)
    ensures !m.World().open(m.goal) && m.goal != m.start
  {
    GateStart(norm, m, t, k);
    GateOpen(norm, m, t, k, m.goal);
  }

  lemma OnlyHidden(norm: (int, int) -> real, m: Call, t: Turn, k: nat, path: seq<Cell>, n: nat, msg: Outcome, x: Trace)
    requires IsHypot(norm) && IsGateMap(norm, m, t, k) && m.Allows(norm, path, n, msg, x)
    ensures msg == NoPath && n <= m.maxExpansions && HiddenAt(norm, m, x, Ahead(t, m.goal, m.start))
  {
    hide IsGateMap, IsHypot, Cost, Length, Near, Chosen, Tree, TreeOptimal, NonNegative, Route, Ahead, Beyond, HiddenAt, Progress;
    AimIs(norm, m, t, k);
    GateGoalShut(norm, m, t, k);
    NeverThere(m.World(), x.settled, m.start, m.goal);
    GateNonNegative(norm, m, t, k);
    AheadRoute(norm, m, t, k);
    WayRound(norm, m, t, k);
    assert Reachable(m.World(), m.start, Ahead(t, m.goal, m.start));
    assert Reachable(m.World(), m.start, Beyond(t, m.goal));
    AheadIsHidden(norm, m, t, k, x);
    EndIsNoUse(norm, m, t, k, x);
    NoProgress(norm, m, x.end, Length(x.settled[x.end]));
  }

  // ── the exact condition ──

  /** A call for the same offset and settings. */
  predicate SameGatedAim(m: Call, start: Cell, goal: Cell, tie: real, ratio: real, slack: real, hWeight: real) {
    && m.goal.i - m.start.i == goal.i - start.i && m.goal.j - m.start.j == goal.j - start.j
    && m.tie == tie && m.ratio == ratio && m.slack == slack && m.hWeight == hWeight
  }

  lemma SameNear(norm: (int, int) -> real, m: Call, start: Cell, goal: Cell, tie: real, ratio: real, slack: real, hWeight: real)
    requires SameGatedAim(m, start, goal, tie, ratio, slack, hWeight)
    ensures Near(norm, m.goal, m.start) == Near(norm, goal, start)
  {
    assert m.start.i - m.goal.i == start.i - goal.i && m.start.j - m.goal.j == start.j - goal.j;
  }

  lemma GateCallAim(norm: (int, int) -> real, start: Cell, goal: Cell, tie: real, ratio: real, slack: real, hWeight: real)
    requires ratio >= 0.0 && slack >= 0.0
    ensures SameGatedAim(GateCall(norm, start, goal, tie, ratio, slack, hWeight), start, goal, tie, ratio, slack, hWeight)
  {
    hide GateWidth;
  }

  /** Farther than one cell out some map breaks the promise. */
  lemma GateBroken(norm: (int, int) -> real, start: Cell, goal: Cell, tie: real, ratio: real, slack: real, hWeight: real)
    requires IsHypot(norm) && ratio >= 1.0 && slack >= 0.0 && -1.0 <= hWeight <= 1.0
    requires tie > 0.0 && 1.0 < Near(norm, goal, start) <= 1000000.0
    ensures var m := GateCall(norm, start, goal, tie, ratio, slack, hWeight);
      BrokenGated(norm, m, Ahead(TurnOf(start, goal), m.goal, m.start))
  {
    hide GateCall, IsGateMap, IsHypot, Near, Answers, HiddenAt, Ahead, TurnOf, GateWidth;
    var m, t, k := GateCall(norm, start, goal, tie, ratio, slack, hWeight), TurnOf(start, goal), GateWidth(start, goal, ratio, slack);
    GateCallIsGateMap(norm, start, goal, tie, ratio, slack, hWeight);
    forall path, n: nat, msg, x | m.Allows(norm, path, n, msg, x)
      ensures msg == NoPath && n <= m.maxExpansions && HiddenAt(norm, m, x, Ahead(t, m.goal, m.start))
    {
      OnlyHidden(norm, m, t, k, path, n, msg, x);
    }
  }

  /**
   The exact condition with the detour gate on, at the default weight and gate
   among others: without a tie width, or with the start at most one cell from the
   goal, "no path" hides no eligible nearer cell on any map; with a tie width,
   however small, and a start farther out, some map hides one.
   */
  lemma GatedPromiseExact(norm: (int, int) -> real, start: Cell, goal: Cell, tie: real, ratio: real, slack: real, hWeight: real)
    requires IsHypot(norm) && ratio >= 1.0 && slack >= 0.0 && -1.0 <= hWeight <= 1.0 && Near(norm, goal, start) <= 1000000.0
    ensures tie <= 0.0 || Near(norm, goal, start) <= 1.0 ==>
      forall m :: SameGatedAim(m, start, goal, tie, ratio, slack, hWeight) ==> KeptGated(norm, m)
    ensures tie > 0.0 && Near(norm, goal, start) > 1.0 ==>
      exists m, c :: SameGatedAim(m, start, goal, tie, ratio, slack, hWeight) && BrokenGated(norm, m, c)
  {
    hide KeptGated, BrokenGated, IsHypot, Near, GateCall;
    if tie > 0.0 && Near(norm, goal, start) > 1.0 {
      GateBroken(norm, start, goal, tie, ratio, slack, hWeight);
      GateCallAim(norm, start, goal, tie, ratio, slack, hWeight);
    } else {
      forall m | SameGatedAim(m, start, goal, tie, ratio, slack, hWeight) ensures KeptGated(norm, m) {
        SameNear(norm, m, start, goal, tie, ratio, slack, hWeight);
        GateKept(norm, m);
      }
    }
  }

  /** The search itself, on that map: it answers "no path", an eligible nearer cell among those it met. */
  method GateHides(norm: (int, int) -> real, start: Cell, goal: Cell, tie: real, ratio: real, slack: real, hWeight: real)
    returns (path: seq<Cell>, msg: Outcome, ghost x: Trace)
    requires IsHypot(norm) && ratio >= 1.0 && slack >= 0.0 && -1.0 <= hWeight <= 1.0
    requires tie > 0.0 && 1.0 < Near(norm, goal, start) <= 1000000.0
    ensures msg == NoPath
    ensures exists c :: HiddenAt(norm, GateCall(norm, start, goal, tie, ratio, slack, hWeight), x, c)
  {
    hide GateCall, IsHypot, HiddenAt, Near, Ahead;
    var m := GateCall(norm, start, goal, tie, ratio, slack, hWeight);
    GateBroken(norm, start, goal, tie, ratio, slack, hWeight);
    var n;
    path, n, msg, x := AstarToward(m.Ranking(norm), m.cost, m.lethal, m.start, m.goal, m.perUnit, m.hWeight, m.maxExpansions);
    assert m.Allows(norm, path, n, msg, x);
  }
}
