/** The quadrature counter of body/lib/motor_gpio.py: edge callbacks, interleaved drains, and what they count. */
module Quadrature {
  /** `_QUAD_TABLE`, indexed by old state * 4 + new state. */
  const QUAD_TABLE: seq<int> := [0, 1, -1, 0, -1, 0, 0, 1, 1, 0, 0, -1, 0, -1, 1, 0]

  /** One lookup, `_QUAD_TABLE[idx]`. */
  function Entry(idx: int): int
    requires 0 <= idx < 16
  {
    QUAD_TABLE[idx]
  }

  type Level = x: int | 0 <= x <= 1

  /** `level & 1` */
  function LowBit(level: int): Level {
    level % 2
  }

  /** The A and B lines as last reported. */
  datatype Lines = Lines(a: Level, b: Level) {
    function State(): int {
      2 * a + b
    }

    /** Position in the Gray cycle 00, 01, 11, 10. */
    function Phase(): int {
      if a == 0 then b else 3 - b
    }

    /** A callback's `(gpio, level)`: only the low bit of the level counts. */
    function Report(onA: bool, level: int): Lines {
      if onA then this.(a := LowBit(level)) else this.(b := LowBit(level))
    }
  }

  /** What one callback adds to the count. */
  function Ticks(before: Lines, after: Lines): int {
    Entry(4 * before.State() + after.State())
  }

  datatype Event = Edge(onA: bool, level: int) | Drain

  /** The port: lines, pending delta, edges seen and what was drained so far, oldest first. */
  datatype Port = Port(lines: Lines, delta: int, edges: nat, drained: seq<int>)

  function Step(p: Port, e: Event): Port {
    match e
    case Edge(onA, level) =>
      var after := p.lines.Report(onA, level);
      p.(lines := after, delta := p.delta + Ticks(p.lines, after), edges := p.edges + 1)
    case Drain => p.(delta := 0, drained := p.drained + [p.delta])
  }

  lemma StepEdge(p: Port, onA: bool, level: int)
    ensures var after := p.lines.Report(onA, level);
      Step(p, Edge(onA, level)) == Port(after, p.delta + Ticks(p.lines, after), p.edges + 1, p.drained)
  {
  }

  class QuadraturePort {
    const pinA: int
    const pinB: int
    var aLevel: Level
    var bLevel: Level
    var state: int
    var delta: int
    var edges: nat
    ghost var drained: seq<int>

    ghost predicate Valid()
      reads this
    {
      state == Lines(aLevel, bLevel).State()
    }

    ghost function Abs(): Port
      reads this
    {
      Port(Lines(aLevel, bLevel), delta, edges, drained)
    }

    /** `a` and `b` are the levels read from the pins when the port is set up. */
    constructor (pinA: int, pinB: int, a: int, b: int)
      ensures Valid() && Abs() == Port(Lines(LowBit(a), LowBit(b)), 0, 0, [])
      ensures this.pinA == pinA && this.pinB == pinB
    {
      this.pinA, this.pinB := pinA, pinB;
      aLevel, bLevel := LowBit(a), LowBit(b);
      state := 2 * LowBit(a) + LowBit(b);
      delta, edges, drained := 0, 0, [];
    }

    method OnEdge(gpio: int, level: int)
      requires Valid()
      modifies this
      ensures Valid() && Abs() == Step(old(Abs()), Edge(gpio == pinA, level))
    {
      hide Entry, LowBit, Step;
      ghost var was := Abs();
      ghost var before := Lines(aLevel, bLevel);
      var lvl := LowBit(level);
      if gpio == pinA {
        aLevel := lvl;
      } else {
        bLevel := lvl;
      }
      ghost var after := Lines(aLevel, bLevel);
      assert after == before.Report(gpio == pinA, level);
      var now := 2 * aLevel + bLevel;
      assert state == before.State() && now == after.State();
      edges := edges + 1;
      var d := Entry(4 * state + now);
      state := now;
      if d != 0 {
        delta := delta + d;
      }
      assert d == Ticks(before, after);
      StepEdge(was, gpio == pinA, level);
      assert Abs() == Port(after, was.delta + Ticks(before, after), was.edges + 1, was.drained);
    }

    method Drain() returns (d: int)
      requires Valid()
      modifies this
      ensures Valid() && Abs() == Step(old(Abs()), Event.Drain)
      ensures d == old(delta) && drained == old(drained) + [d]
    {
      d := delta;
      delta := 0;
      drained := drained + [d];
    }
  }

  // ── one callback ──

  lemma TicksFrom00(y: Lines)
    ensures Ticks(Lines(0, 0), y) == if y == Lines(0, 1) then 1 else if y == Lines(1, 0) then -1 else 0
  {
    assert Entry(0) == 0 && Entry(1) == 1 && Entry(2) == -1 && Entry(3) == 0;
  }

  lemma TicksFrom01(y: Lines)
    ensures Ticks(Lines(0, 1), y) == if y == Lines(1, 1) then 1 else if y == Lines(0, 0) then -1 else 0
  {
    assert Entry(4) == -1 && Entry(5) == 0 && Entry(6) == 0 && Entry(7) == 1;
  }

  lemma TicksFrom11(y: Lines)
    ensures Ticks(Lines(1, 1), y) == if y == Lines(1, 0) then 1 else if y == Lines(0, 1) then -1 else 0
  {
    assert Entry(12) == 0 && Entry(13) == -1 && Entry(14) == 1 && Entry(15) == 0;
  }

  lemma TicksFrom10(y: Lines)
    ensures Ticks(Lines(1, 0), y) == if y == Lines(0, 0) then 1 else if y == Lines(1, 1) then -1 else 0
  {
    assert Entry(8) == 1 && Entry(9) == 0 && Entry(10) == 0 && Entry(11) == -1;
  }

  /** The whole table: one step round 00, 01, 11, 10 is a tick, one back is minus a tick, all else nothing. */
  lemma TableIsGray(x: Lines, y: Lines)
    ensures var turn := y.Phase() - x.Phase();
      Ticks(x, y) == if turn == 1 || turn == -3 then 1 else if turn == -1 || turn == 3 then -1 else 0
  {
    hide Ticks;
    TicksFrom00(y);
    TicksFrom01(y);
    TicksFrom11(y);
    TicksFrom10(y);
  }

  /** A callback moves at most one line, so the table never sees both change; its tick is the Gray step. */
  lemma ReportIsGrayStep(before: Lines, onA: bool, level: int)
    ensures var after := before.Report(onA, level);
      && (after.a == before.a || after.b == before.b)
      && -1 <= Ticks(before, after) <= 1
      && (Ticks(before, after) == 0 <==> after == before)
      && (after.Phase() - before.Phase() - Ticks(before, after)) % 4 == 0
  {
    hide Ticks;
    TableIsGray(before, before.Report(onA, level));
  }

  lemma ReportBack(before: Lines, onA: bool, level: int)
    ensures var after := before.Report(onA, level);
      && after.Report(onA, if onA then before.a else before.b) == before
      && Ticks(after, before) == -Ticks(before, after)
  {
    hide Ticks;
    var after := before.Report(onA, level);
    TableIsGray(before, after);
    TableIsGray(after, before);
  }

  // ── runs ──

  function Run(p: Port, events: seq<Event>): Port
    decreases |events|
  {
    if events == [] then p else Run(Step(p, events[0]), events[1..])
  }

  function Sum(xs: seq<int>): int {
    if xs == [] then 0 else Sum(xs[..|xs| - 1]) + xs[|xs| - 1]
  }

  /** Everything counted so far: what was drained and what is pending. */
  function Total(p: Port): int {
    Sum(p.drained) + p.delta
  }

  lemma StepTotal(p: Port, e: Event)
    ensures Total(Step(p, e)) == Total(p) + Ticks(p.lines, Step(p, e).lines)
  {
    if e.Drain? {
      var q := Step(p, e);
      assert q.drained[..|q.drained| - 1] == p.drained;
    }
  }

  lemma StepConserves(p: Port, e: Event)
    ensures (Total(Step(p, e)) - Total(p) - (Step(p, e).lines.Phase() - p.lines.Phase())) % 4 == 0
  {
    hide Total, Ticks;
    StepTotal(p, e);
    if e.Edge? {
      ReportIsGrayStep(p.lines, e.onA, e.level);
    } else {
      assert Ticks(p.lines, p.lines) == 0 by { ReportIsGrayStep(p.lines, true, p.lines.a); }
    }
  }

  /**
   Whatever the callbacks and however the drains fall between them, the ticks
   drained and pending account for the Gray phase change, modulo a full cycle.
   */
  lemma {:induction false} PhaseConserved(p: Port, events: seq<Event>)
    ensures (Total(Run(p, events)) - Total(p) - (Run(p, events).lines.Phase() - p.lines.Phase())) % 4 == 0
    decreases |events|
  {
    hide Total, Step;
    if events != [] {
      StepConserves(p, events[0]);
      PhaseConserved(Step(p, events[0]), events[1..]);
    }
  }

  /** The events that are callbacks. */
  function Edges(events: seq<Event>): seq<Event> {
    if events == [] then [] else (if events[0].Edge? then [events[0]] else []) + Edges(events[1..])
  }

  /** Where the drains fall never changes what is counted. */
  lemma {:induction false} DrainsDoNotCount(p: Port, q: Port, events: seq<Event>, events': seq<Event>)
    requires p.lines == q.lines && Total(p) == Total(q) && Edges(events) == Edges(events')
    ensures Run(p, events).lines == Run(q, events').lines && Total(Run(p, events)) == Total(Run(q, events'))
    decreases |events| + |events'|
  {
    hide Total, Ticks;
    if events != [] && events[0].Drain? {
      StepTotal(p, events[0]);
      ReportIsGrayStep(p.lines, true, p.lines.a);
      DrainsDoNotCount(Step(p, events[0]), q, events[1..], events');
    } else if events' != [] && events'[0].Drain? {
      StepTotal(q, events'[0]);
      ReportIsGrayStep(q.lines, true, q.lines.a);
      DrainsDoNotCount(p, Step(q, events'[0]), events, events'[1..]);
    } else if events != [] {
      assert Edges(events)[0] == events[0] && Edges(events')[0] == events'[0];
      assert Edges(events)[1..] == Edges(events[1..]) && Edges(events')[1..] == Edges(events'[1..]);
      StepTotal(p, events[0]);
      StepTotal(q, events'[0]);
      DrainsDoNotCount(Step(p, events[0]), Step(q, events'[0]), events[1..], events'[1..]);
    }
  }

  // ── the shaft ──

  /** The lines at shaft position `x`. */
  function Gray(x: int): Lines {
    match x % 4
    case 0 => Lines(0, 0)
    case 1 => Lines(0, 1)
    case 2 => Lines(1, 1)
    case _ => Lines(1, 0)
  }

  /** The callback for a move of one position: the line that changed, at its new level. */
  function MoveEdge(x: int, y: int): Event {
    if Gray(x).a != Gray(y).a then Edge(true, Gray(y).a) else Edge(false, Gray(y).b)
  }

  /** A walk of the shaft: each move is one position either way. */
  predicate Walk(xs: seq<int>) {
    xs != [] && forall i :: 0 < i < |xs| ==> xs[i] - xs[i - 1] == 1 || xs[i] - xs[i - 1] == -1
  }

  function WalkEdges(xs: seq<int>): seq<Event> {
    if |xs| <= 1 then [] else [MoveEdge(xs[0], xs[1])] + WalkEdges(xs[1..])
  }

  lemma MoveCounts(x: int, y: int)
    requires y - x == 1 || y - x == -1
    ensures var e := MoveEdge(x, y); Gray(x).Report(e.onA, e.level) == Gray(y) && Ticks(Gray(x), Gray(y)) == y - x
  {
    hide Ticks;
    TableIsGray(Gray(x), Gray(y));
  }

  /** A port that hears every edge of a walk counts exactly the shaft's displacement, drained at any time. */
  lemma {:induction false} WalkCounted(p: Port, xs: seq<int>, events: seq<Event>)
    requires Walk(xs) && p.lines == Gray(xs[0]) && Edges(events) == WalkEdges(xs)
    ensures Run(p, events).lines == Gray(xs[|xs| - 1])
    ensures Total(Run(p, events)) == Total(p) + xs[|xs| - 1] - xs[0]
    decreases |events|
  {
    hide Total, Ticks, Gray, MoveEdge;
    if events != [] {
      StepTotal(p, events[0]);
      if events[0].Drain? {
        ReportIsGrayStep(p.lines, true, p.lines.a);
        WalkCounted(Step(p, events[0]), xs, events[1..]);
      } else {
        assert WalkEdges(xs)[0] == events[0] && WalkEdges(xs)[1..] == Edges(events[1..]);
        MoveCounts(xs[0], xs[1]);
        assert WalkEdges(xs)[1..] == WalkEdges(xs[1..]);
        WalkCounted(Step(p, events[0]), xs[1..], events[1..]);
      }
    }
  }

  lemma GrayPhase(x: int)
    ensures (Gray(x).Phase() - x) % 4 == 0
  {
  }

  /**
   Callbacks may be lost, repeated or swapped: whenever the port's lines agree
   with the shaft again, the count is off by whole cycles of four.
   */
  lemma LossesCostWholeCycles(p: Port, x: int, y: int, events: seq<Event>)
    requires p.lines == Gray(x) && Run(p, events).lines == Gray(y)
    ensures (Total(Run(p, events)) - Total(p) - (y - x)) % 4 == 0
  {
    hide Gray, Run, Total;
    PhaseConserved(p, events);
    GrayPhase(x);
    GrayPhase(y);
  }

  /** The callbacks that undo `events`, last first. */
  function Retrace(lines: Lines, events: seq<Event>): seq<Event>
    requires forall e :: e in events ==> e.Edge?
    decreases |events|
  {
    if events == [] then []
    else
      var e := events[0];
      Retrace(lines.Report(e.onA, e.level), events[1..]) + [Edge(e.onA, if e.onA then lines.a else lines.b)]
  }

  lemma {:induction false} RunAppend(p: Port, a: seq<Event>, b: seq<Event>)
    ensures Run(p, a + b) == Run(Run(p, a), b)
    decreases |a|
  {
    hide Step;
    if a == [] {
      assert a + b == b;
    } else {
      assert (a + b)[0] == a[0] && (a + b)[1..] == a[1..] + b;
      RunAppend(Step(p, a[0]), a[1..], b);
    }
  }

  lemma RunOne(p: Port, e: Event)
    ensures Run(p, [e]) == Step(p, e)
  {
    assert Run(Step(p, e), [e][1..]) == Step(p, e);
  }

  /** Retracing any run of callbacks backwards takes its whole count back. */
  lemma {:induction false} RetraceNegates(p: Port, events: seq<Event>)
    requires forall e :: e in events ==> e.Edge?
    ensures var there := Run(p, events);
      var back := Run(there, Retrace(p.lines, events));
      back.lines == p.lines && Total(back) - Total(there) == -(Total(there) - Total(p))
    decreases |events|
  {
    hide Total, Ticks;
    if events != [] {
      var e := events[0];
      var next := Step(p, e);
      var there := Run(p, events);
      var undo := Edge(e.onA, if e.onA then p.lines.a else p.lines.b);
      RetraceNegates(next, events[1..]);
      var inner := Retrace(next.lines, events[1..]);
      RunAppend(there, inner, [undo]);
      var mid := Run(there, inner);
      assert Run(mid, [undo]) == Step(mid, undo) by { RunOne(mid, undo); }
      StepTotal(p, e);
      StepTotal(mid, undo);
      ReportBack(p.lines, e.onA, e.level);
    }
  }
}
