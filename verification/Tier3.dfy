/**
 `Tier3Controller.step` of body/lib/tier3_controller.py. What the sensors, the
 planner and the vetoes say on a tick are inputs; everything the controller
 decides from them and remembers is here.
 */
module Tier3 {
  import opened Numbers
  import opened Options
  import opened Steering

  datatype Config = Config(
    params: Params,
    noProgressTimeout: real, noProgressEps: real,
    deadline: real,
    realignThresh: real, realignTimeout: real,
    rotateTimeout: real, translateEps: real,
    flipBand: real, minRotateOmega: real,
    terminalZeroTicks: int, slowRetry: bool, depthAct: bool,
    defaultTtl: real, staleFactor: real, endHold: real)

  /** `Tier3Goal`; `isPath` when it carries a path. */
  datatype Goal = Goal(tol: real, finalHeading: Option<real>, vCap: Option<real>, omegaCap: Option<real>,
                       isPath: bool, endIsGoal: bool, ttl: Option<real>, routeId: int)

  datatype Mode = Follow | Rotate | Realign | PlanMode | Held | Starved | Rejoin | NoMode
  datatype Kind = Driving | Arrived | Blocked
  datatype Reason = Deadline | RotateTimeout | PathStale | NoScan | PathBlocked | PlanFailed | DepthBlock | SweptBlock | NoProgress | NoReason

  /** `TickResult`: the published state and command (None: publish none). */
  datatype Result = Result(kind: Kind, cmd: Option<(real, real)>, reason: Reason, mode: Mode, terminal: bool)

  /** What planning came to on this tick. */
  datatype Plan =
    | NoPlan                                  // the planner failed: blocked
    | AtBestCell                              // already at the closest reachable cell
    | OffPath                                 // path mode: obstructed with no rejoin point
    | Chosen(rejoin: bool, adoptedNew: bool, partialReached: bool)

  /** Everything one tick brings in. */
  datatype Input = Input(
    now: real, x: real, y: real, dist: real, headingErr: real,
    pathRem: real, scan: bool, plan: Plan,
    remaining: real, lookDist: real, lookBearing: real, k1: Option<real>, k2: Option<real>,
    sweptVeto: (real, real) -> bool, depthVeto: (real, real) -> bool, gateHolds: bool)

  datatype State = State(
    rotating: bool, rotDir: int, realignTime: real, finalAligned: bool,
    startedAt: real, lastTranslateAt: real, anchorX: real, anchorY: real,
    progBest: Option<real>, progAt: real, prevRejoin: Option<bool>,
    terminal: Option<Reason>, terminalTicks: nat, lastTick: Option<real>,
    pathRxAt: real, stale: bool, starved: bool, pathRefreshed: bool)

  /** `_reset_state` */
  function Start(now: real, x: real, y: real): State {
    State(false, 0, 0.0, false, now, now, x, y, None, now, None, None, 0, None, now, false, false, false)
  }

  // ── the pieces of a tick ──

  /** Capped time since the last tick. */
  function Dt(s: State, now: real): real {
    if s.lastTick.None? then 0.0 else MinReal(0.5, MaxReal(0.0, now - s.lastTick.value))
  }

  /** Nothing on the first tick or when the clock runs back, and half a second at most. */
  lemma DtIs(s: State, now: real)
    ensures s.lastTick.None? ==> Dt(s, now) == 0.0
    ensures s.lastTick.Some? ==>
      Dt(s, now) == if now < s.lastTick.value then 0.0 else if now > s.lastTick.value + 0.5 then 0.5 else now - s.lastTick.value
  {
  }

  /** The robot has moved at least the translation threshold since the anchor. */
  predicate Moved(cfg: Config, s: State, t: Input) {
    var dx, dy := t.x - s.anchorX, t.y - s.anchorY;
    cfg.translateEps <= 0.0 || dx * dx + dy * dy >= cfg.translateEps * cfg.translateEps
  }

  /** The start of every tick: only real translation resets the rotation budget and the re-aim time. */
  function Clock(cfg: Config, s: State, t: Input): State {
    var s1 := s.(lastTick := Some(t.now));
    if Moved(cfg, s, t)
    then s1.(anchorX := t.x, anchorY := t.y, lastTranslateAt := t.now, realignTime := 0.0) else s1
  }

  predicate DeadlineHit(cfg: Config, g: Goal, s: State, now: real) {
    !g.isPath && cfg.deadline > 0.0 && now - s.startedAt > cfg.deadline
  }

  predicate BudgetHit(cfg: Config, s: State, now: real) {
    cfg.rotateTimeout > 0.0 && now - s.lastTranslateAt > cfg.rotateTimeout
  }

  const STOP: Option<(real, real)> := Some((0.0, 0.0))

  /** `_terminal`: a few zeros, then silence. */
  function Terminal(cfg: Config, s: State): (State, Result)
    requires s.terminal.Some?
  {
    (s.(terminalTicks := s.terminalTicks + 1),
     Result(Blocked, if s.terminalTicks < cfg.terminalZeroTicks then STOP else None, s.terminal.value, NoMode, true))
  }

  /** `_enter_terminal` */
  function EnterTerminal(cfg: Config, s: State, why: Reason): (State, Result) {
    Terminal(cfg, s.(terminal := Some(why), terminalTicks := 0))
  }

  function Quiet(s: State, kind: Kind, reason: Reason, mode: Mode): (State, Option<Result>) {
    (s, Some(Result(kind, STOP, reason, mode, false)))
  }

  function Lift(p: (State, Result)): (State, Option<Result>) {
    (p.0, Some(p.1))
  }

  predicate AtGoal(g: Goal, t: Input) {
    t.dist <= g.tol && (!g.isPath || (g.endIsGoal && t.pathRem <= g.tol + 0.3))
  }

  /** A turn rate raised to the minimum, the same way. */
  function AtLeast(omega: real, minOmega: real): real {
    if minOmega > 0.0 && 0.0 < AbsReal(omega) < minOmega then (if omega > 0.0 then minOmega else -minOmega) else omega
  }

  /** Arrival, with the optional final turn. */
  function Arrive(cfg: Config, g: Goal, s: State, t: Input): (State, Option<Result>) {
    if g.finalHeading.None? || s.finalAligned then Quiet(s, Arrived, NoReason, NoMode)
    else if DeadlineHit(cfg, g, s, t.now) then Lift(EnterTerminal(cfg, s, Deadline))
    else if BudgetHit(cfg, s, t.now) then Lift(EnterTerminal(cfg, s, RotateTimeout))
    else
      var (omega, aligned) := RotateToHeading(t.headingErr, GoalParams(cfg.params, g.vCap, g.omegaCap));
      if aligned then Quiet(s.(finalAligned := true), Arrived, NoReason, NoMode)
      else
        (s, Some(Result(Driving, Some((0.0, AtLeast(omega, cfg.minRotateOmega))), NoReason, Rotate, false)))
  }

  function Ttl(cfg: Config, g: Goal): real {
    if g.ttl.Some? && g.ttl.value != 0.0 then g.ttl.value else cfg.defaultTtl
  }

  /** Path mode's staleness and horizon checks. */
  function Staleness(cfg: Config, g: Goal, s: State, t: Input): (State, Option<Result>) {
    var age := t.now - s.pathRxAt;
    if age > cfg.staleFactor * Ttl(cfg, g) then Quiet(s.(stale := true, progAt := t.now), Blocked, PathStale, NoMode)
    else
      var atHorizon := !g.endIsGoal && t.pathRem <= cfg.endHold;
      var s1 := s.(stale := false, starved := age > Ttl(cfg, g) || atHorizon);
      if atHorizon then Quiet(s1.(progAt := t.now, lastTranslateAt := t.now), Driving, NoReason, Starved)
      else (s1, None)
  }

  /** Everything decided before planning. */
  function Early(cfg: Config, g: Goal, s: State, t: Input): (State, Option<Result>) {
    if s.terminal.Some? then Lift(Terminal(cfg, s))
    else if AtGoal(g, t) then Arrive(cfg, g, s, t)
    else if DeadlineHit(cfg, g, s, t.now) then Lift(EnterTerminal(cfg, s, Deadline))
    else
      var (s1, r) := if g.isPath then Staleness(cfg, g, s, t) else (s, None);
      if r.Some? then (s1, r)
      else if !t.scan then Quiet(s1.(progAt := t.now), Blocked, NoScan, NoMode)
      else (s1, None)
  }

  /** What the plan decides on its own. */
  function Planned(g: Goal, s: State, t: Input): (State, Option<Result>) {
    match t.plan
    case NoPlan => Quiet(s.(progAt := t.now), Blocked, PlanFailed, PlanMode)
    case AtBestCell => Quiet(s.(progAt := t.now), Arrived, NoReason, NoMode)
    case OffPath => Quiet(s.(progAt := t.now), Blocked, PathBlocked, PlanMode)
    case Chosen(rejoin, _, partialReached) =>
      if g.isPath then (s.(prevRejoin := Some(rejoin)), None)
      else if partialReached then Quiet(s, Arrived, NoReason, NoMode)
      else (s, None)
  }

  /** The same arc at another speed. */
  function SlowArc(omega: real, to: real, from: real): real
    requires from != 0.0
  {
    omega * (to / from)
  }

  /** The steering command before the vetoes, and the rotate-in-place state it leaves. */
  function Steered(cfg: Config, g: Goal, s: State, t: Input): (State, real, real) {
    var p := GoalParams(cfg.params, g.vCap, g.omegaCap);
    var (v, omega, next) := Steer(t.lookDist, t.lookBearing, p, s.rotating);
    var slow := g.isPath && s.starved && v > p.vMin && v != 0.0;
    var v1 := if slow then p.vMin else v;
    var w1 := if slow then SlowArc(omega, p.vMin, v) else omega;
    if next then
      var (w, d) := LatchedRotate(t.lookBearing, if s.rotating then s.rotDir else 0, p, cfg.flipBand, cfg.minRotateOmega);
      (s.(rotating := true, rotDir := d), v1, w)
    else (s.(rotating := false, rotDir := 0), v1, w1)
  }

  /** The steering command and, if configured, its retries. */
  function Tried(cfg: Config, g: Goal, t: Input, v: real, omega: real): seq<(real, real)> {
    if cfg.slowRetry then Candidates(v, omega, t.k1, t.k2, GoalParams(cfg.params, g.vCap, g.omegaCap)) else [(v, omega)]
  }

  /** The command the swept veto lets through; None when it blocks them all. */
  function Swept(cfg: Config, g: Goal, t: Input, v: real, omega: real): Option<(real, real)> {
    if v > 0.001 then Pick(Tried(cfg, g, t, v, omega), t.sweptVeto) else Some((v, omega))
  }

  /** A swept block: re-aim within the budget, or block. */
  function Reaim(cfg: Config, g: Goal, s: State, t: Input, dt: real): (State, Result) {
    var s1 := s.(progAt := t.now);
    match SweptResponse(t.lookBearing, s.realignTime, cfg.realignThresh, cfg.realignTimeout, GoalParams(cfg.params, g.vCap, g.omegaCap))
    case None => (s1, Result(Blocked, STOP, SweptBlock, Follow, false))
    case Some(w) =>
      if BudgetHit(cfg, s, t.now) then EnterTerminal(cfg, s1, RotateTimeout)
      else (s1.(realignTime := s.realignTime + dt, rotating := false, rotDir := 0), Result(Driving, Some((0.0, w)), NoReason, Realign, false))
  }

  /** Turning in place toward the path. */
  function Turn(cfg: Config, s: State, t: Input, omega: real): (State, Result) {
    if BudgetHit(cfg, s, t.now) then EnterTerminal(cfg, s, RotateTimeout)
    else (s.(progBest := Some(t.remaining), progAt := t.now), Result(Driving, Some((0.0, omega)), NoReason, Rotate, false))
  }

  predicate AdoptedNew(g: Goal, s0: State, t: Input) {
    t.plan.Chosen? && if g.isPath then s0.prevRejoin != Some(t.plan.rejoin) else t.plan.adoptedNew
  }

  /** Driving on, under the no-progress watchdog. */
  function Drive(cfg: Config, g: Goal, s: State, t: Input, adoptedNew: bool, v: real, omega: real): (State, Result) {
    var better := s.progBest.None? || t.remaining < s.progBest.value - cfg.noProgressEps;
    if !better && !(adoptedNew || s.pathRefreshed) && t.now - s.progAt > cfg.noProgressTimeout
    then (s, Result(Blocked, STOP, NoProgress, NoMode, false))
    else
      var s1 := if better then s.(progBest := Some(t.remaining), progAt := t.now)
                else if adoptedNew || s.pathRefreshed then s.(progBest := Some(t.remaining)) else s;
      var mode := if !g.isPath then Follow else if s.starved then Starved else if t.plan.Chosen? && t.plan.rejoin then Rejoin else Follow;
      (s1.(pathRefreshed := false), Result(Driving, Some((v, omega)), NoReason, mode, false))
  }

  /** Everything decided after planning; `adoptedNew` and `dt` come from before. */
  function Late(cfg: Config, g: Goal, s: State, t: Input, adoptedNew: bool, dt: real): (State, Result) {
    var (s1, v, omega) := Steered(cfg, g, s, t);
    match Swept(cfg, g, t, v, omega)
    case None => Reaim(cfg, g, s1, t, dt)
    case Some(c) =>
      if t.depthVeto(c.0, c.1) && cfg.depthAct then (s1.(progAt := t.now), Result(Blocked, STOP, DepthBlock, Follow, false))
      else if t.gateHolds then
        (s1.(progAt := t.now, lastTranslateAt := t.now), Result(Driving, STOP, NoReason, Held, false))
      else if c.0 <= 0.001 then Turn(cfg, s1, t, c.1)
      else Drive(cfg, g, s1, t, adoptedNew, c.0, c.1)
  }

  /** One control tick. */
  function Step(cfg: Config, g: Goal, s: State, t: Input): (State, Result) {
    var (s1, early) := Early(cfg, g, Clock(cfg, s, t), t);
    if early.Some? then (s1, early.value)
    else
      var (s2, planned) := Planned(g, s1, t);
      if planned.Some? then (s2, planned.value)
      else Late(cfg, g, s2, t, AdoptedNew(g, s1, t), Dt(s, t.now))
  }

  /** A newer copy of the path has come in. */
  function Refreshed(s: State, now: real): State {
    s.(pathRxAt := now, pathRefreshed := true)
  }

  /** A new route resets progress and clears a terminal block. */
  function Rerouted(s: State, now: real): State {
    s.(progBest := None, progAt := now, terminal := None, terminalTicks := 0, realignTime := 0.0, lastTranslateAt := now)
  }

  /** `update_path` */
  function UpdatePath(prev: Goal, g: Goal, s: State, now: real): State {
    if g.routeId != prev.routeId then Rerouted(Refreshed(s, now), now) else Refreshed(s, now)
  }

  /** A newer copy of the path restarts its age; a new route restarts progress, budgets and re-aiming too, and lifts a block. */
  lemma UpdateIs(prev: Goal, g: Goal, s: State, now: real)
    ensures var s' := UpdatePath(prev, g, s, now);
      && s'.pathRxAt == now && s'.pathRefreshed
      && s' == (if g.routeId == prev.routeId then s else s.(progBest := None, progAt := now, terminal := None, terminalTicks := 0,
                                                            realignTime := 0.0, lastTranslateAt := now))
                 .(pathRxAt := now, pathRefreshed := true)
  {
  }

  // ── runs of one goal ──

  function Run(cfg: Config, g: Goal, s0: State, ticks: seq<Input>): State {
    if ticks == [] then s0 else Step(cfg, g, Run(cfg, g, s0, ticks[..|ticks| - 1]), ticks[|ticks| - 1]).0
  }

  /** What tick `n` publishes. */
  function ResultAt(cfg: Config, g: Goal, s0: State, ticks: seq<Input>, n: nat): Result
    requires n < |ticks|
  {
    Step(cfg, g, Run(cfg, g, s0, ticks[..n]), ticks[n]).1
  }

  lemma RunStep(cfg: Config, g: Goal, s0: State, ticks: seq<Input>, n: nat)
    requires n < |ticks|
    ensures Run(cfg, g, s0, ticks[..n + 1]) == Step(cfg, g, Run(cfg, g, s0, ticks[..n]), ticks[n]).0
  {
    assert ticks[..n + 1][..n] == ticks[..n];
  }

  /** A point goal with no breakpoint holding it. */
  predicate PointGoal(g: Goal, t: Input) {
    !g.isPath && !t.gateHolds
  }

  // ── one tick of a point goal ──

  /** A command that turns the robot without driving it. */
  predicate InPlace(r: Result) {
    r.cmd.Some? && r.cmd.value.0 == 0.0 && r.cmd.value.1 != 0.0
  }

  predicate Moves(r: Result) {
    r.cmd.Some? && r.cmd.value != (0.0, 0.0)
  }

  lemma ArriveFacts(cfg: Config, g: Goal, s: State, t: Input)
    ensures var (s', r) := Arrive(cfg, g, s, t);
            && s'.lastTranslateAt == s.lastTranslateAt && s'.startedAt == s.startedAt && s'.realignTime == s.realignTime
            && s'.anchorX == s.anchorX && s'.anchorY == s.anchorY && r.Some? && r.value.mode != Realign
            && (Moves(r.value) ==> !DeadlineHit(cfg, g, s, t.now) && !BudgetHit(cfg, s, t.now))
  {
    hide RotateToHeading, GoalParams;
  }

  lemma EarlyFacts(cfg: Config, g: Goal, s: State, t: Input)
    requires PointGoal(g, t)
    ensures var (s', r) := Early(cfg, g, s, t);
            && s'.lastTranslateAt == s.lastTranslateAt && s'.startedAt == s.startedAt && s'.realignTime == s.realignTime
            && s'.anchorX == s.anchorX && s'.anchorY == s.anchorY
            && (r.None? ==> !DeadlineHit(cfg, g, s, t.now) && s'.terminal.None?)
            && (r.Some? ==> r.value.mode != Realign)
            && (r.Some? && Moves(r.value) ==> !DeadlineHit(cfg, g, s, t.now) && !BudgetHit(cfg, s, t.now))
  {
    ArriveFacts(cfg, g, s, t);
    hide Arrive, Staleness;
  }

  lemma PlannedFacts(g: Goal, s: State, t: Input)
    ensures var (s', r) := Planned(g, s, t);
            && s'.lastTranslateAt == s.lastTranslateAt && s'.startedAt == s.startedAt && s'.realignTime == s.realignTime
            && s'.anchorX == s.anchorX && s'.anchorY == s.anchorY && s'.terminal == s.terminal
            && (r.Some? ==> !Moves(r.value) && r.value.mode != Realign)
  {
  }

  lemma SteeredFacts(cfg: Config, g: Goal, s: State, t: Input)
    ensures var s' := Steered(cfg, g, s, t).0;
            && s'.lastTranslateAt == s.lastTranslateAt && s'.startedAt == s.startedAt && s'.realignTime == s.realignTime
            && s'.anchorX == s.anchorX && s'.anchorY == s.anchorY && s'.terminal == s.terminal
  {
    hide Steer, LatchedRotate, GoalParams;
  }

  lemma ReaimFacts(cfg: Config, g: Goal, s: State, t: Input, dt: real)
    ensures var (s', r) := Reaim(cfg, g, s, t, dt);
            && s'.lastTranslateAt == s.lastTranslateAt && s'.startedAt == s.startedAt
            && s'.anchorX == s.anchorX && s'.anchorY == s.anchorY
            && (Moves(r) ==> !BudgetHit(cfg, s, t.now))
            && s'.realignTime == (if r.mode == Realign then s.realignTime + dt else s.realignTime)
            && (r.mode == Realign ==> s.realignTime <= cfg.realignTimeout)
  {
    hide Clip, GoalParams;
  }

  lemma TurnFacts(cfg: Config, s: State, t: Input, omega: real)
    ensures var (s', r) := Turn(cfg, s, t, omega);
            && s'.lastTranslateAt == s.lastTranslateAt && s'.startedAt == s.startedAt
            && s'.anchorX == s.anchorX && s'.anchorY == s.anchorY && s'.realignTime == s.realignTime
            && (Moves(r) ==> !BudgetHit(cfg, s, t.now)) && r.mode != Realign
  {
  }

  lemma DriveFacts(cfg: Config, g: Goal, s: State, t: Input, adoptedNew: bool, v: real, omega: real)
    ensures var (s', r) := Drive(cfg, g, s, t, adoptedNew, v, omega);
            && s'.lastTranslateAt == s.lastTranslateAt && s'.startedAt == s.startedAt
            && s'.anchorX == s.anchorX && s'.anchorY == s.anchorY && s'.realignTime == s.realignTime
            && (r.cmd == STOP || r.cmd == Some((v, omega))) && r.mode != Realign
  {
  }

  lemma LateFacts(cfg: Config, g: Goal, s: State, t: Input, adoptedNew: bool, dt: real)
    requires PointGoal(g, t) && s.terminal.None?
    ensures var (s', r) := Late(cfg, g, s, t, adoptedNew, dt);
            && s'.lastTranslateAt == s.lastTranslateAt && s'.startedAt == s.startedAt
            && s'.anchorX == s.anchorX && s'.anchorY == s.anchorY
            && (InPlace(r) ==> !BudgetHit(cfg, s, t.now))
            && s'.realignTime == (if r.mode == Realign then s.realignTime + dt else s.realignTime)
            && (r.mode == Realign ==> s.realignTime <= cfg.realignTimeout)
  {
    SteeredFacts(cfg, g, s, t);
    hide Steered, Swept, Reaim, Turn, Drive;
    var (s1, v, omega) := Steered(cfg, g, s, t);
    match Swept(cfg, g, t, v, omega)
    case None => ReaimFacts(cfg, g, s1, t, dt);
    case Some(c) =>
      TurnFacts(cfg, s1, t, c.1);
      DriveFacts(cfg, g, s1, t, adoptedNew, c.0, c.1);
  }

  /**
   One tick of a point goal: nothing moves past the deadline, no in-place turn
   past the rotation budget, and a re-aim only within its own.
   */
  lemma TickFacts(cfg: Config, g: Goal, s: State, t: Input)
    requires PointGoal(g, t)
    ensures var (s', r) := Step(cfg, g, s, t);
            var c := Clock(cfg, s, t);
            && s'.lastTranslateAt == c.lastTranslateAt && s'.startedAt == s.startedAt
            && s'.anchorX == c.anchorX && s'.anchorY == c.anchorY
            && (Moves(r) ==> !DeadlineHit(cfg, g, s, t.now))
            && (InPlace(r) ==> !BudgetHit(cfg, c, t.now))
            && s'.realignTime == (if r.mode == Realign then c.realignTime + Dt(s, t.now) else c.realignTime)
            && (r.mode == Realign ==> c.realignTime <= cfg.realignTimeout)
  {
    var c := Clock(cfg, s, t);
    assert c.startedAt == s.startedAt;
    hide Clock, Dt, Moved;
    EarlyFacts(cfg, g, c, t);
    var (s1, early) := Early(cfg, g, c, t);
    PlannedFacts(g, s1, t);
    var (s2, planned) := Planned(g, s1, t);
    if early.None? && planned.None? {
      LateFacts(cfg, g, s2, t, AdoptedNew(g, s1, t), Dt(s, t.now));
    }
    hide Early, Planned, Late;
  }

  // ── what the vetoes decide ──

  /** The swept veto refuses the steering command and every retry. */
  ghost predicate Refused(cfg: Config, g: Goal, t: Input, v: real, omega: real) {
    v > 0.001 && AllRefused(Tried(cfg, g, t, v, omega), t.sweptVeto)
  }

  /** The command to go on with: the first the swept veto lets through; a command that hardly drives is not asked about. */
  ghost predicate Taken(cfg: Config, g: Goal, t: Input, v: real, omega: real, c: (real, real)) {
    if v > 0.001 then FirstLet(Tried(cfg, g, t, v, omega), t.sweptVeto, c) else c == (v, omega)
  }

  predicate DepthStops(cfg: Config, t: Input, c: (real, real)) {
    cfg.depthAct && t.depthVeto(c.0, c.1)
  }

  /** The path has not shortened for too long, and it is still the same path. */
  predicate NoHeadway(cfg: Config, s: State, t: Input, adoptedNew: bool) {
    && s.progBest.Some? && t.remaining >= s.progBest.value - cfg.noProgressEps
    && !adoptedNew && !s.pathRefreshed && t.now - s.progAt > cfg.noProgressTimeout
  }

  /** The rotation budget is on, and more than it has passed since the robot last translated. */
  ghost predicate TurnedTooLong(cfg: Config, s: State, t: Input) {
    cfg.rotateTimeout > 0.0 && t.now > s.lastTranslateAt + cfg.rotateTimeout
  }

  predicate Stands(r: Result) {
    r.cmd.None? || r.cmd == STOP
  }

  /** What is published when every command is refused: a turn toward the path while that is worth it, or a stop. */
  ghost predicate PublishesRefusal(cfg: Config, s: State, t: Input, r: Result) {
    && (r.cmd.Some? ==> r.cmd.value.0 == 0.0)
    && (r.reason == SweptBlock <==> !(AbsReal(t.lookBearing) > cfg.realignThresh && s.realignTime <= cfg.realignTimeout))
    && (r.reason == SweptBlock ==> r.kind == Blocked && r.cmd == STOP && !r.terminal)
    && (r.reason != SweptBlock ==> if TurnedTooLong(cfg, s, t) then r.reason == RotateTimeout && r.kind == Blocked && r.terminal
                               else r.mode == Realign && r.kind == Driving && r.reason == NoReason)
  }

  /** What is published with a command to go on with. */
  ghost predicate Publishes(cfg: Config, s: State, t: Input, adoptedNew: bool, c: (real, real), r: Result) {
    if DepthStops(cfg, t, c) then r.reason == DepthBlock && r.kind == Blocked && r.cmd == STOP
    else if t.gateHolds then r.mode == Held && r.kind == Driving && r.reason == NoReason && r.cmd == STOP
    else if c.0 <= 0.001 then
      if TurnedTooLong(cfg, s, t) then r.reason == RotateTimeout && r.kind == Blocked && r.terminal && Stands(r)
      else r.mode == Rotate && r.kind == Driving && r.reason == NoReason && r.cmd == Some((0.0, c.1))
    else if NoHeadway(cfg, s, t, adoptedNew) then r.reason == NoProgress && r.kind == Blocked && r.cmd == STOP
    else r.kind == Driving && r.reason == NoReason && r.cmd == Some(c) && r.mode in {Follow, Starved, Rejoin}
  }

  /** Retries are offered exactly when they are configured. */
  lemma TriedAre(cfg: Config, g: Goal, t: Input, v: real, omega: real)
    ensures !cfg.slowRetry ==> Tried(cfg, g, t, v, omega) == [(v, omega)]
    ensures cfg.slowRetry ==> Tried(cfg, g, t, v, omega) == Candidates(v, omega, t.k1, t.k2, GoalParams(cfg.params, g.vCap, g.omegaCap))
  {
  }

  lemma SweptIsFirst(cfg: Config, g: Goal, t: Input, v: real, omega: real)
    ensures var c := Swept(cfg, g, t, v, omega);
      (c.None? <==> Refused(cfg, g, t, v, omega)) && (c.Some? ==> Taken(cfg, g, t, v, omega, c.value))
  {
    PickIsFirst(Tried(cfg, g, t, v, omega), t.sweptVeto);
    hide Tried, Pick, FirstLet, AllRefused;
  }

  lemma ReaimPublishes(cfg: Config, g: Goal, s: State, t: Input, dt: real)
    ensures PublishesRefusal(cfg, s, t, Reaim(cfg, g, s, t, dt).1)
  {
    hide GoalParams, Clip;
  }

  lemma GoesOn(cfg: Config, g: Goal, s: State, t: Input, adoptedNew: bool, dt: real, c: (real, real))
    requires var (s1, v, omega) := Steered(cfg, g, s, t); Swept(cfg, g, t, v, omega) == Some(c)
    ensures var (s1, v, omega) := Steered(cfg, g, s, t);
      Publishes(cfg, s1, t, adoptedNew, c, Late(cfg, g, s, t, adoptedNew, dt).1)
  {
    hide Steered, Swept, Moved;
  }

  /**
   Once there is a path to follow: the tick blocks or re-aims for the swept veto
   exactly if that refuses the steering command and every retry, and otherwise goes
   on with the first one let through.
   */
  lemma LateMeans(cfg: Config, g: Goal, s: State, t: Input, adoptedNew: bool, dt: real)
    ensures var (s1, v, omega) := Steered(cfg, g, s, t);
      var r := Late(cfg, g, s, t, adoptedNew, dt).1;
      if Refused(cfg, g, t, v, omega) then PublishesRefusal(cfg, s1, t, r)
      else exists c :: Taken(cfg, g, t, v, omega, c) && Publishes(cfg, s1, t, adoptedNew, c, r)
  {
    var (s1, v, omega) := Steered(cfg, g, s, t);
    SweptIsFirst(cfg, g, t, v, omega);
    match Swept(cfg, g, t, v, omega)
    case None => ReaimPublishes(cfg, g, s1, t, dt);
    case Some(c) => GoesOn(cfg, g, s, t, adoptedNew, dt, c);
    hide Steered, Swept, Refused, Taken, Publishes, PublishesRefusal, Drive, Turn, Reaim;
  }

  /** The state a tick steers from, if it gets that far. */
  function Ahead(cfg: Config, g: Goal, s: State, t: Input): Option<State> {
    var (s1, early) := Early(cfg, g, Clock(cfg, s, t), t);
    if early.Some? then None
    else
      var (s2, planned) := Planned(g, s1, t);
      if planned.Some? then None else Some(s2)
  }

  lemma AheadIsLate(cfg: Config, g: Goal, s: State, t: Input)
    requires Ahead(cfg, g, s, t).Some?
    ensures var s1 := Early(cfg, g, Clock(cfg, s, t), t).0;
      Step(cfg, g, s, t) == Late(cfg, g, Ahead(cfg, g, s, t).value, t, AdoptedNew(g, s1, t), Dt(s, t.now))
  {
    hide Early, Planned, Clock, Late;
  }

  /** What is decided before steering drives nowhere and is not the swept veto's doing. */
  predicate NotSteered(r: Result) {
    (r.cmd.Some? ==> r.cmd.value.0 == 0.0) && r.mode != Realign && (r.reason == SweptBlock ==> r.terminal)
  }

  lemma ArriveNotSteered(cfg: Config, g: Goal, s: State, t: Input)
    ensures var r := Arrive(cfg, g, s, t).1; r.Some? && NotSteered(r.value)
  {
    hide RotateToHeading, GoalParams;
  }

  lemma StagesNotSteered(cfg: Config, g: Goal, s: State, t: Input)
    ensures var r := Early(cfg, g, s, t).1; r.Some? ==> NotSteered(r.value)
    ensures var r := Planned(g, s, t).1; r.Some? ==> NotSteered(r.value)
  {
    ArriveNotSteered(cfg, g, s, t);
    hide Arrive, Ttl, DeadlineHit, AtGoal;
  }

  lemma EarlyNotSteered(cfg: Config, g: Goal, s: State, t: Input)
    ensures Ahead(cfg, g, s, t).None? ==> NotSteered(Step(cfg, g, s, t).1)
  {
    var c := Clock(cfg, s, t);
    StagesNotSteered(cfg, g, c, t);
    StagesNotSteered(cfg, g, Early(cfg, g, c, t).0, t);
    hide Clock, Early, Planned, Late, NotSteered;
  }

  /**
   Every tick, whatever the state: the swept veto blocks it or makes it re-aim
   exactly if it refuses the steering command and every retry; otherwise the tick
   goes on with the first one let through.
   */
  lemma VetoesDecide(cfg: Config, g: Goal, s: State, t: Input)
    ensures var r := Step(cfg, g, s, t).1;
      match Ahead(cfg, g, s, t)
      case None => NotSteered(r)
      case Some(s2) =>
        var (s3, v, omega) := Steered(cfg, g, s2, t);
        if Refused(cfg, g, t, v, omega) then PublishesRefusal(cfg, s3, t, r)
        else exists c ::
               Taken(cfg, g, t, v, omega, c) && Publishes(cfg, s3, t, AdoptedNew(g, Early(cfg, g, Clock(cfg, s, t), t).0, t), c, r)
  {
    match Ahead(cfg, g, s, t)
    case None => EarlyNotSteered(cfg, g, s, t);
    case Some(s2) =>
      AheadIsLate(cfg, g, s, t);
      LateMeans(cfg, g, s2, t, AdoptedNew(g, Early(cfg, g, Clock(cfg, s, t), t).0, t), Dt(s, t.now));
      hide Ahead, Early, Clock, Step, Late, Steered, Refused, Taken, Publishes, PublishesRefusal;
  }

  lemma TakenIsLet(cfg: Config, g: Goal, t: Input, v: real, omega: real, c: (real, real))
    requires Taken(cfg, g, t, v, omega, c) && c.0 > 0.001
    ensures !t.sweptVeto(c.0, c.1)
  {
  }

  lemma SlowArcIs(omega: real, to: real, from: real)
    requires from != 0.0
    ensures SlowArc(omega, to, from) * from == omega * to
  {
    assert (to / from) * from == to;
    assert (omega * (to / from)) * from == omega * ((to / from) * from);
  }

  lemma ReaimTurns(cfg: Config, g: Goal, s: State, t: Input, dt: real)
    requires Sane(cfg.params)
    ensures var r := Reaim(cfg, g, s, t, dt).1;
      r.mode == Realign ==>
        r.cmd.Some? && r.cmd.value.0 == 0.0 && TurnsTo(r.cmd.value.1, t.lookBearing, GoalParams(cfg.params, g.vCap, g.omegaCap))
  {
    CapsOnlySlow(cfg.params, g.vCap, g.omegaCap);
    hide GoalParams, SweptResponse, TurnsTo, BudgetHit;
    ResponseTurns(t.lookBearing, s.realignTime, cfg.realignThresh, cfg.realignTimeout, GoalParams(cfg.params, g.vCap, g.omegaCap));
  }

  lemma LateRealigns(cfg: Config, g: Goal, s: State, t: Input, adoptedNew: bool, dt: real)
    requires Sane(cfg.params)
    ensures var r := Late(cfg, g, s, t, adoptedNew, dt).1;
      r.mode == Realign ==>
        r.cmd.Some? && r.cmd.value.0 == 0.0 && TurnsTo(r.cmd.value.1, t.lookBearing, GoalParams(cfg.params, g.vCap, g.omegaCap))
  {
    var (s1, v, omega) := Steered(cfg, g, s, t);
    hide Steered, Swept, Reaim, Turn, Drive, GoalParams, TurnsTo;
    match Swept(cfg, g, t, v, omega)
    case None => ReaimTurns(cfg, g, s1, t, dt);
    case Some(c) =>
      TurnFacts(cfg, s1, t, c.1);
      DriveFacts(cfg, g, s1, t, adoptedNew, c.0, c.1);
  }

  /** A tick that re-aims turns in place towards the lookahead. */
  lemma RealignTurns(cfg: Config, g: Goal, s: State, t: Input)
    requires Sane(cfg.params)
    ensures var r := Step(cfg, g, s, t).1;
      r.mode == Realign ==>
        r.cmd.Some? && r.cmd.value.0 == 0.0 && TurnsTo(r.cmd.value.1, t.lookBearing, GoalParams(cfg.params, g.vCap, g.omegaCap))
  {
    match Ahead(cfg, g, s, t)
    case None => EarlyNotSteered(cfg, g, s, t);
    case Some(s2) =>
      AheadIsLate(cfg, g, s, t);
      LateRealigns(cfg, g, s2, t, AdoptedNew(g, Early(cfg, g, Clock(cfg, s, t), t).0, t), Dt(s, t.now));
      hide Ahead, Early, Clock, Step, Late, TurnsTo, GoalParams;
  }

  /**
   The command a tick steers by. Above the turning threshold it turns in place, by
   the latched turn, which starts unlatched; otherwise it turns towards the
   lookahead at the cruise speed, or starved of a fresh path along the same arc at
   the minimum speed, and latches nothing.
   */
  lemma SteeredIs(cfg: Config, g: Goal, s: State, t: Input)
    requires Sane(cfg.params)
    ensures var p := GoalParams(cfg.params, g.vCap, g.omegaCap);
      var (s', v, omega) := Steered(cfg, g, s, t);
      var (v0, omega0, _) := Steer(t.lookDist, t.lookBearing, p, s.rotating);
      && (s'.rotating <==> AbsReal(t.lookBearing) > (if s.rotating then p.rotateExit else p.rotateEnter))
      && (s'.rotating ==> v == 0.0)
      && (s'.rotating ==>
            (omega, s'.rotDir) == LatchedRotate(t.lookBearing, if s.rotating then s.rotDir else 0, p, cfg.flipBand, cfg.minRotateOmega))
      && (!s'.rotating ==> s'.rotDir == 0 && TurnsTo(omega0, t.lookBearing, p))
      && (!s'.rotating && !(g.isPath && s.starved && v0 > p.vMin) ==> v == v0 && omega == omega0)
      && (!s'.rotating && g.isPath && s.starved && v0 > p.vMin ==> v == p.vMin && omega * v0 == omega0 * v)
  {
    CapsOnlySlow(cfg.params, g.vCap, g.omegaCap);
    var p := GoalParams(cfg.params, g.vCap, g.omegaCap);
    SteersTo(t.lookDist, t.lookBearing, p, s.rotating);
    SteerBounds(t.lookDist, t.lookBearing, p, s.rotating);
    var (v0, omega0, next) := Steer(t.lookDist, t.lookBearing, p, s.rotating);
    if v0 > 0.0 { SlowArcIs(omega0, p.vMin, v0); }
    hide Steer, LatchedRotate, GoalParams, SlowArc, TurnsTo;
  }

  /** No tick publishes a forward command that a veto in force refuses. */
  lemma VetoesObeyed(cfg: Config, g: Goal, s: State, t: Input)
    ensures var r := Step(cfg, g, s, t).1;
      r.cmd.Some? && r.cmd.value.0 > 0.0 ==>
        !t.sweptVeto(r.cmd.value.0, r.cmd.value.1) && !(cfg.depthAct && t.depthVeto(r.cmd.value.0, r.cmd.value.1)) && !t.gateHolds
  {
    VetoesDecide(cfg, g, s, t);
    hide Ahead, Early, Clock, Step, Steered, Refused, Taken;
    match Ahead(cfg, g, s, t)
    case None =>
    case Some(s2) =>
      var (s3, v, omega) := Steered(cfg, g, s2, t);
      if !Refused(cfg, g, t, v, omega) {
        var s1, r := Early(cfg, g, Clock(cfg, s, t), t).0, Step(cfg, g, s, t).1;
        var c :| Taken(cfg, g, t, v, omega, c) && Publishes(cfg, s3, t, AdoptedNew(g, s1, t), c, r);
        if c.0 > 0.001 { TakenIsLet(cfg, g, t, v, omega, c); }
      }
  }

  // ── what is decided before steering ──

  /** The deadline is on, and the goal is a point that was started longer ago. */
  ghost predicate Overdue(cfg: Config, g: Goal, s: State, t: Input) {
    !g.isPath && cfg.deadline > 0.0 && t.now > s.startedAt + cfg.deadline
  }

  /** At the goal; a path must also end there, and be all but driven. */
  ghost predicate Reached(g: Goal, t: Input) {
    t.dist <= g.tol && (g.isPath ==> g.endIsGoal && t.pathRem <= g.tol + 0.3)
  }

  /** Nothing is left to do at the goal: no heading to turn to, or turned to it. */
  ghost predicate Settled(cfg: Config, g: Goal, s: State, t: Input) {
    g.finalHeading.None? || s.finalAligned
    || (!Overdue(cfg, g, s, t) && !TurnedTooLong(cfg, s, t) && AbsReal(t.headingErr) <= cfg.params.headingTol)
  }

  /** How long a path stays good: its own time, or the default when it brings none. */
  ghost function Lifetime(cfg: Config, g: Goal): real {
    if g.ttl == None || g.ttl == Some(0.0) then cfg.defaultTtl else g.ttl.value
  }

  ghost predicate Stale(cfg: Config, g: Goal, s: State, t: Input) {
    g.isPath && t.now - s.pathRxAt > cfg.staleFactor * Lifetime(cfg, g)
  }

  /** At the end of a path that goes on beyond what has been sent. */
  ghost predicate AtHorizon(cfg: Config, g: Goal, t: Input) {
    g.isPath && !g.endIsGoal && t.pathRem <= cfg.endHold
  }

  /** The tick gets as far as planning. */
  ghost predicate Plans(cfg: Config, g: Goal, s: State, t: Input) {
    !Reached(g, t) && !Overdue(cfg, g, s, t) && !Stale(cfg, g, s, t) && !AtHorizon(cfg, g, t) && t.scan
  }

  /** Each early answer, and its exact cause; `s` is the state after the clock. */
  ghost predicate Causes(cfg: Config, g: Goal, s: State, t: Input, r: Result, steers: bool) {
    && (r.kind == Arrived <==>
          (Reached(g, t) && Settled(cfg, g, s, t))
          || (Plans(cfg, g, s, t) && (t.plan == AtBestCell || (!g.isPath && t.plan.Chosen? && t.plan.partialReached))))
    && (r.reason == Deadline <==> Overdue(cfg, g, s, t) && !(Reached(g, t) && (g.finalHeading.None? || s.finalAligned)))
    && (r.reason == PathStale <==> !Reached(g, t) && Stale(cfg, g, s, t))
    && (r.reason == NoScan <==>
          !Reached(g, t) && !Overdue(cfg, g, s, t) && !Stale(cfg, g, s, t) && !AtHorizon(cfg, g, t) && !t.scan)
    && (r.reason == PlanFailed <==> Plans(cfg, g, s, t) && t.plan == NoPlan)
    && (r.reason == PathBlocked <==> Plans(cfg, g, s, t) && t.plan == OffPath)
    && (steers <==> Plans(cfg, g, s, t) && t.plan.Chosen? && (g.isPath || !t.plan.partialReached))
  }

  lemma GoalParamsKeep(base: Params, vCap: Option<real>, omegaCap: Option<real>)
    ensures GoalParams(base, vCap, omegaCap).headingTol == base.headingTol
  {
  }

  lemma ArriveCauses(cfg: Config, g: Goal, s: State, t: Input)
    ensures var r := Arrive(cfg, g, s, t).1;
      && r.Some? && (r.value.kind == Arrived <==> Settled(cfg, g, s, t))
      && (r.value.reason == Deadline <==> Overdue(cfg, g, s, t) && g.finalHeading.Some? && !s.finalAligned)
      && r.value.reason in {NoReason, Deadline, RotateTimeout}
  {
    hide GoalParams;
    assert GoalParams(cfg.params, g.vCap, g.omegaCap).headingTol == cfg.params.headingTol by { GoalParamsKeep(cfg.params, g.vCap, g.omegaCap); }
  }

  lemma EarlyCauses(cfg: Config, g: Goal, s: State, t: Input)
    requires s.terminal.None?
    ensures var (s1, r) := Early(cfg, g, s, t);
      && (r.None? <==> Plans(cfg, g, s, t))
      && (r.Some? ==> Causes(cfg, g, s, t, r.value, false))
  {
    ArriveCauses(cfg, g, s, t);
    hide Arrive, RotateToHeading, Settled, TurnedTooLong;
  }

  lemma LateReasons(cfg: Config, g: Goal, s: State, t: Input, adoptedNew: bool, dt: real)
    ensures var r := Late(cfg, g, s, t, adoptedNew, dt).1;
      r.kind != Arrived && r.reason in {NoReason, RotateTimeout, DepthBlock, SweptBlock, NoProgress}
  {
    LateMeans(cfg, g, s, t, adoptedNew, dt);
    hide Late, Steered, Refused, Taken, TurnedTooLong;
  }

  /**
   Every tick outside a terminal block: arrival, and each reason to block before
   there is anything to steer by, is reported exactly when its cause holds; and the
   tick goes on to steer exactly when none of them does.
   */
  lemma CausesAre(cfg: Config, g: Goal, s: State, t: Input)
    requires s.terminal.None?
    ensures Causes(cfg, g, Clock(cfg, s, t), t, Step(cfg, g, s, t).1, Ahead(cfg, g, s, t).Some?)
  {
    var c := Clock(cfg, s, t);
    assert c.terminal.None? && c.startedAt == s.startedAt by { hide Moved; }
    EarlyCauses(cfg, g, c, t);
    var (s1, early) := Early(cfg, g, c, t);
    if early.None? {
      var (s2, planned) := Planned(g, s1, t);
      if planned.None? {
        LateReasons(cfg, g, s2, t, AdoptedNew(g, s1, t), Dt(s, t.now));
      }
    }
    hide Clock, Early, Late, Reached, Overdue, Stale, AtHorizon, Settled, AdoptedNew, Dt;
  }

  // ── what a tick remembers ──

  lemma AtLeastIs(omega: real, minOmega: real)
    requires minOmega >= 0.0
    ensures var w := AtLeast(omega, minOmega);
      (w > 0.0 <==> omega > 0.0) && (w < 0.0 <==> omega < 0.0) && (omega != 0.0 ==> AbsReal(w) == MaxReal(AbsReal(omega), minOmega))
  {
  }

  predicate SaneConfig(cfg: Config) {
    Sane(cfg.params) && 0.0 <= cfg.minRotateOmega <= cfg.params.omegaMax
  }

  /** The final turn: towards the heading, at no less than the minimum rate. */
  lemma FinalTurn(cfg: Config, g: Goal, s: State, t: Input)
    requires SaneConfig(cfg) && cfg.params.headingTol >= 0.0
    ensures var (s', r) := Arrive(cfg, g, s, t);
      r.Some? && r.value.kind == Driving ==>
        exists omega ::
          && TurnsTo(omega, t.headingErr, GoalParams(cfg.params, g.vCap, g.omegaCap))
          && r.value == Result(Driving, Some((0.0, AtLeast(omega, cfg.minRotateOmega))), NoReason, Rotate, false)
  {
    CapsOnlySlow(cfg.params, g.vCap, g.omegaCap);
    GoalParamsKeep(cfg.params, g.vCap, g.omegaCap);
    RotatesTo(t.headingErr, GoalParams(cfg.params, g.vCap, g.omegaCap));
    hide GoalParams, RotateToHeading, DeadlineHit, BudgetHit, TurnsTo, AtLeast;
  }

  /** A goal state just gone terminal. */
  function Gone(s: State, why: Reason): State {
    s.(terminal := Some(why), terminalTicks := 1)
  }

  /** The path's freshness, as a tick that finds it not stale notes it. */
  ghost function Noted(cfg: Config, g: Goal, s: State, t: Input): State {
    if g.isPath then s.(stale := false, starved := t.now - s.pathRxAt > Lifetime(cfg, g) || AtHorizon(cfg, g, t)) else s
  }

  /** What an early answer leaves in the state, by the answer; with none, the path's freshness alone. */
  ghost predicate EarlyLeft(cfg: Config, g: Goal, s: State, t: Input, s': State, r: Option<Result>) {
    if r.None? then s' == Noted(cfg, g, s, t)
    else if r.value.reason == Deadline || r.value.reason == RotateTimeout then s' == Gone(s, r.value.reason)
    else if Reached(g, t) then s' == s.(finalAligned := s.finalAligned || (g.finalHeading.Some? && r.value.kind == Arrived))
    else if r.value.reason == PathStale then s' == s.(stale := true, progAt := t.now)
    else if r.value.reason == NoScan then s' == Noted(cfg, g, s, t).(progAt := t.now)
    else s' == Noted(cfg, g, s, t).(progAt := t.now, lastTranslateAt := t.now) && r.value == Result(Driving, STOP, NoReason, Starved, false)
  }

  lemma ArriveLeaves(cfg: Config, g: Goal, s: State, t: Input)
    requires Reached(g, t)
    ensures var (s', r) := Arrive(cfg, g, s, t);
      EarlyLeft(cfg, g, s, t, s', r) && r.Some? && (r.value.kind == Arrived ==> r.value == Result(Arrived, STOP, NoReason, NoMode, false))
      && (r.value.kind == Blocked ==> r.value.terminal)
  {
    hide RotateToHeading, GoalParams, DeadlineHit, BudgetHit, Noted;
  }

  lemma StalenessLeaves(cfg: Config, g: Goal, s: State, t: Input)
    requires g.isPath && !Reached(g, t)
    ensures var (s', r) := Staleness(cfg, g, s, t);
      EarlyLeft(cfg, g, s, t, s', r)
      && (r.Some? ==> r.value.reason in {PathStale, NoReason})
      && (r.Some? && r.value.reason == PathStale ==> r.value == Result(Blocked, STOP, PathStale, NoMode, false))
  {
    hide Reached;
  }

  lemma EarlyLeaves(cfg: Config, g: Goal, s: State, t: Input)
    requires s.terminal.None?
    ensures var (s', r) := Early(cfg, g, s, t);
      EarlyLeft(cfg, g, s, t, s', r)
      && (r.Some? && r.value.reason in {PathStale, NoScan} ==> r.value == Result(Blocked, STOP, r.value.reason, NoMode, false))
  {
    if Reached(g, t) {
      ArriveLeaves(cfg, g, s, t);
      hide Arrive, Staleness, EarlyLeft;
      assert AtGoal(g, t);
    } else {
      if g.isPath { StalenessLeaves(cfg, g, s, t); }
      hide Arrive, Staleness, Noted;
    }
  }

  /** What the plan leaves: a path goal notes the detour, and what the plan ends restarts the progress timer, except at a reached endpoint. */
  lemma PlannedLeaves(g: Goal, s: State, t: Input)
    ensures var (s', r) := Planned(g, s, t);
      && (t.plan.Chosen? ==> s' == if g.isPath then s.(prevRejoin := Some(t.plan.rejoin)) else s)
      && (!t.plan.Chosen? ==> s' == s.(progAt := t.now))
      && (r.Some? ==> r.value == match t.plan
            case NoPlan => Result(Blocked, STOP, PlanFailed, PlanMode, false)
            case OffPath => Result(Blocked, STOP, PathBlocked, PlanMode, false)
            case _ => Result(Arrived, STOP, NoReason, NoMode, false))
  {
  }

  /** The remaining path is shorter by the margin than it ever was, or nothing has been noted yet. */
  predicate Shortened(cfg: Config, s: State, t: Input) {
    s.progBest.None? || t.remaining < s.progBest.value - cfg.noProgressEps
  }

  /** What steering leaves, by the answer; `s` is the state with the turn as it now is. */
  ghost predicate LateLeft(cfg: Config, s: State, t: Input, adoptedNew: bool, dt: real, s': State, r: Result) {
    match r.reason
    case RotateTimeout => s' == Gone(s, RotateTimeout) || s' == Gone(s.(progAt := t.now), RotateTimeout)
    case NoProgress => s' == s
    case NoReason =>
      if r.mode == Realign then s' == s.(progAt := t.now, realignTime := s.realignTime + dt, rotating := false, rotDir := 0)
      else if r.mode == Held then s' == s.(progAt := t.now, lastTranslateAt := t.now)
      else if r.mode == Rotate then s' == s.(progBest := Some(t.remaining), progAt := t.now)
      else s' == s.(pathRefreshed := false,
                    progBest := if Shortened(cfg, s, t) || adoptedNew || s.pathRefreshed then Some(t.remaining) else s.progBest,
                    progAt := if Shortened(cfg, s, t) then t.now else s.progAt)
    case _ => s' == s.(progAt := t.now)
  }

  lemma ReaimLeaves(cfg: Config, g: Goal, s: State, t: Input, adoptedNew: bool, dt: real)
    ensures var (s', r) := Reaim(cfg, g, s, t, dt); LateLeft(cfg, s, t, adoptedNew, dt, s', r)
  {
    hide SweptResponse, GoalParams;
  }

  lemma TurnLeaves(cfg: Config, s: State, t: Input, adoptedNew: bool, dt: real, omega: real)
    ensures var (s', r) := Turn(cfg, s, t, omega); LateLeft(cfg, s, t, adoptedNew, dt, s', r)
  {
  }

  lemma DriveLeaves(cfg: Config, g: Goal, s: State, t: Input, adoptedNew: bool, dt: real, c: (real, real))
    ensures var (s', r) := Drive(cfg, g, s, t, adoptedNew, c.0, c.1); LateLeft(cfg, s, t, adoptedNew, dt, s', r)
  {
  }

  lemma LateLeaves(cfg: Config, g: Goal, s: State, t: Input, adoptedNew: bool, dt: real)
    ensures var (s', r) := Late(cfg, g, s, t, adoptedNew, dt);
      LateLeft(cfg, Steered(cfg, g, s, t).0, t, adoptedNew, dt, s', r)
  {
    var (s1, v, omega) := Steered(cfg, g, s, t);
    hide Steered, Swept, Reaim, Turn, Drive;
    match Swept(cfg, g, t, v, omega)
    case None => ReaimLeaves(cfg, g, s1, t, adoptedNew, dt);
    case Some(c) =>
      TurnLeaves(cfg, s1, t, adoptedNew, dt, c.1);
      DriveLeaves(cfg, g, s1, t, adoptedNew, dt, c);
  }

  /** The path in force is a different one than on the last tick. */
  lemma AdoptedIs(g: Goal, s: State, t: Input)
    ensures AdoptedNew(g, s, t) <==>
      t.plan.Chosen? && (if g.isPath then s.prevRejoin == None || s.prevRejoin == Some(!t.plan.rejoin) else t.plan.adoptedNew)
  {
    match s.prevRejoin
    case None =>
    case Some(was) => if t.plan.Chosen? && was != t.plan.rejoin { assert was == !t.plan.rejoin; }
  }

  /** The way a path goal's driving is labelled. */
  lemma ModeIs(cfg: Config, g: Goal, s: State, t: Input, adoptedNew: bool, v: real, omega: real)
    ensures var r := Drive(cfg, g, s, t, adoptedNew, v, omega).1;
      r.kind == Driving ==>
        && (r.mode == Starved <==> g.isPath && s.starved)
        && (r.mode == Rejoin <==> g.isPath && !s.starved && t.plan.Chosen? && t.plan.rejoin)
  {
  }

  /** Every tick notes its time, and where and when the robot translated, which alone refills the budgets. */
  lemma ClockIs(cfg: Config, s: State, t: Input)
    ensures var c := Clock(cfg, s, t);
      var dx, dy := t.x - s.anchorX, t.y - s.anchorY;
      if cfg.translateEps <= 0.0 || Square(dx) + Square(dy) >= Square(cfg.translateEps)
      then c == s.(lastTick := Some(t.now), anchorX := t.x, anchorY := t.y, lastTranslateAt := t.now, realignTime := 0.0)
      else c == s.(lastTick := Some(t.now))
  {
  }

  // ── bounded motion over every run of a point goal ──

  /** From positions and times alone: when and where the robot last really translated. */
  function LastMove(cfg: Config, s0: State, ticks: seq<Input>): (real, real, real) {
    if ticks == [] then (s0.lastTranslateAt, s0.anchorX, s0.anchorY)
    else
      var prev := LastMove(cfg, s0, ticks[..|ticks| - 1]);
      var t := ticks[|ticks| - 1];
      if Moved(cfg, s0.(anchorX := prev.1, anchorY := prev.2), t) then (t.now, t.x, t.y) else prev
  }

  /** From the published results alone: capped time spent re-aiming since the last translation. */
  function ReaimTime(cfg: Config, g: Goal, s0: State, ticks: seq<Input>): real {
    if ticks == [] then s0.realignTime
    else
      var n := |ticks| - 1;
      var prev := LastMove(cfg, s0, ticks[..n]);
      var before := if Moved(cfg, s0.(anchorX := prev.1, anchorY := prev.2), ticks[n]) then 0.0
                    else ReaimTime(cfg, g, s0, ticks[..n]);
      if ResultAt(cfg, g, s0, ticks, n).mode == Realign then before + Dt(Run(cfg, g, s0, ticks[..n]), ticks[n].now) else before
  }

  ghost predicate PointRun(g: Goal, ticks: seq<Input>) {
    forall n :: 0 <= n < |ticks| ==> PointGoal(g, ticks[n])
  }

  lemma MovedByAnchor(cfg: Config, s: State, s': State, t: Input)
    requires s.anchorX == s'.anchorX && s.anchorY == s'.anchorY
    ensures Moved(cfg, s, t) == Moved(cfg, s', t)
  {
  }

  lemma {:induction false} RunFacts(cfg: Config, g: Goal, s0: State, ticks: seq<Input>)
    requires PointRun(g, ticks)
    ensures var s := Run(cfg, g, s0, ticks);
            && (s.lastTranslateAt, s.anchorX, s.anchorY) == LastMove(cfg, s0, ticks)
            && s.startedAt == s0.startedAt && s.realignTime == ReaimTime(cfg, g, s0, ticks)
  {
    if ticks != [] {
      var n := |ticks| - 1;
      var s, t := Run(cfg, g, s0, ticks[..n]), ticks[n];
      RunFacts(cfg, g, s0, ticks[..n]);
      TickFacts(cfg, g, s, t);
      var prev := LastMove(cfg, s0, ticks[..n]);
      MovedByAnchor(cfg, s, s0.(anchorX := prev.1, anchorY := prev.2), t);
      hide Step, Moved, Dt, DeadlineHit, BudgetHit;
    }
  }

  lemma {:induction false} ReaimBound(cfg: Config, g: Goal, s0: State, ticks: seq<Input>, n: nat)
    requires n <= |ticks| && PointRun(g, ticks) && s0.realignTime <= MaxReal(0.0, cfg.realignTimeout + 0.5)
    ensures ReaimTime(cfg, g, s0, ticks[..n]) <= MaxReal(0.0, cfg.realignTimeout + 0.5)
  {
    if n > 0 {
      hide Step, Run, LastMove, ReaimTime, Moved, DeadlineHit, BudgetHit;
      ReaimBound(cfg, g, s0, ticks, n - 1);
      RunFacts(cfg, g, s0, ticks[..n]);
      RunFacts(cfg, g, s0, ticks[..n - 1]);
      RunStep(cfg, g, s0, ticks, n - 1);
      TickFacts(cfg, g, Run(cfg, g, s0, ticks[..n - 1]), ticks[n - 1]);
    }
  }

  /**
   Bounded motion: at every tick of every run of a point goal, (a) nothing moves
   after the deadline; (b) an in-place turn comes within the rotation timeout of
   the goal's start or the last real translation; (c) the time spent re-aiming
   since then stays within its budget plus one capped tick.
   */
  lemma BoundedMotion(cfg: Config, g: Goal, s0: State, ticks: seq<Input>, n: nat)
    requires n < |ticks| && PointRun(g, ticks) && s0.realignTime <= MaxReal(0.0, cfg.realignTimeout + 0.5)
    ensures var r := ResultAt(cfg, g, s0, ticks, n);
            && (Moves(r) && cfg.deadline > 0.0 ==> ticks[n].now - s0.startedAt <= cfg.deadline)
            && (InPlace(r) && cfg.rotateTimeout > 0.0 ==>
                  ticks[n].now - LastMove(cfg, s0, ticks[..n + 1]).0 <= cfg.rotateTimeout)
            && ReaimTime(cfg, g, s0, ticks[..n + 1]) <= MaxReal(0.0, cfg.realignTimeout + 0.5)
  {
    RunFacts(cfg, g, s0, ticks[..n]);
    RunFacts(cfg, g, s0, ticks[..n + 1]);
    RunStep(cfg, g, s0, ticks, n);
    TickFacts(cfg, g, Run(cfg, g, s0, ticks[..n]), ticks[n]);
    ReaimBound(cfg, g, s0, ticks, n + 1);
    hide Step, Run, LastMove, ReaimTime, Moved, Dt;
  }

  // ── a terminal block ──

  /** A tick that leaves a terminal block has just entered it, and one that does not publishes none. */
  ghost predicate JustEntered(cfg: Config, s: State, r: Result) {
    if s.terminal.Some? then
      s.terminalTicks == 1
      && r == Result(Blocked, if 0 < cfg.terminalZeroTicks then STOP else None, s.terminal.value, NoMode, true)
    else !r.terminal
  }

  lemma EarlyEnters(cfg: Config, g: Goal, s: State, t: Input)
    requires s.terminal.None?
    ensures var (s', r) := Early(cfg, g, s, t);
            if r.Some? then JustEntered(cfg, s', r.value) else s'.terminal.None?
  {
    hide RotateToHeading, GoalParams, Ttl;
  }

  lemma DriveTerminal(cfg: Config, g: Goal, s: State, t: Input, adoptedNew: bool, v: real, omega: real)
    ensures Drive(cfg, g, s, t, adoptedNew, v, omega).0.terminal == s.terminal && !Drive(cfg, g, s, t, adoptedNew, v, omega).1.terminal
  {
  }

  lemma LateEnters(cfg: Config, g: Goal, s: State, t: Input, adoptedNew: bool, dt: real)
    requires s.terminal.None?
    ensures var (s', r) := Late(cfg, g, s, t, adoptedNew, dt); JustEntered(cfg, s', r)
  {
    SteeredFacts(cfg, g, s, t);
    hide Steered, Swept, SweptResponse, Drive;
    var (s1, v, omega) := Steered(cfg, g, s, t);
    match Swept(cfg, g, t, v, omega)
    case None =>
    case Some(c) => DriveTerminal(cfg, g, s1, t, adoptedNew, c.0, c.1);
  }

  /** A tick that ends in a new terminal block has just entered it. */
  lemma EntersTerminal(cfg: Config, g: Goal, s: State, t: Input)
    requires s.terminal.None?
    ensures var (s', r) := Step(cfg, g, s, t);
            JustEntered(cfg, s', r)
  {
    var c := Clock(cfg, s, t);
    EarlyEnters(cfg, g, c, t);
    var (s1, early) := Early(cfg, g, c, t);
    PlannedFacts(g, s1, t);
    var (s2, planned) := Planned(g, s1, t);
    if early.None? && planned.None? {
      LateEnters(cfg, g, s2, t, AdoptedNew(g, s1, t), Dt(s, t.now));
    }
    hide Early, Planned, Late, Dt, Moved;
  }

  /** Tick `n` of the run enters a terminal block. */
  predicate EntersAt(cfg: Config, g: Goal, s0: State, ticks: seq<Input>, n: nat)
    requires n < |ticks|
  {
    Run(cfg, g, s0, ticks[..n]).terminal.None? && Run(cfg, g, s0, ticks[..n + 1]).terminal.Some?
  }

  lemma TerminalStays(cfg: Config, g: Goal, s: State, t: Input)
    requires s.terminal.Some?
    ensures var (s', r) := Step(cfg, g, s, t);
            s'.terminal == s.terminal && s'.terminalTicks == s.terminalTicks + 1
            && r == Result(Blocked, if s.terminalTicks < cfg.terminalZeroTicks then STOP else None, s.terminal.value, NoMode, true)
  {
    hide Moved;
  }

  /**
   A terminal block absorbs: from the tick that enters it every later tick
   reports the same block, the first `terminal_zero_ticks` with a zero command
   and the rest in silence.
   */
  lemma {:induction false} TerminalAbsorbs(cfg: Config, g: Goal, s0: State, ticks: seq<Input>, n: nat, k: nat)
    requires n <= k < |ticks|
    ensures EntersAt(cfg, g, s0, ticks, n) ==>
      var why := Run(cfg, g, s0, ticks[..n + 1]).terminal;
      && Run(cfg, g, s0, ticks[..k + 1]).terminal == why
      && Run(cfg, g, s0, ticks[..k + 1]).terminalTicks == k - n + 1
      && ResultAt(cfg, g, s0, ticks, k)
         == Result(Blocked, if k - n < cfg.terminalZeroTicks then STOP else None, why.value, NoMode, true)
  {
    hide Step, Run;
    RunStep(cfg, g, s0, ticks, k);
    if !EntersAt(cfg, g, s0, ticks, n) {
    } else if k == n {
      EntersTerminal(cfg, g, Run(cfg, g, s0, ticks[..n]), ticks[n]);
    } else {
      TerminalAbsorbs(cfg, g, s0, ticks, n, k - 1);
      TerminalStays(cfg, g, Run(cfg, g, s0, ticks[..k]), ticks[k]);
    }
  }

  // ── the command envelope ──

  /** Speeds the controller may publish. */
  predicate WithinLimits(cfg: Config, r: Result) {
    r.cmd.Some? ==> 0.0 <= r.cmd.value.0 <= cfg.params.vMax && AbsReal(r.cmd.value.1) <= cfg.params.omegaMax
  }

  lemma RotateBounds(err: real, p: Params)
    requires Sane(p)
    ensures AbsReal(RotateToHeading(err, p).0) <= p.omegaMax
  {
    assert p.kOmega * AbsReal(err) >= 0.0;
  }

  lemma ArriveLimits(cfg: Config, g: Goal, s: State, t: Input)
    requires SaneConfig(cfg)
    ensures var r := Arrive(cfg, g, s, t).1; r.Some? && WithinLimits(cfg, r.value)
  {
    CapsOnlySlow(cfg.params, g.vCap, g.omegaCap);
    var p := GoalParams(cfg.params, g.vCap, g.omegaCap);
    RotateBounds(t.headingErr, p);
    hide RotateToHeading, GoalParams, DeadlineHit, BudgetHit;
  }

  lemma ShrinkAbs(omega: real, f: real)
    requires 0.0 <= f <= 1.0
    ensures AbsReal(omega * f) <= AbsReal(omega)
  {
    if omega >= 0.0 {
      ScaleUnit(omega, f);
    } else {
      ScaleUnit(-omega, f);
      assert (-omega) * f == -(omega * f);
    }
  }

  lemma SlowedArc(omega: real, vMin: real, v: real, limit: real)
    requires AbsReal(omega) <= limit && 0.0 <= vMin < v
    ensures AbsReal(SlowArc(omega, vMin, v)) <= limit
  {
    var f := vMin / v;
    assert SlowArc(omega, vMin, v) == omega * f;
    assert 0.0 <= f <= 1.0;
    ShrinkAbs(omega, f);
  }

  lemma SteeredLimits(cfg: Config, g: Goal, s: State, t: Input)
    requires SaneConfig(cfg) && -PI <= t.lookBearing <= PI && s.rotDir in {-1, 0, 1}
    ensures var (s', v, omega) := Steered(cfg, g, s, t);
            var p := GoalParams(cfg.params, g.vCap, g.omegaCap);
            0.0 <= v <= p.vMax && AbsReal(omega) <= p.omegaMax && s'.rotDir in {-1, 0, 1}
  {
    CapsOnlySlow(cfg.params, g.vCap, g.omegaCap);
    var p := GoalParams(cfg.params, g.vCap, g.omegaCap);
    SteerBounds(t.lookDist, t.lookBearing, p, s.rotating);
    LatchHolds(t.lookBearing, if s.rotating then s.rotDir else 0, p, cfg.flipBand, cfg.minRotateOmega);
    hide Steer, LatchedRotate, GoalParams, SlowArc;
    var (v, omega, next) := Steer(t.lookDist, t.lookBearing, p, s.rotating);
    if v > p.vMin { SlowedArc(omega, p.vMin, v, p.omegaMax); }
  }

  lemma SweptLimits(cfg: Config, g: Goal, t: Input, v: real, omega: real)
    requires SaneConfig(cfg)
    requires var p := GoalParams(cfg.params, g.vCap, g.omegaCap); 0.0 <= v <= p.vMax && AbsReal(omega) <= p.omegaMax
    ensures var c := Swept(cfg, g, t, v, omega);
            c.Some? ==> 0.0 <= c.value.0 <= cfg.params.vMax && AbsReal(c.value.1) <= cfg.params.omegaMax
  {
    CapsOnlySlow(cfg.params, g.vCap, g.omegaCap);
    var p := GoalParams(cfg.params, g.vCap, g.omegaCap);
    hide GoalParams, Candidates;
    var c := Swept(cfg, g, t, v, omega);
    if c.Some? && v > 0.001 {
      var cands := Tried(cfg, g, t, v, omega);
      PickIsFirst(cands, t.sweptVeto);
      assert c.value in cands;
      if cfg.slowRetry { CandidateBounds(v, omega, t.k1, t.k2, p, c.value); }
    }
  }

  lemma ArriveKeepsDir(cfg: Config, g: Goal, s: State, t: Input)
    ensures Arrive(cfg, g, s, t).0.rotDir == s.rotDir
  {
    hide RotateToHeading, GoalParams;
  }

  lemma StopWithin(cfg: Config, r: Result)
    requires SaneConfig(cfg) && (r.cmd.None? || r.cmd == STOP)
    ensures WithinLimits(cfg, r)
  {
  }

  /** Away from the goal nothing but a stop is decided before planning. */
  lemma EarlyStops(cfg: Config, g: Goal, s: State, t: Input)
    requires s.terminal.Some? || !AtGoal(g, t)
    ensures var (s', r) := Early(cfg, g, s, t);
      s'.rotDir == s.rotDir && (r.Some? ==> r.value.cmd.None? || r.value.cmd == STOP)
  {
    hide Arrive, DeadlineHit, AtGoal, Ttl;
  }

  lemma EarlyLimits(cfg: Config, g: Goal, s: State, t: Input)
    requires SaneConfig(cfg)
    requires Arrive(cfg, g, s, t).1.Some? && WithinLimits(cfg, Arrive(cfg, g, s, t).1.value)
    ensures var (s', r) := Early(cfg, g, s, t); s'.rotDir == s.rotDir && (r.Some? ==> WithinLimits(cfg, r.value))
  {
    hide Arrive, Staleness, DeadlineHit, AtGoal, WithinLimits, SaneConfig;
    if s.terminal.None? && AtGoal(g, t) {
      ArriveKeepsDir(cfg, g, s, t);
    } else {
      hide Early;
      EarlyStops(cfg, g, s, t);
      var r := Early(cfg, g, s, t).1;
      if r.Some? { StopWithin(cfg, r.value); }
    }
  }

  lemma PlannedLimits(cfg: Config, g: Goal, s: State, t: Input)
    requires SaneConfig(cfg)
    ensures var (s', r) := Planned(g, s, t); s'.rotDir == s.rotDir && (r.Some? ==> WithinLimits(cfg, r.value))
  {
  }

  lemma ReaimLimits(cfg: Config, g: Goal, s: State, t: Input, dt: real)
    requires SaneConfig(cfg)
    ensures var (s', r) := Reaim(cfg, g, s, t, dt); WithinLimits(cfg, r) && (s'.rotDir == s.rotDir || s'.rotDir == 0)
  {
    CapsOnlySlow(cfg.params, g.vCap, g.omegaCap);
    hide GoalParams, BudgetHit;
  }

  lemma TurnLimits(cfg: Config, s: State, t: Input, omega: real)
    ensures var (s', r) := Turn(cfg, s, t, omega);
            s'.rotDir == s.rotDir && (r.cmd.None? || r.cmd == STOP || r.cmd == Some((0.0, omega)))
  {
  }

  lemma DriveLimits(cfg: Config, g: Goal, s: State, t: Input, adoptedNew: bool, v: real, omega: real)
    ensures var (s', r) := Drive(cfg, g, s, t, adoptedNew, v, omega);
            s'.rotDir == s.rotDir && (r.cmd == STOP || r.cmd == Some((v, omega)))
  {
  }

  lemma LateLimits(cfg: Config, g: Goal, s: State, t: Input, adoptedNew: bool, dt: real)
    requires SaneConfig(cfg) && -PI <= t.lookBearing <= PI && s.rotDir in {-1, 0, 1}
    ensures var (s', r) := Late(cfg, g, s, t, adoptedNew, dt); WithinLimits(cfg, r) && s'.rotDir in {-1, 0, 1}
  {
    var p := GoalParams(cfg.params, g.vCap, g.omegaCap);
    CapsOnlySlow(cfg.params, g.vCap, g.omegaCap);
    SteeredLimits(cfg, g, s, t);
    var (s1, v, omega) := Steered(cfg, g, s, t);
    SweptLimits(cfg, g, t, v, omega);
    hide Steered, Swept, GoalParams, Reaim, Turn, Drive;
    match Swept(cfg, g, t, v, omega)
    case None => ReaimLimits(cfg, g, s1, t, dt);
    case Some(c) =>
      TurnLimits(cfg, s1, t, c.1);
      DriveLimits(cfg, g, s1, t, adoptedNew, c.0, c.1);
  }

  /** Whatever the inputs, no command leaves the configured speed and turn limits, and none drives backwards. */
  lemma CommandEnvelope(cfg: Config, g: Goal, s: State, t: Input)
    requires SaneConfig(cfg) && -PI <= t.lookBearing <= PI && s.rotDir in {-1, 0, 1}
    ensures WithinLimits(cfg, Step(cfg, g, s, t).1) && Step(cfg, g, s, t).0.rotDir in {-1, 0, 1}
  {
    var c := Clock(cfg, s, t);
    assert c.rotDir == s.rotDir;
    ArriveLimits(cfg, g, c, t);
    EarlyLimits(cfg, g, c, t);
    var (s1, early) := Early(cfg, g, c, t);
    PlannedLimits(cfg, g, s1, t);
    var (s2, planned) := Planned(g, s1, t);
    if early.None? && planned.None? {
      LateLimits(cfg, g, s2, t, AdoptedNew(g, s1, t), Dt(s, t.now));
    }
    hide Clock, Early, Planned, Late, Dt;
  }
}
