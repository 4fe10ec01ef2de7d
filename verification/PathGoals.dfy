/**
 Runs of the controller in which ticks, refreshed paths and new goals interleave:
 what a path goal may do between refreshes, and how a terminal block ends.
 */
module PathGoals {
  import opened Options
  import opened Steering
  import opened Tier3

  datatype Event =
    | Tick(t: Input)
    | Path(g: Goal, now: real)
    | NewGoal(g: Goal, now: real, x: real, y: real)

  /** The controller: its goal and its per-goal state. */
  datatype Driver = Driver(goal: Goal, s: State)

  function Next(cfg: Config, y: Driver, e: Event): Driver {
    match e
    case Tick(t) => Driver(y.goal, Step(cfg, y.goal, y.s, t).0)
    case Path(g, now) => Driver(g, UpdatePath(y.goal, g, y.s, now))
    case NewGoal(g, now, px, py) => Driver(g, Start(now, px, py))
  }

  function Play(cfg: Config, y0: Driver, events: seq<Event>): Driver {
    if events == [] then y0 else Next(cfg, Play(cfg, y0, events[..|events| - 1]), events[|events| - 1])
  }

  /** What the tick `n` publishes. */
  function Said(cfg: Config, y0: Driver, events: seq<Event>, n: nat): Result
    requires n < |events| && events[n].Tick?
  {
    var y := Play(cfg, y0, events[..n]);
    Step(cfg, y.goal, y.s, events[n].t).1
  }

  lemma PlayStep(cfg: Config, y0: Driver, events: seq<Event>, n: nat)
    requires n < |events|
    ensures Play(cfg, y0, events[..n + 1]) == Next(cfg, Play(cfg, y0, events[..n]), events[n])
  {
    assert events[..n + 1][..n] == events[..n];
  }

  // ── from events and published results alone ──

  /** When the path last came in: with the goal or a refresh of it. */
  function LastPath(y0: Driver, events: seq<Event>): real {
    if events == [] then y0.s.pathRxAt
    else
      var e := events[|events| - 1];
      if e.Tick? then LastPath(y0, events[..|events| - 1]) else e.now
  }

  /** A result that holds the robot without fault: a breakpoint, or the end of a streamed path's horizon. */
  predicate Rests(r: Result) {
    r.mode == Held || (r.mode == Starved && r.cmd == STOP)
  }

  /** Where the rotation budget counts from, and where translation does. */
  datatype Mark = Mark(at: real, x: real, y: real)

  function MarkOf(s: State): Mark {
    Mark(s.lastTranslateAt, s.anchorX, s.anchorY)
  }

  predicate MovedFrom(cfg: Config, m: Mark, t: Input) {
    var dx, dy := t.x - m.x, t.y - m.y;
    cfg.translateEps <= 0.0 || dx * dx + dy * dy >= cfg.translateEps * cfg.translateEps
  }

  /** Real translation restarts the budget. */
  function MarkAtTick(cfg: Config, m: Mark, t: Input): Mark {
    if MovedFrom(cfg, m, t) then Mark(t.now, t.x, t.y) else m
  }

  /** A new goal, a new route, real translation and a rest restart the budget; nothing else does. */
  function Budget(cfg: Config, y0: Driver, events: seq<Event>): Mark {
    if events == [] then MarkOf(y0.s)
    else
      var n := |events| - 1;
      var m := Budget(cfg, y0, events[..n]);
      match events[n]
      case NewGoal(_, now, px, py) => Mark(now, px, py)
      case Path(g, now) => if g.routeId != Play(cfg, y0, events[..n]).goal.routeId then m.(at := now) else m
      case Tick(t) =>
        var at := MarkAtTick(cfg, m, t);
        if Rests(Said(cfg, y0, events, n)) then at.(at := t.now) else at
  }

  // ── one tick of any goal ──

  /** The path's age, and where the robot's last translation put the anchor. */
  predicate Keeps(s: State, s': State) {
    s'.pathRxAt == s.pathRxAt && s'.anchorX == s.anchorX && s'.anchorY == s.anchorY && s'.lastTranslateAt == s.lastTranslateAt
  }

  /** As `Keeps`, but for a rest. */
  predicate KeepsOrRests(s: State, s': State, r: Result, now: real) {
    && s'.pathRxAt == s.pathRxAt && s'.anchorX == s.anchorX && s'.anchorY == s.anchorY
    && s'.lastTranslateAt == if Rests(r) then now else s.lastTranslateAt
  }

  predicate Overdue(cfg: Config, g: Goal, s: State, now: real) {
    now - s.pathRxAt > cfg.staleFactor * Ttl(cfg, g)
  }

  lemma ClockKeeps(cfg: Config, s: State, t: Input)
    ensures Clock(cfg, s, t).pathRxAt == s.pathRxAt && Clock(cfg, s, t).terminal == s.terminal
    ensures MarkOf(Clock(cfg, s, t)) == MarkAtTick(cfg, MarkOf(s), t)
  {
  }

  lemma ArriveKeeps(cfg: Config, g: Goal, s: State, t: Input)
    ensures var (s', r) := Arrive(cfg, g, s, t);
      && r.Some? && Keeps(s, s') && !Rests(r.value)
      && (Moves(r.value) ==> r.value.cmd.value.0 == 0.0 && r.value.mode == Rotate && !BudgetHit(cfg, s, t.now))
  {
    hide RotateToHeading, GoalParams, DeadlineHit;
  }

  lemma EnterKeeps(cfg: Config, s: State, why: Reason)
    ensures var (s', r) := EnterTerminal(cfg, s, why); Keeps(s, s') && !Moves(r) && !Rests(r)
  {
  }

  lemma EnRouteKeeps(cfg: Config, g: Goal, s: State, t: Input)
    requires s.terminal.None? && !AtGoal(g, t)
    ensures var (s', r) := Early(cfg, g, s, t);
      && (r.None? ==> Keeps(s, s') && s'.terminal.None? && (g.isPath ==> !Overdue(cfg, g, s, t.now)))
      && (r.Some? ==> KeepsOrRests(s, s', r.value, t.now) && !Moves(r.value))
  {
    EnterKeeps(cfg, s, Deadline);
    hide Arrive, EnterTerminal, Ttl, AtGoal, DeadlineHit;
  }

  /** Before planning nothing moves but the final turn; and past here the path is fresh. */
  lemma EarlyKeeps(cfg: Config, g: Goal, s: State, t: Input)
    ensures var (s', r) := Early(cfg, g, s, t);
      && (r.None? ==> Keeps(s, s') && s'.terminal.None? && (g.isPath ==> !Overdue(cfg, g, s, t.now)))
      && (r.Some? ==> KeepsOrRests(s, s', r.value, t.now))
      && (r.Some? && Moves(r.value) ==>
            r.value.cmd.value.0 == 0.0 && r.value.mode == Rotate && AtGoal(g, t) && !BudgetHit(cfg, s, t.now))
  {
    hide Arrive, Staleness, Ttl, AtGoal, DeadlineHit, Overdue;
    if s.terminal.None? && !AtGoal(g, t) {
      hide Early, Keeps, KeepsOrRests, BudgetHit;
      EnRouteKeeps(cfg, g, s, t);
    } else {
      ArriveKeeps(cfg, g, s, t);
    }
  }

  lemma PlannedKeeps(g: Goal, s: State, t: Input)
    ensures var (s', r) := Planned(g, s, t); Keeps(s, s') && (r.Some? ==> !Moves(r.value) && !Rests(r.value))
  {
  }

  lemma SteeredKeeps(cfg: Config, g: Goal, s: State, t: Input)
    ensures Keeps(s, Steered(cfg, g, s, t).0)
  {
    hide Steer, LatchedRotate, GoalParams, SlowArc;
  }

  lemma ReaimKeeps(cfg: Config, g: Goal, s: State, t: Input, dt: real)
    ensures var (s', r) := Reaim(cfg, g, s, t, dt); Keeps(s, s') && !Rests(r) && (Moves(r) ==> !BudgetHit(cfg, s, t.now))
  {
    hide SweptResponse, GoalParams;
  }

  lemma TurnKeeps(cfg: Config, s: State, t: Input, omega: real)
    ensures var (s', r) := Turn(cfg, s, t, omega); Keeps(s, s') && !Rests(r) && (Moves(r) ==> !BudgetHit(cfg, s, t.now))
  {
  }

  lemma DriveKeeps(cfg: Config, g: Goal, s: State, t: Input, adoptedNew: bool, v: real, omega: real)
    requires v > 0.001
    ensures var (s', r) := Drive(cfg, g, s, t, adoptedNew, v, omega); Keeps(s, s') && !Rests(r) && !InPlace(r)
  {
  }

  lemma LateKeeps(cfg: Config, g: Goal, s: State, t: Input, adoptedNew: bool, dt: real)
    ensures var (s', r) := Late(cfg, g, s, t, adoptedNew, dt);
      KeepsOrRests(s, s', r, t.now) && (InPlace(r) ==> !BudgetHit(cfg, s, t.now))
  {
    SteeredKeeps(cfg, g, s, t);
    hide Steered, Swept, Reaim, Turn, Drive;
    var (s1, v, omega) := Steered(cfg, g, s, t);
    match Swept(cfg, g, t, v, omega)
    case None => ReaimKeeps(cfg, g, s1, t, dt);
    case Some(c) =>
      TurnKeeps(cfg, s1, t, c.1);
      if c.0 > 0.001 { DriveKeeps(cfg, g, s1, t, adoptedNew, c.0, c.1); }
  }

  /**
   One tick of any goal: it keeps when the path came in; on an overdue path only
   the final turn moves; no in-place turn past the rotation budget, which only
   translation and a rest restart.
   */
  lemma AnyTickFacts(cfg: Config, g: Goal, s: State, t: Input)
    ensures var (s', r) := Step(cfg, g, s, t);
      var m := MarkAtTick(cfg, MarkOf(s), t);
      && s'.pathRxAt == s.pathRxAt
      && MarkOf(s') == (if Rests(r) then m.(at := t.now) else m)
      && (g.isPath && Overdue(cfg, g, s, t.now) && Moves(r) ==> AtGoal(g, t) && r.mode == Rotate && r.cmd.value.0 == 0.0)
      && (InPlace(r) && cfg.rotateTimeout > 0.0 ==> t.now - m.at <= cfg.rotateTimeout)
  {
    ClockKeeps(cfg, s, t);
    var c := Clock(cfg, s, t);
    EarlyKeeps(cfg, g, c, t);
    var (s1, early) := Early(cfg, g, c, t);
    PlannedKeeps(g, s1, t);
    var (s2, planned) := Planned(g, s1, t);
    if early.None? && planned.None? {
      LateKeeps(cfg, g, s2, t, AdoptedNew(g, s1, t), Dt(s, t.now));
    }
    hide Clock, Early, Planned, Late, Dt, MarkAtTick, Ttl, AtGoal, Rests;
  }

  // ── every run ──

  /** The controller's two clocks are the ones read off the events and results. */
  lemma {:induction false} ClocksAreHistory(cfg: Config, y0: Driver, events: seq<Event>)
    ensures Play(cfg, y0, events).s.pathRxAt == LastPath(y0, events)
    ensures MarkOf(Play(cfg, y0, events).s) == Budget(cfg, y0, events)
  {
    if events != [] {
      var n := |events| - 1;
      ClocksAreHistory(cfg, y0, events[..n]);
      if events[n].Tick? {
        var y := Play(cfg, y0, events[..n]);
        AnyTickFacts(cfg, y.goal, y.s, events[n].t);
      }
      hide Step, MarkAtTick, Rests, AtGoal, Ttl;
    }
  }

  /**
   A path goal drives only on a fresh path: whatever the refreshes, a tick that
   commands any forward speed comes within `stale_factor` times the time to live
   of the path's last arrival, and past that age nothing moves but the final turn
   at the goal.
   */
  lemma PathDrivesFresh(cfg: Config, y0: Driver, events: seq<Event>, n: nat)
    requires n < |events| && events[n].Tick? && Play(cfg, y0, events[..n]).goal.isPath
    ensures var g, t, r := Play(cfg, y0, events[..n]).goal, events[n].t, Said(cfg, y0, events, n);
      var limit := cfg.staleFactor * Ttl(cfg, g);
      && (r.cmd.Some? && r.cmd.value.0 > 0.0 ==> t.now - LastPath(y0, events[..n]) <= limit)
      && (t.now - LastPath(y0, events[..n]) > limit && Moves(r) ==> InPlace(r) && r.mode == Rotate && AtGoal(g, t))
  {
    hide Step, Play, LastPath, Budget, MarkAtTick, Rests, AtGoal, Ttl;
    var y := Play(cfg, y0, events[..n]);
    ClocksAreHistory(cfg, y0, events[..n]);
    AnyTickFacts(cfg, y.goal, y.s, events[n].t);
  }

  /**
   The rotation budget over any run, breakpoints and streamed paths included: an
   in-place turn comes within the rotation timeout of the goal's start, its last
   new route, the last real translation or the last rest, this tick's own
   translation counted.
   */
  lemma TurnsWithinBudget(cfg: Config, y0: Driver, events: seq<Event>, n: nat)
    requires n < |events| && events[n].Tick? && cfg.rotateTimeout > 0.0 && InPlace(Said(cfg, y0, events, n))
    ensures events[n].t.now - MarkAtTick(cfg, Budget(cfg, y0, events[..n]), events[n].t).at <= cfg.rotateTimeout
  {
    hide Step, Play, LastPath, Budget, MarkAtTick, Rests, AtGoal, Ttl;
    var y := Play(cfg, y0, events[..n]);
    ClocksAreHistory(cfg, y0, events[..n]);
    AnyTickFacts(cfg, y.goal, y.s, events[n].t);
  }

  // ── how a terminal block ends ──

  /** A new goal, or a path under a new route. */
  predicate Resumes(y: Driver, e: Event) {
    e.NewGoal? || (e.Path? && e.g.routeId != y.goal.routeId)
  }

  /** Ticks among the events. */
  function Ticks(events: seq<Event>): nat {
    if events == [] then 0 else Ticks(events[..|events| - 1]) + if events[|events| - 1].Tick? then 1 else 0
  }

  /** The block `why` stands, and has been reported on `count` ticks. */
  predicate Standing(y: Driver, why: Reason, count: nat) {
    y.s.terminal == Some(why) && y.s.terminalTicks == count
  }

  lemma StandingStays(cfg: Config, y: Driver, e: Event, why: Reason, count: nat)
    requires Standing(y, why, count) && !Resumes(y, e)
    ensures Standing(Next(cfg, y, e), why, if e.Tick? then count + 1 else count)
    ensures e.Tick? ==>
      Step(cfg, y.goal, y.s, e.t).1 == Result(Blocked, if count < cfg.terminalZeroTicks then STOP else None, why, NoMode, true)
  {
    if e.Tick? {
      hide Step;
      TerminalStays(cfg, y.goal, y.s, e.t);
    }
  }

  /** No event from `n` up to `k` resumes. */
  ghost predicate Unresumed(cfg: Config, y0: Driver, events: seq<Event>, n: nat, k: nat)
    requires n <= k <= |events|
  {
    forall m :: n <= m < k ==> !Resumes(Play(cfg, y0, events[..m]), events[m])
  }

  lemma {:induction false} StandingRun(cfg: Config, y0: Driver, events: seq<Event>, n: nat, k: nat, why: Reason, count: nat)
    requires n <= k <= |events| && Standing(Play(cfg, y0, events[..n]), why, count) && Unresumed(cfg, y0, events, n, k)
    ensures Standing(Play(cfg, y0, events[..k]), why, count + Ticks(events[n..k]))
  {
    hide Play, Next, Standing, Resumes;
    if n < k {
      StandingRun(cfg, y0, events, n, k - 1, why, count);
      PlayStep(cfg, y0, events, k - 1);
      StandingStays(cfg, Play(cfg, y0, events[..k - 1]), events[k - 1], why, count + Ticks(events[n..k - 1]));
      assert events[n..k][..k - n - 1] == events[n..k - 1];
    }
  }

  lemma EnteredStands(g: Goal, y: Driver, why: Reason)
    requires y.s.terminal == Some(why) && y.s.terminalTicks == 1
    ensures Standing(y, why, 1)
  {
  }

  lemma NoTickResumes(y: Driver, e: Event)
    requires e.Tick?
    ensures !Resumes(y, e)
  {
  }

  /**
   Refreshes do not end a terminal block. From the tick that enters it every tick
   before a new route or a new goal reports the same block: with a zero command
   until `terminal_zero_ticks` have reported it, then in silence.
   */
  lemma BlockStands(cfg: Config, y0: Driver, events: seq<Event>, n: nat, k: nat)
    requires n < k < |events| && events[n].Tick? && events[k].Tick? && Unresumed(cfg, y0, events, n + 1, k)
    requires Play(cfg, y0, events[..n]).s.terminal.None? && Play(cfg, y0, events[..n + 1]).s.terminal.Some?
    ensures var why := Play(cfg, y0, events[..n + 1]).s.terminal.value;
      Said(cfg, y0, events, k)
      == Result(Blocked, if 1 + Ticks(events[n + 1..k]) < cfg.terminalZeroTicks then STOP else None, why, NoMode, true)
  {
    hide Step, Play, Standing, Resumes, Unresumed;
    var y := Play(cfg, y0, events[..n]);
    EntersTerminal(cfg, y.goal, y.s, events[n].t);
    PlayStep(cfg, y0, events, n);
    var why := Play(cfg, y0, events[..n + 1]).s.terminal.value;
    EnteredStands(y.goal, Play(cfg, y0, events[..n + 1]), why);
    StandingRun(cfg, y0, events, n + 1, k, why, 1);
    NoTickResumes(Play(cfg, y0, events[..k]), events[k]);
    StandingStays(cfg, Play(cfg, y0, events[..k]), events[k], why, 1 + Ticks(events[n + 1..k]));
  }

  /** A block that is gone was ended by a new route or a new goal. */
  lemma BlockEndsByRoute(cfg: Config, y0: Driver, events: seq<Event>, n: nat, k: nat)
    requires n <= k <= |events|
    requires Play(cfg, y0, events[..n]).s.terminal.Some? && Play(cfg, y0, events[..k]).s.terminal.None?
    ensures exists m :: n <= m < k && Resumes(Play(cfg, y0, events[..m]), events[m])
  {
    hide Step, Play, Resumes, Ticks;
    if Unresumed(cfg, y0, events, n, k) {
      var s := Play(cfg, y0, events[..n]).s;
      StandingRun(cfg, y0, events, n, k, s.terminal.value, s.terminalTicks);
    }
  }
}
