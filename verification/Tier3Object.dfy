/** `Tier3Controller` as the object it is: per-goal fields that every tick updates, method by method the functions of `Tier3`. */
module Tier3Object {
  import opened Numbers
  import opened Options
  import opened Steering
  import T = Tier3

  class Tier3Controller {
    const cfg: T.Config
    var goal: T.Goal
    var rotating: bool
    var rotDir: int
    var realignTime: real
    var finalAligned: bool
    var startedAt: real
    var lastTranslateAt: real
    var anchorX: real
    var anchorY: real
    var progBest: Option<real>
    var progAt: real
    var prevRejoin: Option<bool>
    var terminal: Option<T.Reason>
    var terminalTicks: nat
    var lastTick: Option<real>
    var pathRxAt: real
    var stale: bool
    var starved: bool
    var pathRefreshed: bool

    function Value(): T.State
      reads this
    {
      T.State(rotating, rotDir, realignTime, finalAligned, startedAt, lastTranslateAt, anchorX, anchorY,
              progBest, progAt, prevRejoin, terminal, terminalTicks, lastTick, pathRxAt, stale, starved, pathRefreshed)
    }

    constructor (cfg: T.Config, goal: T.Goal, now: real, x: real, y: real)
      ensures this.cfg == cfg && this.goal == goal && Value() == T.Start(now, x, y)
    {
      this.cfg, this.goal := cfg, goal;
      rotating, rotDir, realignTime, finalAligned := false, 0, 0.0, false;
      startedAt, lastTranslateAt, anchorX, anchorY := now, now, x, y;
      progBest, progAt, prevRejoin := None, now, None;
      terminal, terminalTicks, lastTick := None, 0, None;
      pathRxAt, stale, starved, pathRefreshed := now, false, false, false;
    }

    method ResetMotion(now: real, x: real, y: real)
      modifies `rotating, `rotDir, `realignTime, `finalAligned, `startedAt, `lastTranslateAt, `anchorX, `anchorY, `lastTick
      ensures rotating == false && rotDir == 0 && realignTime == 0.0 && finalAligned == false
      ensures startedAt == now && lastTranslateAt == now && anchorX == x && anchorY == y && lastTick == None
    {
      rotating, rotDir, realignTime, finalAligned := false, 0, 0.0, false;
      startedAt, lastTranslateAt, anchorX, anchorY, lastTick := now, now, x, y, None;
    }

    method ResetProgress(now: real)
      modifies `progBest, `progAt, `prevRejoin, `terminal, `terminalTicks, `pathRxAt, `stale, `starved, `pathRefreshed
      ensures progBest == None && progAt == now && prevRejoin == None && terminal == None && terminalTicks == 0
      ensures pathRxAt == now && stale == false && starved == false && pathRefreshed == false
    {
      progBest, progAt, prevRejoin := None, now, None;
      terminal, terminalTicks := None, 0;
      pathRxAt, stale, starved, pathRefreshed := now, false, false, false;
    }

    /** `start_goal` */
    method StartGoal(g: T.Goal, now: real, x: real, y: real)
      modifies this
      ensures goal == g && Value() == T.Start(now, x, y)
      ensures !rotating && rotDir == 0 && realignTime == 0.0 && !finalAligned && !stale && !starved && !pathRefreshed
      ensures startedAt == lastTranslateAt == progAt == pathRxAt == now && (anchorX, anchorY) == (x, y)
      ensures progBest == None && prevRejoin == None && terminal == None && terminalTicks == 0 && lastTick == None
    {
      goal := g;
      ResetMotion(now, x, y);
      ResetProgress(now);
    }

    /** The part of `update_path` that every copy of the path does. */
    method Refresh(now: real)
      modifies `pathRxAt, `pathRefreshed
      ensures Value() == T.Refreshed(old(Value()), now)
    {
      ghost var s := Value();
      pathRxAt, pathRefreshed := now, true;
      assert Value() == T.Refreshed(s, now);
    }

    /** The part that a new route adds. */
    method NewRoute(now: real)
      modifies `progBest, `progAt, `terminal, `terminalTicks, `realignTime, `lastTranslateAt
      ensures Value() == T.Rerouted(old(Value()), now)
    {
      ghost var s := Value();
      progBest, progAt := None, now;
      terminal, terminalTicks := None, 0;
      realignTime, lastTranslateAt := 0.0, now;
      assert Value() == T.Rerouted(s, now);
    }

    /** `update_path` */
    method UpdatePath(g: T.Goal, now: real)
      modifies this
      ensures goal == g && Value() == T.UpdatePath(old(goal), g, old(Value()), now)
    {
      hide T.Refreshed, T.Rerouted;
      var previous := goal;
      goal := g;
      Refresh(now);
      if g.routeId != previous.routeId {
        NewRoute(now);
      }
    }

    method ClockTick(t: T.Input)
      modifies this
      ensures goal == old(goal) && Value() == T.Clock(cfg, old(Value()), t)
    {
      hide T.Moved;
      ghost var s := Value();
      if T.Moved(cfg, Value(), t) {
        anchorX, anchorY, lastTranslateAt, realignTime := t.x, t.y, t.now, 0.0;
      }
      lastTick := Some(t.now);
      assert Value() == T.Clock(cfg, s, t);
    }

    /** `_terminal` */
    method TerminalTick() returns (r: T.Result)
      requires terminal.Some?
      modifies this
      ensures goal == old(goal) && (Value(), r) == T.Terminal(cfg, old(Value()))
    {
      r := T.Result(T.Blocked, if terminalTicks < cfg.terminalZeroTicks then T.STOP else None, terminal.value, T.NoMode, true);
      terminalTicks := terminalTicks + 1;
    }

    /** `_enter_terminal` */
    method EnterTerminal(why: T.Reason) returns (r: T.Result)
      modifies this
      ensures goal == old(goal) && (Value(), r) == T.EnterTerminal(cfg, old(Value()), why)
    {
      terminal, terminalTicks := Some(why), 0;
      r := TerminalTick();
    }

    method Arrive(t: T.Input) returns (r: T.Result)
      modifies this
      ensures goal == old(goal) && (Value(), Some(r)) == T.Arrive(cfg, goal, old(Value()), t)
    {
      hide RotateToHeading, GoalParams, AbsReal;
      if goal.finalHeading.None? || finalAligned {
        return T.Result(T.Arrived, T.STOP, T.NoReason, T.NoMode, false);
      }
      if T.DeadlineHit(cfg, goal, Value(), t.now) {
        r := EnterTerminal(T.Deadline);
        return;
      }
      if T.BudgetHit(cfg, Value(), t.now) {
        r := EnterTerminal(T.RotateTimeout);
        return;
      }
      var (omega, aligned) := RotateToHeading(t.headingErr, GoalParams(cfg.params, goal.vCap, goal.omegaCap));
      if aligned {
        finalAligned := true;
        return T.Result(T.Arrived, T.STOP, T.NoReason, T.NoMode, false);
      }
      return T.Result(T.Driving, Some((0.0, T.AtLeast(omega, cfg.minRotateOmega))), T.NoReason, T.Rotate, false);
    }

    method Staleness(t: T.Input) returns (r: Option<T.Result>)
      modifies this
      ensures goal == old(goal) && (Value(), r) == T.Staleness(cfg, goal, old(Value()), t)
    {
      hide T.Ttl;
      var age := t.now - pathRxAt;
      if age > cfg.staleFactor * T.Ttl(cfg, goal) {
        stale, progAt := true, t.now;
        return Some(T.Result(T.Blocked, T.STOP, T.PathStale, T.NoMode, false));
      }
      stale := false;
      var atHorizon := !goal.endIsGoal && t.pathRem <= cfg.endHold;
      starved := age > T.Ttl(cfg, goal) || atHorizon;
      if atHorizon {
        progAt, lastTranslateAt := t.now, t.now;
        return Some(T.Result(T.Driving, T.STOP, T.NoReason, T.Starved, false));
      }
      return None;
    }

    /** Everything decided before planning. */
    method Early(t: T.Input) returns (r: Option<T.Result>)
      modifies this
      ensures goal == old(goal) && (Value(), r) == T.Early(cfg, goal, old(Value()), t)
    {
      hide T.Terminal, T.Arrive, T.Staleness, T.AtGoal;
      if terminal.Some? {
        var res := TerminalTick();
        return Some(res);
      }
      if T.AtGoal(goal, t) {
        var res := Arrive(t);
        return Some(res);
      }
      if T.DeadlineHit(cfg, goal, Value(), t.now) {
        var res := EnterTerminal(T.Deadline);
        return Some(res);
      }
      if goal.isPath {
        r := Staleness(t);
        if r.Some? { return r; }
      }
      if !t.scan {
        progAt := t.now;
        return Some(T.Result(T.Blocked, T.STOP, T.NoScan, T.NoMode, false));
      }
      return None;
    }

    /** What the plan decides on its own. */
    method Planned(t: T.Input) returns (r: Option<T.Result>)
      modifies this
      ensures goal == old(goal) && (Value(), r) == T.Planned(goal, old(Value()), t)
    {
      match t.plan
      case NoPlan =>
        progAt := t.now;
        return Some(T.Result(T.Blocked, T.STOP, T.PlanFailed, T.PlanMode, false));
      case AtBestCell =>
        progAt := t.now;
        return Some(T.Result(T.Arrived, T.STOP, T.NoReason, T.NoMode, false));
      case OffPath =>
        progAt := t.now;
        return Some(T.Result(T.Blocked, T.STOP, T.PathBlocked, T.PlanMode, false));
      case Chosen(rejoin, _, partialReached) =>
        if goal.isPath {
          prevRejoin := Some(rejoin);
          return None;
        }
        return if partialReached then Some(T.Result(T.Arrived, T.STOP, T.NoReason, T.NoMode, false)) else None;
    }

    method Steered(t: T.Input) returns (v: real, omega: real)
      modifies this
      ensures goal == old(goal) && (Value(), v, omega) == T.Steered(cfg, goal, old(Value()), t)
    {
      hide Steer, LatchedRotate, GoalParams, T.SlowArc;
      var p := GoalParams(cfg.params, goal.vCap, goal.omegaCap);
      var next;
      v, omega, next := Steer(t.lookDist, t.lookBearing, p, rotating).0,
                        Steer(t.lookDist, t.lookBearing, p, rotating).1, Steer(t.lookDist, t.lookBearing, p, rotating).2;
      if goal.isPath && starved && v > p.vMin && v != 0.0 {
        omega := T.SlowArc(omega, p.vMin, v);
        v := p.vMin;
      }
      if next {
        var turn := LatchedRotate(t.lookBearing, if rotating then rotDir else 0, p, cfg.flipBand, cfg.minRotateOmega);
        omega, rotDir := turn.0, turn.1;
      } else {
        rotDir := 0;
      }
      rotating := next;
    }

    method Reaim(t: T.Input, dt: real) returns (r: T.Result)
      modifies this
      ensures goal == old(goal) && (Value(), r) == T.Reaim(cfg, goal, old(Value()), t, dt)
    {
      hide SweptResponse, GoalParams;
      var w := SweptResponse(t.lookBearing, realignTime, cfg.realignThresh, cfg.realignTimeout,
                             GoalParams(cfg.params, goal.vCap, goal.omegaCap));
      progAt := t.now;
      if w.None? {
        return T.Result(T.Blocked, T.STOP, T.SweptBlock, T.Follow, false);
      }
      if T.BudgetHit(cfg, Value(), t.now) {
        r := EnterTerminal(T.RotateTimeout);
        return;
      }
      realignTime := realignTime + dt;
      rotating, rotDir := false, 0;
      return T.Result(T.Driving, Some((0.0, w.value)), T.NoReason, T.Realign, false);
    }

    method Turn(t: T.Input, omega: real) returns (r: T.Result)
      modifies this
      ensures goal == old(goal) && (Value(), r) == T.Turn(cfg, old(Value()), t, omega)
    {
      if T.BudgetHit(cfg, Value(), t.now) {
        r := EnterTerminal(T.RotateTimeout);
        return;
      }
      progBest, progAt := Some(t.remaining), t.now;
      return T.Result(T.Driving, Some((0.0, omega)), T.NoReason, T.Rotate, false);
    }

    method Drive(t: T.Input, adoptedNew: bool, v: real, omega: real) returns (r: T.Result)
      modifies this
      ensures goal == old(goal) && (Value(), r) == T.Drive(cfg, goal, old(Value()), t, adoptedNew, v, omega)
    {
      if progBest.None? || t.remaining < progBest.value - cfg.noProgressEps {
        progBest, progAt := Some(t.remaining), t.now;
      } else if adoptedNew || pathRefreshed {
        progBest := Some(t.remaining);
      } else if t.now - progAt > cfg.noProgressTimeout {
        return T.Result(T.Blocked, T.STOP, T.NoProgress, T.NoMode, false);
      }
      pathRefreshed := false;
      var mode := T.Follow;
      if goal.isPath {
        mode := if starved then T.Starved else if t.plan.Chosen? && t.plan.rejoin then T.Rejoin else T.Follow;
      }
      return T.Result(T.Driving, Some((v, omega)), T.NoReason, mode, false);
    }

    /** Everything decided after planning. */
    method Late(t: T.Input, adoptedNew: bool, dt: real) returns (r: T.Result)
      modifies this
      ensures goal == old(goal) && (Value(), r) == T.Late(cfg, goal, old(Value()), t, adoptedNew, dt)
    {
      hide T.Steered, T.Swept, T.Reaim, T.Turn, T.Drive;
      var v, omega := Steered(t);
      var c := T.Swept(cfg, goal, t, v, omega);
      if c.None? {
        r := Reaim(t, dt);
        return;
      }
      if t.depthVeto(c.value.0, c.value.1) && cfg.depthAct {
        progAt := t.now;
        return T.Result(T.Blocked, T.STOP, T.DepthBlock, T.Follow, false);
      }
      if t.gateHolds {
        progAt, lastTranslateAt := t.now, t.now;
        return T.Result(T.Driving, T.STOP, T.NoReason, T.Held, false);
      }
      if c.value.0 <= 0.001 {
        r := Turn(t, c.value.1);
      } else {
        r := Drive(t, adoptedNew, c.value.0, c.value.1);
      }
    }

    /** `step`: one control tick. */
    method Step(t: T.Input) returns (r: T.Result)
      modifies this
      ensures goal == old(goal) && (Value(), r) == T.Step(cfg, goal, old(Value()), t)
    {
      hide T.Clock, T.Early, T.Planned, T.Late, T.Dt;
      var dt := T.Dt(Value(), t.now);
      ClockTick(t);
      var early := Early(t);
      if early.Some? { return early.value; }
      var adoptedNew := T.AdoptedNew(goal, Value(), t);
      var planned := Planned(t);
      if planned.Some? { return planned.value; }
      r := Late(t, adoptedNew, dt);
    }
  }
}
