/** `MotionState` and the decision part of the control tick in body/motor_controller.py. */
module Motor {
  import opened Numbers
  import opened Options
  import opened Arbiter
  import opened EStop
  import W = Wheel

  const STALL_PWM_THRESHOLD: real := 0.1
  const STALL_VELOCITY_EPS_MS: real := 0.01

  datatype Config = Config(wheelBase: real, maxV: real, closedLoop: bool, stallEnabled: bool, stallMs: real)

  /** `twist_to_wheel_velocities` */
  function TwistToWheels(linear: real, angular: real, wheelBase: real): (real, real) {
    if wheelBase <= 0.0 then (linear, linear)
    else (linear - angular * wheelBase / 2.0, linear + angular * wheelBase / 2.0)
  }

  /** `pwm_from_velocity` */
  function PwmFromVelocity(v: real, maxV: real): (real, bool) {
    if maxV <= 0.0 then (0.0, true)
    else
      var pwm := W.Clip(v / maxV, -1.0, 1.0);
      (AbsReal(pwm), pwm >= 0.0)
  }

  /** Wheel speeds a command asks for. */
  function WheelSpeeds(cfg: Config, c: Command): (real, real) {
    if c.kind == Direct then (c.a, c.b) else TwistToWheels(c.a, c.b, cfg.wheelBase)
  }

  /**
   The two wheels carry out the command: a direct one as given; of a twist the
   mean of the two speeds is the linear speed, and the right wheel is faster by
   turn rate times wheel base, without a wheel base by nothing.
   */
  lemma WheelsFollow(cfg: Config, c: Command)
    ensures var (l, r) := WheelSpeeds(cfg, c);
      if c.kind == Direct then l == c.a && r == c.b
      else l + r == 2.0 * c.a && r - l == c.b * MaxReal(0.0, cfg.wheelBase)
  {
    assert c.b * cfg.wheelBase == 2.0 * (c.b * cfg.wheelBase / 2.0);
  }

  lemma Share(x: real, y: real)
    requires y > 0.0 && x >= 0.0
    ensures (x / y) * y == x && x / y >= 0.0 && (x > 0.0 ==> x / y > 0.0) && (x <= y <==> x / y <= 1.0)
  {
    assert (x / y - 1.0) * y == x - y;
    if x / y <= 1.0 { assert (1.0 - x / y) * y >= 0.0; } else { assert (x / y - 1.0) * y > 0.0; }
  }

  lemma NegatedShare(x: real, y: real)
    requires y > 0.0
    ensures (-x) / y == -(x / y)
  {
    assert ((-x) / y + x / y) * y == 0.0;
  }

  /** Open-loop duty: in proportion to the speed, full at the top speed and beyond, in the direction asked for. */
  lemma PwmMeans(v: real, maxV: real)
    ensures var (duty, fwd) := PwmFromVelocity(v, maxV);
      if maxV <= 0.0 then duty == 0.0 && fwd
      else (fwd <==> v >= 0.0) && duty * maxV == MinReal(AbsReal(v), maxV)
  {
    if maxV > 0.0 {
      Share(AbsReal(v), maxV);
      NegatedShare(v, maxV);
    }
  }

  // ── stall detection ──

  datatype Stall = Stall(latched: bool, since: Option<real>)

  /** What one tick shows the stall detector. */
  datatype Seen = Seen(now: real, commanded: bool, pwm: real, speed: real)

  /** Driven hard and not moving, with a command in force. */
  predicate Stuck(o: Seen) {
    o.commanded && o.pwm > STALL_PWM_THRESHOLD && o.speed < STALL_VELOCITY_EPS_MS
  }

  function StallNext(cfg: Config, s: Stall, o: Seen): Stall {
    if !cfg.stallEnabled || s.latched || !Stuck(o) then Stall(s.latched, None)
    else if s.since.None? then Stall(false, Some(o.now))
    else if (o.now - s.since.value) * 1000.0 >= cfg.stallMs then Stall(true, None)
    else s
  }

  /** What reaches the detector: a control tick, or a zero motion command, which releases the latch. */
  datatype StallEvent = Look(seen: Seen) | Release

  function Released(s: Stall): Stall {
    s.(latched := false)
  }

  function RunStall(cfg: Config, events: seq<StallEvent>): Stall {
    if events == [] then Stall(false, None)
    else
      var before, e := RunStall(cfg, events[..|events| - 1]), events[|events| - 1];
      if e.Look? then StallNext(cfg, before, e.seen) else Released(before)
  }

  /** Event `m` is a tick, and on it and every tick since the wheels were driven hard and did not move. */
  ghost predicate StuckSince(events: seq<StallEvent>, m: nat) {
    && m < |events| && events[m].Look?
    && forall k :: m <= k < |events| && events[k].Look? ==>
         events[k].seen.commanded && events[k].seen.pwm > 0.1 && events[k].seen.speed < 0.01
  }

  /** The latch stayed clear all that while. */
  ghost predicate ClearSince(cfg: Config, events: seq<StallEvent>, m: nat) {
    forall k :: m <= k <= |events| ==> !RunStall(cfg, events[..k]).latched
  }

  ghost predicate Stretch(cfg: Config, events: seq<StallEvent>, m: nat) {
    StuckSince(events, m) && ClearSince(cfg, events, m)
  }

  /** Where the current stretch of being stuck, with the latch clear, began. */
  ghost predicate BeganAt(cfg: Config, events: seq<StallEvent>, m: nat) {
    Stretch(cfg, events, m) && forall k: nat :: k < m ==> !Stretch(cfg, events, k)
  }

  /** The time at which the current stretch began, if there is one. */
  ghost predicate Marks(cfg: Config, events: seq<StallEvent>, since: Option<real>) {
    match since
    case Some(at) => exists m: nat :: BeganAt(cfg, events, m) && events[m].seen.now == at
    case None => forall m: nat :: !Stretch(cfg, events, m)
  }

  /** A longer run's stretch is a stretch of the shorter one, or starts with its last event. */
  lemma ShorterStretch(cfg: Config, events: seq<StallEvent>, m: nat)
    requires events != [] && m < |events| - 1 && Stretch(cfg, events, m)
    ensures Stretch(cfg, events[..|events| - 1], m)
  {
    var before := events[..|events| - 1];
    forall k | m <= k <= |before| ensures !RunStall(cfg, before[..k]).latched {
      assert before[..k] == events[..k];
    }
    hide RunStall;
  }

  lemma LongerStretch(cfg: Config, events: seq<StallEvent>, m: nat)
    requires events != [] && Stretch(cfg, events[..|events| - 1], m) && !RunStall(cfg, events).latched
    requires events[|events| - 1].Look? ==> Stuck(events[|events| - 1].seen)
    ensures Stretch(cfg, events, m)
  {
    var before := events[..|events| - 1];
    assert events[..|events|] == events;
    forall k | m <= k <= |events| ensures !RunStall(cfg, events[..k]).latched {
      if k < |events| { assert before[..k] == events[..k]; }
    }
    hide RunStall;
  }

  lemma NewStretch(cfg: Config, events: seq<StallEvent>)
    requires events != [] && events[|events| - 1].Look? && Stuck(events[|events| - 1].seen)
    requires !RunStall(cfg, events).latched && !RunStall(cfg, events[..|events| - 1]).latched
    ensures Stretch(cfg, events, |events| - 1)
  {
    assert events[..|events|] == events;
    hide RunStall;
  }

  lemma NoStretch(cfg: Config, events: seq<StallEvent>, m: nat)
    requires Stretch(cfg, events, m)
    ensures !RunStall(cfg, events).latched && m < |events| && events[m].Look?
    ensures events[|events| - 1].Look? ==> Stuck(events[|events| - 1].seen)
  {
    assert events[..|events|] == events;
  }

  lemma NothingMarked(cfg: Config)
    ensures Marks(cfg, [], None)
  {
  }

  lemma SinceStep(cfg: Config, events: seq<StallEvent>)
    requires cfg.stallEnabled && events != []
    requires Marks(cfg, events[..|events| - 1], RunStall(cfg, events[..|events| - 1]).since)
    ensures Marks(cfg, events, RunStall(cfg, events).since)
  {
    var n := |events| - 1;
    var before, s := events[..n], RunStall(cfg, events);
    var was := RunStall(cfg, before);
    forall m: nat | Stretch(cfg, events, m)
      ensures !s.latched && m <= n && (m < n ==> Stretch(cfg, before, m)) && (m == n ==> events[n].Look?)
      ensures events[n].Look? ==> Stuck(events[n].seen)
    {
      NoStretch(cfg, events, m);
      if m < n { ShorterStretch(cfg, events, m); }
    }
    hide Stretch, Stuck;
    if s.since.Some? {
      if was.since.Some? {
        var m: nat :| BeganAt(cfg, before, m) && events[m].seen.now == was.since.value;
        LongerStretch(cfg, events, m);
        assert BeganAt(cfg, events, m);
      } else {
        NewStretch(cfg, events);
        assert BeganAt(cfg, events, n);
      }
    }
  }

  /** The detector's time mark is that of the tick where the stretch began. */
  lemma {:induction false} SinceIs(cfg: Config, events: seq<StallEvent>)
    requires cfg.stallEnabled
    ensures Marks(cfg, events, RunStall(cfg, events).since)
  {
    hide Marks;
    if events == [] {
      assert Marks(cfg, events, None) by { NothingMarked(cfg); }
    } else {
      SinceIs(cfg, events[..|events| - 1]);
      SinceStep(cfg, events);
    }
  }

  lemma BeganOnce(cfg: Config, events: seq<StallEvent>, m: nat, m': nat)
    requires BeganAt(cfg, events, m) && BeganAt(cfg, events, m')
    ensures m == m'
  {
    hide Stretch;
  }

  /**
   Over every run a tick latches a stall exactly if detection is on and the wheels
   have been stuck, with the latch clear, on every tick since one that is the
   configured time back, where that stretch began; so the time before an earlier
   latch does not count again, and zero commands in between change nothing.
   */
  lemma StallLatchesIff(cfg: Config, events: seq<StallEvent>, o: Seen)
    requires !RunStall(cfg, events).latched
    ensures RunStall(cfg, events + [Look(o)]).latched <==>
      && cfg.stallEnabled && o.commanded && o.pwm > 0.1 && o.speed < 0.01
      && exists m: nat :: BeganAt(cfg, events, m) && (o.now - events[m].seen.now) * 1000.0 >= cfg.stallMs
  {
    var later := events + [Look(o)];
    assert later[..|events|] == events;
    var s := RunStall(cfg, events);
    assert RunStall(cfg, later) == StallNext(cfg, s, o);
    hide RunStall;
    if cfg.stallEnabled {
      SinceIs(cfg, events);
      forall m: nat, m': nat | BeganAt(cfg, events, m) && BeganAt(cfg, events, m') ensures m == m' {
        BeganOnce(cfg, events, m, m');
      }
      hide Stretch;
    }
  }

  /** Once latched a stall stays latched until a zero command releases it. */
  lemma StallHolds(cfg: Config, events: seq<StallEvent>, e: StallEvent)
    requires RunStall(cfg, events).latched
    ensures RunStall(cfg, events + [e]).latched <==> e.Look?
  {
    assert (events + [e])[..|events|] == events;
  }

  // ── the controller ──

  datatype Output = Output(leftPwm: real, rightPwm: real, leftFwd: bool, rightFwd: bool,
                           eStop: bool, cmdTimeout: bool, stall: bool)

  /** An output that leaves both motors off. */
  predicate Quiet(o: Output) {
    o.leftPwm == 0.0 && o.rightPwm == 0.0
  }

  predicate DutyOk(o: Output) {
    0.0 <= o.leftPwm <= 1.0 && 0.0 <= o.rightPwm <= 1.0
  }

  lemma PwmInRange(v: real, maxV: real)
    ensures 0.0 <= PwmFromVelocity(v, maxV).0 <= 1.0
  {
  }

  lemma StallStays(cfg: Config, s: Stall, o: Seen)
    ensures s.latched ==> StallNext(cfg, s, o).latched
  {
  }

  lemma InForceLive(history: seq<Command>, now: real, r: Option<Command>)
    requires InForce(history, now, r)
    ensures r.Some? ==> Live(history, now, r.value)
  {
  }

  class MotorController {
    const cfg: Config
    const arbiter: CommandArbiter
    const estop: EStopLatch
    const left: W.WheelPI
    const right: W.WheelPI
    var stall: Stall

    ghost predicate Valid()
      reads this, arbiter, left, right
    {
      arbiter.Valid() && left != right
      && W.PiInv(left.gains, left.Value()) && W.PiInv(right.gains, right.Value())
    }

    constructor (cfg: Config, maxTimeoutMs: real, gainsLeft: W.Gains, gainsRight: W.Gains)
      ensures Valid() && fresh(arbiter) && fresh(estop) && fresh(left) && fresh(right) && arbiter.clock == None
      ensures stall == Stall(false, None) && !estop.Value().Active()
    {
      this.cfg := cfg;
      arbiter := new CommandArbiter(maxTimeoutMs);
      estop := new EStopLatch();
      var l := new W.WheelPI(gainsLeft);
      var r := new W.WheelPI(gainsRight);
      left, right := l, r;
      stall := Stall(false, None);
      new;
      W.ClampNonNegative(gainsLeft);
      W.ClampNonNegative(gainsRight);
    }

    /** `_on_motion`, for a well-formed message: a zero command releases the stall latch; no command touches the e-stop. */
    method OnMotion(kind: Kind, a: real, b: real, timeoutMs: real, now: real)
      requires Valid()
      modifies this, arbiter
      ensures Valid() && arbiter.clock == old(arbiter.clock)
      ensures stall == if AbsReal(a) < 0.000001 && AbsReal(b) < 0.000001 then Released(old(stall)) else old(stall)
      ensures exists c: Command :: arbiter.history == old(arbiter.history) + [c] && c.kind == kind && c.a == a && c.b == b && c.recv == now
                                    && c.timeout == ClampTimeoutMs(timeoutMs, arbiter.maxTimeoutMs) / 1000.0
    {
      if stall.latched && AbsReal(a) < 0.000001 && AbsReal(b) < 0.000001 {
        stall := stall.(latched := false);
      }
      var c := arbiter.Store(kind, a, b, timeoutMs, now);
      assert arbiter.history == old(arbiter.history) + [c];
    }

    /** Both loops start afresh. */
    method ResetLoops()
      requires left != right
      modifies left, right
      ensures left.Value() == W.RESET && right.Value() == W.RESET
      ensures W.PiInv(left.gains, left.Value()) && W.PiInv(right.gains, right.Value())
    {
      left.Reset();
      right.Reset();
      W.ClampNonNegative(left.gains);
      W.ClampNonNegative(right.gains);
    }

    /** Duty for both wheels from a command in force. */
    method DriveWheels(c: Command, vLeft: real, vRight: real, dt: real)
      returns (lp: real, ld: bool, rp: real, rd: bool)
      requires left != right && W.PiInv(left.gains, left.Value()) && W.PiInv(right.gains, right.Value())
      modifies left, right
      ensures W.PiInv(left.gains, left.Value()) && W.PiInv(right.gains, right.Value())
      ensures 0.0 <= lp <= 1.0 && 0.0 <= rp <= 1.0
      ensures !cfg.closedLoop ==> (lp, ld) == PwmFromVelocity(WheelSpeeds(cfg, c).0, cfg.maxV)
                                  && (rp, rd) == PwmFromVelocity(WheelSpeeds(cfg, c).1, cfg.maxV)
      ensures cfg.closedLoop ==>
                (left.Value(), lp, ld) == W.StepPi(left.gains, old(left.Value()), WheelSpeeds(cfg, c).0, vLeft, dt, cfg.maxV)
                && (right.Value(), rp, rd) == W.StepPi(right.gains, old(right.Value()), WheelSpeeds(cfg, c).1, vRight, dt, cfg.maxV)
    {
      hide W.StepPi, W.IntegClamp, PwmFromVelocity, WheelSpeeds;
      var (vl, vr) := WheelSpeeds(cfg, c);
      if cfg.closedLoop {
        W.StepPiKeeps(left.gains, left.Value(), vl, vLeft, dt, cfg.maxV);
        lp, ld := left.Step(vl, vLeft, dt, cfg.maxV);
        W.StepPiKeeps(right.gains, right.Value(), vr, vRight, dt, cfg.maxV);
        rp, rd := right.Step(vr, vRight, dt, cfg.maxV);
      } else {
        PwmInRange(vl, cfg.maxV);
        PwmInRange(vr, cfg.maxV);
        lp, ld := PwmFromVelocity(vl, cfg.maxV).0, PwmFromVelocity(vl, cfg.maxV).1;
        rp, rd := PwmFromVelocity(vr, cfg.maxV).0, PwmFromVelocity(vr, cfg.maxV).1;
      }
    }

    /**
     The decision part of `tick`: pick the command in force, drive unless an
     e-stop or a stall forbids it, watch for a stall.
     */
    method Tick(now: real, vLeft: real, vRight: real, dt: real) returns (out: Output, ghost active: Option<Command>, ghost drive: real)
      requires Valid() && arbiter.Due(now)
      modifies this, arbiter, left, right
      ensures Valid() && arbiter.clock == Some(now) && arbiter.history == old(arbiter.history)
      ensures InForce(arbiter.history, now, active)
      ensures DutyOk(out)
      ensures !Quiet(out) ==> active.Some? && Live(arbiter.history, now, active.value)
                              && !estop.Value().Active() && !old(stall).latched && !stall.latched
      ensures out.eStop == estop.Value().Active() && out.stall == stall.latched
      ensures out.cmdTimeout <==> !estop.Value().Active() && active.None?
      ensures Quiet(out) || stall.latched || !(estop.Value().Active() || active.None?)
      ensures estop.Value().Active() || active.None? || stall.latched ==>
                left.Value() == W.RESET && right.Value() == W.RESET
      ensures stall == StallNext(cfg, old(stall), Seen(now, !estop.Value().Active() && active.Some?, drive,
                                                       MaxReal(AbsReal(vLeft), AbsReal(vRight))))
      ensures !stall.latched ==> drive == MaxReal(out.leftPwm, out.rightPwm)
      ensures !estop.Value().Active() && active.Some? && !stall.latched && !cfg.closedLoop ==>
                var (vl, vr) := WheelSpeeds(cfg, active.value);
                (out.leftPwm, out.leftFwd) == PwmFromVelocity(vl, cfg.maxV)
                && (out.rightPwm, out.rightFwd) == PwmFromVelocity(vr, cfg.maxV)
      ensures !estop.Value().Active() && active.Some? && !stall.latched && cfg.closedLoop ==>
                var (vl, vr) := WheelSpeeds(cfg, active.value);
                (left.Value(), out.leftPwm, out.leftFwd) == W.StepPi(left.gains, old(left.Value()), vl, vLeft, dt, cfg.maxV)
                && (right.Value(), out.rightPwm, out.rightFwd) == W.StepPi(right.gains, old(right.Value()), vr, vRight, dt, cfg.maxV)
    {
      hide InForce, StallNext, W.PiInv, W.StepPi, WheelSpeeds, PwmFromVelocity;
      var cmd := arbiter.Select(now);
      active := cmd;
      var eStop := estop.latched || estop.statusEStop;
      var lp, ld, rp, rd := 0.0, true, 0.0, true;
      if !eStop && cmd.Some? {
        lp, ld, rp, rd := DriveWheels(cmd.value, vLeft, vRight, dt);
      } else {
        ResetLoops();
      }
      drive := MaxReal(lp, rp);
      stall := StallNext(cfg, stall, Seen(now, !eStop && cmd.Some?, MaxReal(lp, rp), MaxReal(AbsReal(vLeft), AbsReal(vRight))));
      if stall.latched {
        lp, rp, ld, rd := 0.0, 0.0, true, true;
        ResetLoops();
      }
      out := Output(lp, rp, ld, rd, eStop, !eStop && cmd.None?, stall.latched);
      StallStays(cfg, old(stall), Seen(now, !eStop && cmd.Some?, drive, MaxReal(AbsReal(vLeft), AbsReal(vRight))));
      InForceLive(arbiter.history, now, active);
    }
  }
}
