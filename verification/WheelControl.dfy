/** `CommandArbiter` of body/lib/wheel_control.py: which motion command is in force. */
module Arbiter {
  import opened Numbers
  import opened Options

  const CMD_TIMEOUT_MIN_MS: real := 50.0

  function ClampTimeoutMs(timeoutMs: real, maxMs: real): real {
    MinReal(MaxReal(CMD_TIMEOUT_MIN_MS, maxMs), MaxReal(CMD_TIMEOUT_MIN_MS, timeoutMs))
  }

  datatype Kind = Twist | Direct

  datatype Command = Command(kind: Kind, a: real, b: real, recv: real, timeout: real) {
    predicate Expired(now: real) {
      now - recv > timeout
    }
  }

  /** No command outlives its own timeout, the configured maximum, or the 50 ms floor, whichever decides. */
  lemma TimeoutBounds(timeoutMs: real, maxMs: real)
    ensures var t := ClampTimeoutMs(timeoutMs, maxMs);
            50.0 <= t && (maxMs >= 50.0 ==> t <= maxMs)
            && (50.0 <= timeoutMs <= maxMs ==> t == timeoutMs)
  {
  }

  // ── what the history says ──

  /** The last command of a kind in the whole history. */
  function LastOf(history: seq<Command>, kind: Kind): Option<Command> {
    if history == [] then None
    else if history[|history| - 1].kind == kind then Some(history[|history| - 1])
    else LastOf(history[..|history| - 1], kind)
  }

  /** The last of its kind, and not expired. */
  predicate Live(history: seq<Command>, now: real, c: Command) {
    LastOf(history, c.kind) == Some(c) && now - c.recv <= c.timeout
  }

  /** The command in force: live, and no live one was received later. */
  predicate InForce(history: seq<Command>, now: real, r: Option<Command>) {
    if r.None? then forall k: Kind :: LastOf(history, k).Some? ==> !Live(history, now, LastOf(history, k).value)
    else Live(history, now, r.value)
         && forall k: Kind :: LastOf(history, k).Some? && Live(history, now, LastOf(history, k).value) ==>
              LastOf(history, k).value.recv <= r.value.recv
  }

  lemma {:induction false} LastOfKind(history: seq<Command>, kind: Kind)
    ensures LastOf(history, kind).Some? ==> LastOf(history, kind).value.kind == kind && LastOf(history, kind).value in history
    ensures LastOf(history, kind).None? ==> forall c :: c in history ==> c.kind != kind
  {
    if history != [] && history[|history| - 1].kind != kind {
      LastOfKind(history[..|history| - 1], kind);
      assert history == history[..|history| - 1] + [history[|history| - 1]];
    }
  }

  /** Two answers can only differ when two live commands arrived at the same instant. */
  lemma InForceUnique(history: seq<Command>, now: real, r: Option<Command>, r': Option<Command>)
    requires InForce(history, now, r) && InForce(history, now, r')
    requires LastOf(history, Twist).Some? && LastOf(history, Direct).Some? ==>
               LastOf(history, Twist).value.recv != LastOf(history, Direct).value.recv
    ensures r == r'
  {
    LastOfKind(history, Twist);
    LastOfKind(history, Direct);
    assert r.Some? ==> r.value.kind == Twist || r.value.kind == Direct;
  }

  /** With no command as young as the longest timeout allowed, none is in force. */
  lemma SilenceStops(history: seq<Command>, now: real, maxMs: real, r: Option<Command>)
    requires InForce(history, now, r)
    requires forall c :: c in history ==> c.timeout * 1000.0 <= MaxReal(50.0, maxMs) < (now - c.recv) * 1000.0
    ensures r.None?
  {
    if r.Some? {
      LastOfKind(history, r.value.kind);
    }
  }

  // ── the arbiter ──

  /** `dict.__setitem__`: replace in place, or append. */
  function Put(cmds: seq<Command>, c: Command): seq<Command> {
    if cmds == [] then [c]
    else if cmds[0].kind == c.kind then [c] + cmds[1..]
    else [cmds[0]] + Put(cmds[1..], c)
  }

  /** The stored commands that have not expired, in insertion order. */
  function Unexpired(cmds: seq<Command>, now: real): seq<Command> {
    if cmds == [] then []
    else (if cmds[0].Expired(now) then [] else [cmds[0]]) + Unexpired(cmds[1..], now)
  }

  /** One entry per kind. */
  predicate Distinct(cmds: seq<Command>) {
    forall i, j :: 0 <= i < j < |cmds| ==> cmds[i].kind != cmds[j].kind
  }

  lemma {:induction false} PutMembers(cmds: seq<Command>, c: Command)
    requires Distinct(cmds)
    ensures Distinct(Put(cmds, c))
    ensures forall x :: x in Put(cmds, c) <==> x == c || (x in cmds && x.kind != c.kind)
  {
    if cmds != [] && cmds[0].kind != c.kind {
      PutMembers(cmds[1..], c);
    }
  }

  lemma {:induction false} UnexpiredMembers(cmds: seq<Command>, now: real)
    ensures forall x :: x in Unexpired(cmds, now) <==> x in cmds && !x.Expired(now)
    ensures Distinct(cmds) ==> Distinct(Unexpired(cmds, now))
  {
    if cmds != [] {
      UnexpiredMembers(cmds[1..], now);
      var rest := Unexpired(cmds[1..], now);
      if Distinct(cmds) {
        assert Distinct(cmds[1..]);
        forall j | 0 <= j < |rest| ensures rest[j].kind != cmds[0].kind {
          assert rest[j] in cmds[1..];
        }
      }
    }
  }

  class CommandArbiter {
    const maxTimeoutMs: real
    var cmds: seq<Command>
    /** Everything stored since the last clear, and when a command was last selected. */
    ghost var history: seq<Command>
    ghost var clock: Option<real>

    /** The stored commands are the last of their kind; a missing one has expired. */
    ghost predicate Valid()
      reads this
    {
      && Distinct(cmds)
      && (forall c :: c in cmds ==> LastOf(history, c.kind) == Some(c))
      && (forall k: Kind :: LastOf(history, k).Some? && LastOf(history, k).value !in cmds ==>
            clock.Some? && LastOf(history, k).value.Expired(clock.value))
    }

    /** The selecting thread's own times do not go back; a stored command's may lie before or after them. */
    ghost predicate Due(now: real)
      reads this
    {
      clock.Some? ==> clock.value <= now
    }

    constructor (maxTimeoutMs: real)
      ensures Valid() && history == [] && clock == None && this.maxTimeoutMs == maxTimeoutMs
    {
      this.maxTimeoutMs := maxTimeoutMs;
      cmds, history, clock := [], [], None;
    }

    method Store(kind: Kind, a: real, b: real, timeoutMs: real, now: real) returns (cmd: Command)
      requires Valid()
      modifies this
      ensures Valid() && clock == old(clock)
      ensures cmd == Command(kind, a, b, now, ClampTimeoutMs(timeoutMs, maxTimeoutMs) / 1000.0)
      ensures history == old(history) + [cmd]
    {
      cmd := Command(kind, a, b, now, ClampTimeoutMs(timeoutMs, maxTimeoutMs) / 1000.0);
      PutMembers(cmds, cmd);
      cmds := Put(cmds, cmd);
      history := history + [cmd];
      assert history[..|history| - 1] == old(history);
      forall k: Kind ensures LastOf(history, k) == if k == kind then Some(cmd) else LastOf(old(history), k) {
        LastOfKind(old(history), k);
      }
      forall k: Kind | LastOf(history, k).Some? && LastOf(history, k).value !in cmds
        ensures clock.Some? && LastOf(history, k).value.Expired(clock.value)
      {
        LastOfKind(old(history), k);
        assert k != kind && LastOf(old(history), k).value !in old(cmds);
      }
    }

    /** Expired commands are dropped as they are found; the answer is that of the whole history. */
    method Select(now: real) returns (r: Option<Command>)
      requires Valid() && Due(now)
      modifies this
      ensures Valid() && clock == Some(now) && history == old(history)
      ensures InForce(history, now, r)
    {
      UnexpiredMembers(cmds, now);
      cmds := Unexpired(cmds, now);
      clock := Some(now);
      if cmds == [] {
        return None;
      }
      var best := cmds[0];
      for i := 1 to |cmds|
        invariant best in cmds && forall j :: 0 <= j < i ==> cmds[j].recv <= best.recv
      {
        if cmds[i].recv > best.recv {
          best := cmds[i];
        }
      }
      r := Some(best);
      forall k: Kind | LastOf(history, k).Some? && !LastOf(history, k).value.Expired(now)
        ensures LastOf(history, k).value.recv <= best.recv
      {
        assert LastOf(history, k).value in cmds;
      }
    }

    method Clear()
      requires Valid()
      modifies this
      ensures Valid() && history == [] && clock == old(clock)
    {
      cmds, history := [], [];
    }
  }
}

/** `WheelPI` of body/lib/wheel_control.py: the per-wheel velocity loop. */
module Wheel {
  import opened Numbers
  import opened Options

  const MAX_INTEGRATION_DT_S: real := 0.1

  datatype Gains = Gains(
    kp: real, ki: real, integLimit: real, minDrivePwm: real,
    kineticThreshold: real, kickRampTicks: int, kineticPwm: real, staticThreshold: Option<real>,
    confirmTicks: int, integMaxDuty: real, escalationPerS: real)

  datatype State = State(integ: real, kickTicks: nat, moving: bool, escalation: real, regimeCount: nat, lastSign: real)

  /** `reset` */
  const RESET: State := State(0.0, 0, false, 0.0, 0, 0.0)

  function Clip(x: real, lo: real, hi: real): real {
    MinReal(hi, MaxReal(lo, x))
  }

  /** `_integ_clamp` */
  function IntegClamp(g: Gains): real {
    var lim := AbsReal(g.integLimit);
    if g.ki > 0.0 && g.integMaxDuty >= 0.0 then MinReal(lim, g.integMaxDuty / g.ki) else lim
  }

  function StaticThreshold(g: Gains): real {
    if g.staticThreshold.Some? then g.staticThreshold.value else 0.5 * g.kineticThreshold
  }

  /** `_update_regime` */
  function UpdateRegime(g: Gains, s: State, along: real): State {
    var n := if g.confirmTicks > 1 then g.confirmTicks else 1;
    if s.moving then
      if along >= StaticThreshold(g) then s.(regimeCount := 0)
      else if s.regimeCount + 1 >= n
      then s.(moving := false, regimeCount := 0, kickTicks := 0, escalation := 0.0)
      else s.(regimeCount := s.regimeCount + 1)
    else
      if along < g.kineticThreshold then s.(regimeCount := 0)
      else if s.regimeCount + 1 >= n then s.(moving := true, regimeCount := 0)
      else s.(regimeCount := s.regimeCount + 1)
  }

  function SignOf(v: real): real {
    if v > 0.0 then 1.0 else -1.0
  }

  /** Measured speed along the commanded direction. */
  function AlongCommand(vCmd: real, vMeas: real): real {
    vMeas * SignOf(vCmd)
  }

  /** A reversed command drops what was wound up for the old direction; then the regime is updated. */
  function Prepare(g: Gains, s: State, vCmd: real, vMeas: real): State {
    var sign := SignOf(vCmd);
    var s1 := if s.lastSign != 0.0 && sign != s.lastSign then RESET else s;
    UpdateRegime(g, s1.(lastSign := sign), AlongCommand(vCmd, vMeas))
  }

  function Gained(k: real, x: real): real {
    k * x
  }

  /** The duty the command calls for by itself. */
  function FeedForward(g: Gains, vCmd: real, maxV: real): real
    requires maxV > 0.0
  {
    var kin := Clip(g.kineticPwm, 0.0, 1.0);
    SignOf(vCmd) * (kin + AbsReal(vCmd) * (1.0 - kin) / maxV)
  }

  /** The unsaturated output before the kick floor. */
  function Drive(g: Gains, vCmd: real, vMeas: real, maxV: real, integCand: real): real
    requires maxV > 0.0
  {
    FeedForward(g, vCmd, maxV) + Gained(g.kp, vCmd - vMeas) + Gained(g.ki, integCand)
  }

  /** The share of the kick floor reached by this tick of the ramp. */
  function Ramp(g: Gains, ticks: nat): real {
    var n := if g.kickRampTicks > 1 then g.kickRampTicks else 1;
    MinReal(1.0, ticks as real / n as real)
  }

  /** The escalation a tick later. */
  function Escalated(g: Gains, escalation: real, dt: real): real {
    MinReal(MaxReal(0.0, g.integMaxDuty), escalation + g.escalationPerS * dt)
  }

  function FloorAt(g: Gains, share: real, escalation: real): real {
    g.minDrivePwm * share + escalation
  }

  /** The kick floor raises `pwm` to the breakaway duty while the wheel is static. */
  function Kick(g: Gains, s: State, sign: real, dt: real, pwm: real): (State, real, bool) {
    if s.moving || g.minDrivePwm <= 0.0 then (s, pwm, false)
    else
      var frac := Ramp(g, s.kickTicks + 1);
      var esc := if frac >= 1.0 && g.escalationPerS > 0.0
                 then Escalated(g, s.escalation, dt) else s.escalation;
      var floor := FloorAt(g, frac, esc);
      var s1 := s.(kickTicks := s.kickTicks + 1, escalation := esc);
      if pwm * sign < floor then (s1, sign * floor, frac < 1.0 || g.escalationPerS > 0.0) else (s1, pwm, false)
  }

  predicate ZeroCommand(vCmd: real, maxV: real) {
    maxV <= 0.0 || AbsReal(vCmd) < 0.000001
  }

  /** What a late tick may integrate at most. */
  function CappedDt(dt: real): real {
    MinReal(MaxReal(0.0, dt), MAX_INTEGRATION_DT_S)
  }

  function Advance(integ: real, err: real, dt: real): real {
    integ + err * dt
  }

  /** The integral this step would move to. */
  function Candidate(g: Gains, s: State, vCmd: real, vMeas: real, dt: real): real {
    var lim := IntegClamp(g);
    Clip(Advance(Prepare(g, s, vCmd, vMeas).integ, vCmd - vMeas, CappedDt(dt)), -lim, lim)
  }

  /** The state and output after the kick floor, before saturation. */
  function Raw(g: Gains, s: State, vCmd: real, vMeas: real, dt: real, maxV: real): (State, real, bool)
    requires maxV > 0.0
  {
    Kick(g, Prepare(g, s, vCmd, vMeas), SignOf(vCmd), CappedDt(dt),
         Drive(g, vCmd, vMeas, maxV, Candidate(g, s, vCmd, vMeas, dt)))
  }

  /** `step`: the new state, the duty, and whether the direction is forward. */
  function StepPi(g: Gains, s: State, vCmd: real, vMeas: real, dt: real, maxV: real): (State, real, bool) {
    if ZeroCommand(vCmd, maxV) then (RESET, 0.0, true)
    else
      var (s2, pwm, holding) := Raw(g, s, vCmd, vMeas, dt, maxV);
      var saturated := AbsReal(pwm) > 1.0 && pwm * (vCmd - vMeas) > 0.0;
      var s3 := if !holding && !saturated then s2.(integ := Candidate(g, s, vCmd, vMeas, dt)) else s2;
      var duty := Clip(pwm, -1.0, 1.0);
      (s3, AbsReal(duty), duty >= 0.0)
  }

  // ── what every run keeps ──

  predicate PiInv(g: Gains, s: State) {
    -IntegClamp(g) <= s.integ <= IntegClamp(g) && 0.0 <= s.escalation <= MaxReal(0.0, g.integMaxDuty)
  }

  lemma ClampNonNegative(g: Gains)
    ensures IntegClamp(g) >= 0.0
    ensures g.ki > 0.0 && g.integMaxDuty >= 0.0 ==> IntegClamp(g) <= g.integMaxDuty / g.ki
  {
    if g.ki > 0.0 && g.integMaxDuty >= 0.0 {
      assert g.integMaxDuty / g.ki >= 0.0;
    }
  }

  lemma RegimeKeeps(g: Gains, s: State, vCmd: real, vMeas: real)
    requires PiInv(g, s)
    ensures PiInv(g, Prepare(g, s, vCmd, vMeas))
  {
    ClampNonNegative(g);
  }

  lemma KickKeeps(g: Gains, s: State, sign: real, dt: real, pwm: real)
    requires PiInv(g, s) && dt >= 0.0
    ensures PiInv(g, Kick(g, s, sign, dt, pwm).0)
  {
    hide Ramp, IntegClamp;
    if g.escalationPerS > 0.0 {
      assert g.escalationPerS * dt >= 0.0;
    }
  }

  lemma RawKeeps(g: Gains, s: State, vCmd: real, vMeas: real, dt: real, maxV: real)
    requires PiInv(g, s) && maxV > 0.0
    ensures PiInv(g, Raw(g, s, vCmd, vMeas, dt, maxV).0)
    ensures -IntegClamp(g) <= Candidate(g, s, vCmd, vMeas, dt) <= IntegClamp(g)
  {
    ClampNonNegative(g);
    hide IntegClamp, Drive, Kick, Prepare;
    RegimeKeeps(g, s, vCmd, vMeas);
    KickKeeps(g, Prepare(g, s, vCmd, vMeas), SignOf(vCmd), CappedDt(dt),
              Drive(g, vCmd, vMeas, maxV, Candidate(g, s, vCmd, vMeas, dt)));
  }

  /** Every step keeps the integral and the escalation inside their clamps, and the duty in [0, 1]. */
  lemma StepPiKeeps(g: Gains, s: State, vCmd: real, vMeas: real, dt: real, maxV: real)
    requires PiInv(g, s)
    ensures PiInv(g, StepPi(g, s, vCmd, vMeas, dt, maxV).0)
    ensures 0.0 <= StepPi(g, s, vCmd, vMeas, dt, maxV).1 <= 1.0
  {
    hide IntegClamp, Raw, Candidate;
    ClampNonNegative(g);
    if !ZeroCommand(vCmd, maxV) {
      RawKeeps(g, s, vCmd, vMeas, dt, maxV);
    }
  }

  datatype Input = Input(vCmd: real, vMeas: real, dt: real, maxV: real)

  function RunPi(g: Gains, inputs: seq<Input>): State {
    if inputs == [] then RESET
    else
      var i := inputs[|inputs| - 1];
      StepPi(g, RunPi(g, inputs[..|inputs| - 1]), i.vCmd, i.vMeas, i.dt, i.maxV).0
  }

  lemma {:induction false} RunPiInv(g: Gains, inputs: seq<Input>)
    ensures PiInv(g, RunPi(g, inputs))
  {
    hide StepPi, IntegClamp;
    ClampNonNegative(g);
    if inputs != [] {
      var i := inputs[|inputs| - 1];
      RunPiInv(g, inputs[..|inputs| - 1]);
      StepPiKeeps(g, RunPi(g, inputs[..|inputs| - 1]), i.vCmd, i.vMeas, i.dt, i.maxV);
    }
  }

  lemma Authority(ki: real, integ: real, share: real)
    requires ki > 0.0 && -(share / ki) <= integ <= share / ki
    ensures -share <= ki * integ <= share
  {
    var b := share / ki;
    assert ki * b == share;
    assert ki * (b - integ) >= 0.0 && ki * (b + integ) >= 0.0;
  }

  /** Over every run the integral's duty authority stays within the configured share. */
  lemma RunPiKeeps(g: Gains, inputs: seq<Input>)
    ensures -AbsReal(g.integLimit) <= RunPi(g, inputs).integ <= AbsReal(g.integLimit)
    ensures g.ki > 0.0 && g.integMaxDuty >= 0.0 ==>
              -g.integMaxDuty <= g.ki * RunPi(g, inputs).integ <= g.integMaxDuty
  {
    RunPiInv(g, inputs);
    hide RunPi;
    if g.ki > 0.0 && g.integMaxDuty >= 0.0 {
      ClampNonNegative(g);
      Authority(g.ki, RunPi(g, inputs).integ, g.integMaxDuty);
    }
  }

  /** After a reversal nothing of the old direction is left: the step is that of a fresh loop. */
  lemma ReversalForgets(g: Gains, s: State, vCmd: real, vMeas: real, dt: real, maxV: real)
    requires s.lastSign != 0.0 && s.lastSign != SignOf(vCmd)
    ensures StepPi(g, s, vCmd, vMeas, dt, maxV) == StepPi(g, RESET, vCmd, vMeas, dt, maxV)
  {
    assert Prepare(g, s, vCmd, vMeas) == Prepare(g, RESET, vCmd, vMeas);
  }

  lemma KickCounts(g: Gains, s: State, sign: real, dt: real, pwm: real)
    requires g.minDrivePwm > 0.0
    ensures var s' := Kick(g, s, sign, dt, pwm).0; s'.moving == s.moving && (!s.moving ==> s'.kickTicks == s.kickTicks + 1)
  {
  }

  lemma KickFloor(g: Gains, s: State, sign: real, dt: real, pwm: real)
    requires g.minDrivePwm > 0.0 && !s.moving && s.kickTicks + 1 >= g.kickRampTicks && s.escalation >= 0.0 && dt >= 0.0
    requires sign == 1.0 || sign == -1.0
    ensures var (s', out, _) := Kick(g, s, sign, dt, pwm); out * sign >= g.minDrivePwm && s'.kickTicks == s.kickTicks + 1 && !s'.moving
  {
    var n := if g.kickRampTicks > 1 then g.kickRampTicks else 1;
    assert (s.kickTicks + 1) as real / n as real >= 1.0;
    if g.escalationPerS > 0.0 { assert g.escalationPerS * dt >= 0.0; }
  }

  lemma RawFloor(g: Gains, s: State, vCmd: real, vMeas: real, dt: real, maxV: real)
    requires PiInv(g, s) && maxV > 0.0 && g.minDrivePwm > 0.0
    requires var s' := Raw(g, s, vCmd, vMeas, dt, maxV).0; !s'.moving && s'.kickTicks >= g.kickRampTicks
    ensures Raw(g, s, vCmd, vMeas, dt, maxV).1 * SignOf(vCmd) >= g.minDrivePwm
  {
    RegimeKeeps(g, s, vCmd, vMeas);
    hide IntegClamp, Drive, Prepare, Candidate;
    var s1 := Prepare(g, s, vCmd, vMeas);
    var pwm := Drive(g, vCmd, vMeas, maxV, Candidate(g, s, vCmd, vMeas, dt));
    KickCounts(g, s1, SignOf(vCmd), CappedDt(dt), pwm);
    KickFloor(g, s1, SignOf(vCmd), CappedDt(dt), pwm);
  }

  /** Once the kick ramp is over, a wheel still static is driven at least at breakaway duty, the commanded way. */
  lemma BreakawayFloor(g: Gains, s: State, vCmd: real, vMeas: real, dt: real, maxV: real)
    requires PiInv(g, s) && !ZeroCommand(vCmd, maxV) && g.minDrivePwm > 0.0
    requires var s' := StepPi(g, s, vCmd, vMeas, dt, maxV).0; !s'.moving && s'.kickTicks >= g.kickRampTicks
    ensures var (s', duty, fwd) := StepPi(g, s, vCmd, vMeas, dt, maxV);
            duty >= MinReal(1.0, g.minDrivePwm) && (fwd <==> vCmd > 0.0)
  {
    RawFloor(g, s, vCmd, vMeas, dt, maxV);
    hide Raw, Candidate;
  }

  // ── the loop's output ──

  /**
   The output is feed-forward plus proportional plus integral: at the commanded
   speed with nothing wound up it is the kinetic duty and a share of the rest in
   proportion to the speed, all of it at top speed; it falls by kp for every unit of
   measured speed and rises by ki for every unit of the integral.
   */
  lemma OutputIs(g: Gains, vCmd: real, vMeas: real, maxV: real, integ: real)
    requires maxV > 0.0
    ensures var kin := if g.kineticPwm < 0.0 then 0.0 else if g.kineticPwm > 1.0 then 1.0 else g.kineticPwm;
      Drive(g, vCmd, vCmd, maxV, 0.0) * SignOf(vCmd) * maxV == kin * maxV + AbsReal(vCmd) * (1.0 - kin)
    ensures Drive(g, vCmd, vMeas, maxV, integ) == Drive(g, vCmd, vCmd, maxV, 0.0) + g.kp * (vCmd - vMeas) + g.ki * integ
  {
    var kin := Clip(g.kineticPwm, 0.0, 1.0);
    var share := AbsReal(vCmd) * (1.0 - kin);
    assert (share / maxV) * maxV == share;
    assert (kin + share / maxV) * maxV == kin * maxV + share;
    assert g.kp * (vCmd - vCmd) == 0.0 && g.ki * 0.0 == 0.0;
  }

  lemma TimesGrows(k: real, x: real, y: real)
    requires k >= 0.0 && x <= y
    ensures k * x <= k * y && Gained(k, x) <= Gained(k, y)
  {
    assert k * (y - x) >= 0.0;
  }

  lemma AdvanceGrows(integ: real, err: real, err': real, dt: real)
    requires dt >= 0.0 && err <= err'
    ensures Advance(integ, err, dt) <= Advance(integ, err', dt)
  {
    TimesGrows(dt, err, err');
  }

  lemma PrepareIgnoresSpeed(g: Gains, s: State, vCmd: real, vMeas: real, vMeas': real)
    ensures Prepare(g, s, vCmd, vMeas).integ == Prepare(g, s, vCmd, vMeas').integ
  {
  }

  lemma CandidateGrows(g: Gains, s: State, vCmd: real, vMeas: real, vMeas': real, dt: real)
    requires vMeas' <= vMeas
    ensures Candidate(g, s, vCmd, vMeas, dt) <= Candidate(g, s, vCmd, vMeas', dt)
  {
    PrepareIgnoresSpeed(g, s, vCmd, vMeas, vMeas');
    AdvanceGrows(Prepare(g, s, vCmd, vMeas).integ, vCmd - vMeas, vCmd - vMeas', CappedDt(dt));
    hide Prepare, CappedDt, IntegClamp, Advance;
  }

  /** The feedback acts against the error: the slower the wheel is found, the same command given, the higher the output. */
  lemma FeedbackOpposes(g: Gains, s: State, vCmd: real, vMeas: real, vMeas': real, dt: real, maxV: real)
    requires maxV > 0.0 && g.kp >= 0.0 && g.ki >= 0.0 && vMeas' <= vMeas
    ensures Drive(g, vCmd, vMeas, maxV, Candidate(g, s, vCmd, vMeas, dt)) <= Drive(g, vCmd, vMeas', maxV, Candidate(g, s, vCmd, vMeas', dt))
  {
    CandidateGrows(g, s, vCmd, vMeas, vMeas', dt);
    TimesGrows(g.kp, vCmd - vMeas, vCmd - vMeas');
    TimesGrows(g.ki, Candidate(g, s, vCmd, vMeas, dt), Candidate(g, s, vCmd, vMeas', dt));
    hide Candidate, FeedForward, Gained;
  }

  // ── one step of the loop ──

  /** The command turns the wheel the other way than the last one did. */
  predicate Reverses(s: State, vCmd: real) {
    (s.lastSign > 0.0 && vCmd < 0.0) || (s.lastSign < 0.0 && vCmd > 0.0)
  }

  /** The last direction is one of the two, or none yet. */
  predicate Signed(s: State) {
    s.lastSign == 1.0 || s.lastSign == -1.0 || s.lastSign == 0.0
  }

  /** A reversed command starts from a fresh loop, any other one from where the loop stood; either way the direction is kept in mind. */
  lemma Starts(g: Gains, s: State, vCmd: real, vMeas: real)
    requires Signed(s) && vCmd != 0.0
    ensures var s0 := if Reverses(s, vCmd) then RESET else s;
      && Prepare(g, s, vCmd, vMeas) == UpdateRegime(g, s0.(lastSign := if vCmd > 0.0 then 1.0 else -1.0), if vCmd > 0.0 then vMeas else -vMeas)
      && Prepare(g, s, vCmd, vMeas).integ == s0.integ
  {
  }

  /** The ramp rises evenly over its ticks, and then is done. */
  lemma RampIs(g: Gains, ticks: nat)
    requires ticks > 0
    ensures Ramp(g, ticks) >= 1.0 <==> ticks >= g.kickRampTicks
    ensures Ramp(g, ticks) * Max(1, g.kickRampTicks) as real == MinReal(Max(1, g.kickRampTicks) as real, ticks as real)
  {
    var n := if g.kickRampTicks > 1 then g.kickRampTicks else 1;
    assert (ticks as real / n as real) * n as real == ticks as real;
    TimesMonotone(ticks as real / n as real, 1.0, n as real);
    TimesMonotone(1.0, ticks as real / n as real, n as real);
  }

  /**
   The kick: while the wheel is static its output is raised to the floor, never
   lowered. The floor is the breakaway duty times the share of the ramp done, and
   above that what has been added, so much a second up to the integral's share,
   since the ramp was done.
   */
  lemma KickIs(g: Gains, s: State, sign: real, dt: real, pwm: real)
    requires sign == 1.0 || sign == -1.0
    ensures var (s', out, holding) := Kick(g, s, sign, dt, pwm);
      var done := s.kickTicks + 1 >= g.kickRampTicks;
      var floor := g.minDrivePwm * Ramp(g, s.kickTicks + 1) + s'.escalation;
      if s.moving || g.minDrivePwm <= 0.0 then s' == s && out == pwm && !holding
      else
        && s' == s.(kickTicks := s.kickTicks + 1, escalation := s'.escalation)
        && (done && g.escalationPerS > 0.0 ==>
              s'.escalation == MinReal(MaxReal(0.0, g.integMaxDuty), s.escalation + g.escalationPerS * dt))
        && (!done || g.escalationPerS <= 0.0 ==> s'.escalation == s.escalation)
        && out * sign == MaxReal(floor, pwm * sign)
        && (holding <==> pwm * sign < floor && (!done || g.escalationPerS > 0.0))
  {
    RampIs(g, s.kickTicks + 1);
    var s' := Kick(g, s, sign, dt, pwm).0;
    assert FloorAt(g, Ramp(g, s.kickTicks + 1), s'.escalation) == g.minDrivePwm * Ramp(g, s.kickTicks + 1) + s'.escalation;
    assert Escalated(g, s.escalation, dt) == MinReal(MaxReal(0.0, g.integMaxDuty), s.escalation + g.escalationPerS * dt);
    hide Ramp, Escalated, FloorAt, MinReal;
    if sign == 1.0 { assert pwm * sign == pwm; } else { assert pwm * sign == -pwm; }
  }

  lemma SameSide(x: real, y: real)
    ensures x * y > 0.0 <==> (x > 0.0 && y > 0.0) || (x < 0.0 && y < 0.0)
  {
  }

  /** A zero command, or none that can be carried out, gives no duty and a fresh loop. */
  lemma ZeroStops(g: Gains, s: State, vCmd: real, vMeas: real, dt: real, maxV: real)
    requires maxV <= 0.0 || -0.000001 < vCmd < 0.000001
    ensures StepPi(g, s, vCmd, vMeas, dt, maxV) == (State(0.0, 0, false, 0.0, 0, 0.0), 0.0, true)
  {
  }

  /**
   One step: the duty is the output cut to [-1, 1], and its sign the direction. The
   integral moves to its candidate unless the kick floor holds the output up or the
   output is saturated on the side of the error; then it stays.
   */
  lemma StepIs(g: Gains, s: State, vCmd: real, vMeas: real, dt: real, maxV: real)
    requires maxV > 0.0 && (vCmd >= 0.000001 || vCmd <= -0.000001)
    ensures var (s', duty, fwd) := StepPi(g, s, vCmd, vMeas, dt, maxV);
      var (s1, pwm, holding) := Raw(g, s, vCmd, vMeas, dt, maxV);
      var cut := (pwm > 1.0 && vCmd > vMeas) || (pwm < -1.0 && vCmd < vMeas);
      && duty == MinReal(1.0, AbsReal(pwm)) && (fwd <==> pwm >= 0.0)
      && s' == s1.(integ := if holding || cut then s1.integ else Candidate(g, s, vCmd, vMeas, dt))
  {
    var pwm := Raw(g, s, vCmd, vMeas, dt, maxV).1;
    SameSide(pwm, vCmd - vMeas);
    hide Raw, Candidate;
  }

  /** The candidate: the error of at most a tenth of a second is added, cut to the clamp. */
  lemma CandidateIs(g: Gains, s: State, vCmd: real, vMeas: real, dt: real)
    requires Signed(s) && vCmd != 0.0
    ensures var lim := IntegClamp(g);
      var wound := (if Reverses(s, vCmd) then 0.0 else s.integ) + (vCmd - vMeas) * MaxReal(0.0, MinReal(0.1, dt));
      Candidate(g, s, vCmd, vMeas, dt) == if wound > lim then lim else if wound < -lim then -lim else wound
  {
    Starts(g, s, vCmd, vMeas);
    ClampNonNegative(g);
    hide Prepare, IntegClamp;
  }

  /** The integral's clamp: the configured limit, or less where its share of the duty is less. */
  lemma ClampIs(g: Gains)
    ensures IntegClamp(g) <= AbsReal(g.integLimit)
    ensures g.ki <= 0.0 || g.integMaxDuty < 0.0 || AbsReal(g.integLimit) * g.ki <= g.integMaxDuty ==> IntegClamp(g) == AbsReal(g.integLimit)
    ensures g.ki > 0.0 && 0.0 <= g.integMaxDuty < AbsReal(g.integLimit) * g.ki ==> IntegClamp(g) * g.ki == g.integMaxDuty
  {
    if g.ki > 0.0 {
      assert (g.integMaxDuty / g.ki) * g.ki == g.integMaxDuty;
      TimesMonotone(AbsReal(g.integLimit), g.integMaxDuty / g.ki, g.ki);
    }
  }

  // ── the regime's debounce ──

  /** The measured speed along the command is across the threshold that ends the regime. */
  predicate Crosses(g: Gains, moving: bool, along: real) {
    if moving then along < (if g.staticThreshold.Some? then g.staticThreshold.value else g.kineticThreshold / 2.0)
    else along >= g.kineticThreshold
  }

  function RunRegime(g: Gains, s: State, alongs: seq<real>): State {
    if alongs == [] then s else UpdateRegime(g, RunRegime(g, s, alongs[..|alongs| - 1]), alongs[|alongs| - 1])
  }

  /** How many of the readings, the last ones, are across. */
  function Across(g: Gains, moving: bool, alongs: seq<real>): nat {
    if alongs == [] || !Crosses(g, moving, alongs[|alongs| - 1]) then 0 else Across(g, moving, alongs[..|alongs| - 1]) + 1
  }

  /** No earlier reading completed the confirming run. */
  ghost predicate Unconfirmed(g: Gains, moving: bool, alongs: seq<real>) {
    forall k :: 0 <= k <= |alongs| ==> Across(g, moving, alongs[..k]) < Max(1, g.confirmTicks)
  }

  lemma RegimeStep(g: Gains, s: State, along: real)
    ensures var s', n := UpdateRegime(g, s, along), Max(1, g.confirmTicks);
      && s'.integ == s.integ && s'.lastSign == s.lastSign
      && if !Crosses(g, s.moving, along) then s' == s.(regimeCount := 0)
         else if s.regimeCount + 1 < n then s' == s.(regimeCount := s.regimeCount + 1)
         else if s.moving then s' == s.(moving := false, regimeCount := 0, kickTicks := 0, escalation := 0.0)
         else s' == s.(moving := true, regimeCount := 0)
  {
  }

  lemma UnconfirmedBefore(g: Gains, moving: bool, alongs: seq<real>)
    requires alongs != [] && Unconfirmed(g, moving, alongs)
    ensures Unconfirmed(g, moving, alongs[..|alongs| - 1])
  {
    var before := alongs[..|alongs| - 1];
    assert forall k {:trigger before[..k]} :: 0 <= k <= |before| ==> before[..k] == alongs[..k];
  }

  /**
   The regime flips with the reading that completes a run of `regime_confirm_ticks`
   readings across the threshold, and with none before; a wheel found static starts
   its kick anew.
   */
  lemma {:induction false} RegimeDebounced(g: Gains, s: State, alongs: seq<real>)
    requires s.regimeCount == 0 && alongs != [] && Unconfirmed(g, s.moving, alongs[..|alongs| - 1])
    ensures var s', n := RunRegime(g, s, alongs), Across(g, s.moving, alongs);
      if n < Max(1, g.confirmTicks) then s' == s.(regimeCount := n)
      else if s.moving then s' == s.(moving := false, regimeCount := 0, kickTicks := 0, escalation := 0.0)
      else s' == s.(moving := true, regimeCount := 0)
  {
    var n := |alongs| - 1;
    var before := alongs[..n];
    assert before[..n] == before;
    assert Across(g, s.moving, before) < Max(1, g.confirmTicks);
    if before != [] {
      UnconfirmedBefore(g, s.moving, before);
      RegimeDebounced(g, s, before);
    }
    RegimeStep(g, RunRegime(g, s, before), alongs[n]);
    hide UpdateRegime, Crosses;
  }

  // ── the object ──

  class WheelPI {
    const gains: Gains
    var integ: real
    var kickTicks: nat
    var moving: bool
    var escalation: real
    var regimeCount: nat
    var lastSign: real

    function Value(): State
      reads this
    {
      State(integ, kickTicks, moving, escalation, regimeCount, lastSign)
    }

    constructor (gains: Gains)
      ensures this.gains == gains && Value() == RESET
    {
      this.gains := gains;
      integ, kickTicks, moving, escalation, regimeCount, lastSign := 0.0, 0, false, 0.0, 0, 0.0;
    }

    method Reset()
      modifies this
      ensures Value() == RESET
    {
      integ, kickTicks, escalation, moving, regimeCount, lastSign := 0.0, 0, 0.0, false, 0, 0.0;
    }

    /** The regime debounce. */
    method UpdateRegimeInPlace(along: real)
      modifies this
      ensures Value() == UpdateRegime(gains, old(Value()), along)
    {
      var n := if gains.confirmTicks > 1 then gains.confirmTicks else 1;
      if moving {
        if along < StaticThreshold(gains) {
          regimeCount := regimeCount + 1;
          if regimeCount >= n {
            moving, regimeCount, kickTicks, escalation := false, 0, 0, 0.0;
          }
        } else {
          regimeCount := 0;
        }
      } else if along >= gains.kineticThreshold {
        regimeCount := regimeCount + 1;
        if regimeCount >= n {
          moving, regimeCount := true, 0;
        }
      } else {
        regimeCount := 0;
      }
    }

    /** The kick floor: returns the raised output and whether the floor is holding it. */
    method KickInPlace(sign: real, dt: real, pwm: real) returns (out: real, holding: bool)
      modifies this
      ensures (Value(), out, holding) == Kick(gains, old(Value()), sign, dt, pwm)
    {
      hide Ramp, Escalated, FloorAt;
      out, holding := pwm, false;
      if !moving && gains.minDrivePwm > 0.0 {
        kickTicks := kickTicks + 1;
        var frac := Ramp(gains, kickTicks);
        if frac >= 1.0 && gains.escalationPerS > 0.0 {
          escalation := Escalated(gains, escalation, dt);
        }
        var floor := FloorAt(gains, frac, escalation);
        if pwm * sign < floor {
          out := sign * floor;
          holding := frac < 1.0 || gains.escalationPerS > 0.0;
        }
      }
      assert Kick(gains, old(Value()), sign, dt, pwm).0 == Value();
      assert Kick(gains, old(Value()), sign, dt, pwm).1 == out;
      assert Kick(gains, old(Value()), sign, dt, pwm).2 == holding;
    }

    method Step(vCmd: real, vMeas: real, dt: real, maxV: real) returns (duty: real, fwd: bool)
      modifies this
      ensures (Value(), duty, fwd) == StepPi(gains, old(Value()), vCmd, vMeas, dt, maxV)
    {
      hide UpdateRegime, Kick, IntegClamp, Drive, Clip, AbsReal, MinReal, MaxReal, AlongCommand, Advance;
      if ZeroCommand(vCmd, maxV) {
        Reset();
        return 0.0, true;
      }
      ghost var s0 := Value();
      var sign := SignOf(vCmd);
      if lastSign != 0.0 && sign != lastSign {
        integ, kickTicks, escalation, moving, regimeCount := 0.0, 0, 0.0, false, 0;
      }
      lastSign := sign;
      var dtC := CappedDt(dt);
      assert Value() == (if s0.lastSign != 0.0 && sign != s0.lastSign then RESET else s0).(lastSign := sign);
      UpdateRegimeInPlace(AlongCommand(vCmd, vMeas));
      assert Value() == Prepare(gains, s0, vCmd, vMeas);
      var lim := IntegClamp(gains);
      var integCand := Clip(Advance(integ, vCmd - vMeas, dtC), -lim, lim);
      assert integCand == Candidate(gains, s0, vCmd, vMeas, dt);
      var pwm, holding := KickInPlace(sign, dtC, Drive(gains, vCmd, vMeas, maxV, integCand));
      assert (Value(), pwm, holding) == Raw(gains, s0, vCmd, vMeas, dt, maxV);
      var saturated := AbsReal(pwm) > 1.0 && pwm * (vCmd - vMeas) > 0.0;
      if !holding && !saturated {
        integ := integCand;
      }
      pwm := Clip(pwm, -1.0, 1.0);
      duty, fwd := AbsReal(pwm), pwm >= 0.0;
    }
  }
}
