/** The two e-stop latches: the watchdog's (body/watchdog.py) and the motor's (body/lib/wheel_control.py). */
module EStop {
  // ── the watchdog's latch ──

  /** `EStopState` as a value. */
  datatype Wd = Wd(active: bool, announced: bool)

  /** `update_heartbeat`: the new latch and whether to announce a heartbeat timeout. */
  function WdHeartbeat(w: Wd, hbOk: bool): (Wd, bool) {
    if hbOk then (Wd(w.active, false), false)
    else if !w.announced then (Wd(true, true), true)
    else (w, false)
  }

  /** `rearm`: the new latch and whether it was cleared. */
  function WdRearm(w: Wd, hbOk: bool): (Wd, bool) {
    if w.active && hbOk then (Wd(false, w.announced), true) else (w, false)
  }

  class EStopState {
    var eStopActive: bool
    var hbLostAnnounced: bool

    function Value(): Wd
      reads this
    {
      Wd(eStopActive, hbLostAnnounced)
    }

    constructor ()
      ensures Value() == Wd(false, false)
    {
      eStopActive := false;
      hbLostAnnounced := false;
    }

    method UpdateHeartbeat(hbOk: bool) returns (announce: bool)
      modifies this
      ensures (Value(), announce) == WdHeartbeat(old(Value()), hbOk)
    {
      if !hbOk {
        if !hbLostAnnounced {
          eStopActive := true;
          hbLostAnnounced := true;
          return true;
        }
        return false;
      }
      hbLostAnnounced := false;
      return false;
    }

    method Rearm(hbOk: bool) returns (cleared: bool)
      modifies this
      ensures (Value(), cleared) == WdRearm(old(Value()), hbOk)
    {
      if eStopActive && hbOk {
        eStopActive := false;
        return true;
      }
      return false;
    }
  }

  // ── the motor's latch ──

  /** `EStopLatch` as a value: its own latch, and the watchdog's as last reported. */
  datatype Latch = Latch(latched: bool, status: bool) {
    predicate Active() {
      latched || status
    }
  }

  function LatchEmergency(l: Latch): Latch {
    l.(latched := true)
  }

  function LatchStatus(l: Latch, eStopActive: bool): Latch {
    Latch(l.latched && !(l.status && !eStopActive), eStopActive)
  }

  function LatchRearm(l: Latch, hbOk: bool): (Latch, bool) {
    if l.latched && hbOk then (l.(latched := false), true) else (l, false)
  }

  class EStopLatch {
    var latched: bool
    var statusEStop: bool

    function Value(): Latch
      reads this
    {
      Latch(latched, statusEStop)
    }

    constructor ()
      ensures Value() == Latch(false, false)
    {
      latched := false;
      statusEStop := false;
    }

    method OnEmergencyStop()
      modifies this
      ensures latched
      ensures Value() == LatchEmergency(old(Value()))
    {
      latched := true;
    }

    method OnStatus(eStopActive: bool)
      modifies this
      ensures Value() == LatchStatus(old(Value()), eStopActive)
    {
      var was := statusEStop;
      statusEStop := eStopActive;
      if was && !statusEStop {
        latched := false;
      }
    }

    method OnRearm(heartbeatOk: bool) returns (cleared: bool)
      modifies this
      ensures (Value(), cleared) == LatchRearm(old(Value()), heartbeatOk)
    {
      if latched && heartbeatOk {
        latched := false;
        return true;
      }
      return false;
    }
  }
}

/**
 The e-stop protocol: watchdog and motor controller run in separate processes
 and talk over topics that keep their order but may delay or lose messages. The
 watchdog may be killed and started again. Every lock-protected block is one
 step, and so is the watchdog's reading of the clock, which comes before its
 lock; steps interleave in any order.
 */
module EStopProtocol {
  import opened Options
  import opened EStop

  /** A published status. `epoch` counts what had cleared the watchdog's latch by then; it is history, not on the wire. */
  datatype Status = Status(active: bool, epoch: nat, hbOk: bool)

  /** An accepted re-arm: when, and when that side had last heard a heartbeat. */
  datatype Accept = Accept(at: real, lastHb: real)

  /** What cleared the watchdog's latch: a re-arm it accepted, or its restart. */
  datatype Quieting = Rearmed(accept: Accept) | Restarted(at: real)

  /** What cleared the motor latch: the k-th re-arm the motor accepted, or the watchdog's k-th quieting. */
  datatype Cause = ByMotor(k: nat) | ByWatchdog(k: nat)

  datatype Sys = Sys(
    now: real,
    wd: Wd, wdHb: real, look: Option<real>,
    latch: Latch, motorHb: real,
    outbox: Option<(Status, bool)>,
    status: seq<Status>, emergencies: nat, rearmsToWd: nat, rearmsToMotor: nat,
    quiets: seq<Quieting>, motorAccepts: seq<Accept>, applied: nat, edges: seq<Cause>)

  datatype Action =
    | Pass(dt: real)                              // time passes
    | HeartbeatToWd | HeartbeatToMotor            // a heartbeat arrives
    | Operator                                    // the operator asks for a re-arm
    | WdLook                                      // the watchdog reads the clock
    | WdTick                                      // ... and computes a status under its lock
    | WdPublish | WdPublishFails(sent: bool)      // ... and publishes it, or fails to, maybe after the emergency stop
    | WdRestart                                   // the watchdog process starts anew
    | DesktopStop                                 // the desktop publishes an emergency stop
    | DeliverStatus | LoseStatus(i: nat)
    | DeliverEmergency | LoseEmergency
    | DeliverRearmToWd | LoseRearmToWd
    | DeliverRearmToMotor | LoseRearmToMotor
    | Motion                                      // a motion command arrives at the motor controller

  /** `_hb_ok`, on either side. */
  predicate Fresh(lastHb: real, now: real, timeout: real) {
    lastHb > 0.0 && now - lastHb < timeout
  }

  function Initial(): Sys {
    Sys(1.0, Wd(false, false), 0.0, None, Latch(false, false), 0.0, None, [], 0, 0, 0, [], [], 0, [])
  }

  /** Record an active-to-inactive edge of the motor latch. */
  function Edge(s: Sys, s': Sys, cause: Cause): Sys {
    if s.latch.Active() && !s'.latch.Active() then s'.(edges := s.edges + [cause]) else s'
  }

  function Without<T>(q: seq<T>, i: nat): seq<T>
    requires i < |q|
  {
    q[..i] + q[i + 1..]
  }

  /** The first re-arm of a stretch of quietings; without one, the last restart. */
  function FirstRearm(quiets: seq<Quieting>, from: nat, upTo: nat): (k: nat)
    requires from < upTo <= |quiets|
    ensures from <= k < upTo
    ensures quiets[k].Restarted? ==> (forall j :: from <= j < upTo ==> quiets[j].Restarted?)
    decreases |quiets| - from
  {
    if quiets[from].Rearmed? || from + 1 == upTo then from else FirstRearm(quiets, from + 1, upTo)
  }

  /** What the watchdog did between the status applied last and this one. */
  function StatusCause(s: Sys, m: Status): Cause {
    ByWatchdog(if s.applied < m.epoch <= |s.quiets| then FirstRearm(s.quiets, s.applied, m.epoch) else s.applied)
  }

  /** The watchdog's tick, by the clock it has read. */
  function Ticked(s: Sys, timeout: real): Sys
    requires s.look.Some?
  {
    var ok := Fresh(s.wdHb, s.look.value, timeout);
    var (wd, announce) := WdHeartbeat(s.wd, ok);
    s.(wd := wd, look := None, outbox := Some((Status(wd.active, |s.quiets|, ok), announce)))
  }

  /** One step; an action that is not enabled changes nothing. */
  function Step(s: Sys, a: Action, timeout: real): Sys {
    match a
    case Pass(dt) => if dt > 0.0 then s.(now := s.now + dt) else s
    case HeartbeatToWd => s.(wdHb := s.now)
    case HeartbeatToMotor => s.(motorHb := s.now)
    case Operator => s.(rearmsToWd := s.rearmsToWd + 1, rearmsToMotor := s.rearmsToMotor + 1)
    case WdLook => if s.outbox.Some? || s.look.Some? then s else s.(look := Some(s.now))
    case WdTick => if s.outbox.Some? || s.look.None? then s else Ticked(s, timeout)
    case WdPublish =>
      if s.outbox.None? then s
      else s.(outbox := None, status := s.status + [s.outbox.value.0],
              emergencies := s.emergencies + if s.outbox.value.1 then 1 else 0)
    case WdPublishFails(sent) =>
      if s.outbox.None? then s
      else s.(outbox := None, emergencies := s.emergencies + if s.outbox.value.1 && sent then 1 else 0)
    case WdRestart =>
      s.(wd := Wd(false, false), wdHb := 0.0, look := None, outbox := None, quiets := s.quiets + [Restarted(s.now)])
    case DesktopStop => s.(emergencies := s.emergencies + 1)
    case DeliverStatus =>
      if s.status == [] then s
      else
        var m := s.status[0];
        Edge(s, s.(latch := LatchStatus(s.latch, m.active), applied := m.epoch, status := s.status[1..]), StatusCause(s, m))
    case LoseStatus(i) => if i < |s.status| then s.(status := Without(s.status, i)) else s
    case DeliverEmergency =>
      if s.emergencies == 0 then s else s.(emergencies := s.emergencies - 1, latch := LatchEmergency(s.latch))
    case LoseEmergency => if s.emergencies == 0 then s else s.(emergencies := s.emergencies - 1)
    case DeliverRearmToWd =>
      if s.rearmsToWd == 0 then s
      else
        var (wd, cleared) := WdRearm(s.wd, Fresh(s.wdHb, s.now, timeout));
        s.(rearmsToWd := s.rearmsToWd - 1, wd := wd,
           quiets := if cleared then s.quiets + [Rearmed(Accept(s.now, s.wdHb))] else s.quiets)
    case LoseRearmToWd => if s.rearmsToWd == 0 then s else s.(rearmsToWd := s.rearmsToWd - 1)
    case DeliverRearmToMotor =>
      if s.rearmsToMotor == 0 then s
      else
        var (latch, cleared) := LatchRearm(s.latch, Fresh(s.motorHb, s.now, timeout));
        Edge(s, s.(rearmsToMotor := s.rearmsToMotor - 1, latch := latch,
                   motorAccepts := if cleared then s.motorAccepts + [Accept(s.now, s.motorHb)] else s.motorAccepts),
             ByMotor(|s.motorAccepts|))
    case LoseRearmToMotor => if s.rearmsToMotor == 0 then s else s.(rearmsToMotor := s.rearmsToMotor - 1)
    case Motion => s
  }

  function Run(acts: seq<Action>, timeout: real): Sys {
    if acts == [] then Initial() else Step(Run(acts[..|acts| - 1], timeout), acts[|acts| - 1], timeout)
  }

  // ── the invariant ──

  /** A later status is of no earlier epoch, and can only have gone quiet in a later one. */
  predicate Follows(a: Status, b: Status) {
    a.epoch <= b.epoch && (a.active && !b.active ==> a.epoch < b.epoch)
  }

  ghost predicate Ordered(q: seq<Status>) {
    forall i, j :: 0 <= i <= j < |q| ==> Follows(q[i], q[j])
  }

  /** What the motor last applied, what is under way, and what the watchdog holds now, oldest first. */
  function Line(s: Sys): seq<Status> {
    [Status(s.latch.status, s.applied, true)] + s.status
    + (if s.outbox.Some? then [s.outbox.value.0] else []) + [Status(s.wd.active, |s.quiets|, true)]
  }

  ghost predicate AllFresh(accepts: seq<Accept>, timeout: real) {
    forall k :: 0 <= k < |accepts| ==> Fresh(accepts[k].lastHb, accepts[k].at, timeout)
  }

  ghost predicate RearmsFresh(quiets: seq<Quieting>, timeout: real) {
    forall k :: 0 <= k < |quiets| && quiets[k].Rearmed? ==> Fresh(quiets[k].accept.lastHb, quiets[k].accept.at, timeout)
  }

  /** The latch is clear although the last loss has not been seen to end. */
  predicate Gap(w: Wd) {
    w.announced && !w.active
  }

  /** The latest quieting of the first `epoch` was a re-arm. */
  predicate EndsRearmed(quiets: seq<Quieting>, epoch: nat) {
    0 < epoch <= |quiets| && quiets[epoch - 1].Rearmed?
  }

  /** A status that is quiet without a heartbeat. */
  predicate Unfounded(m: Status) {
    !m.active && !m.hbOk
  }

  /** Only a re-arm leaves the latch clear without a fresh heartbeat. */
  ghost predicate Founded(s: Sys) {
    && (Gap(s.wd) ==> EndsRearmed(s.quiets, |s.quiets|))
    && (forall k :: 0 <= k < |s.status| && Unfounded(s.status[k]) ==> EndsRearmed(s.quiets, s.status[k].epoch))
    && (s.outbox.Some? && Unfounded(s.outbox.value.0) ==> EndsRearmed(s.quiets, s.outbox.value.0.epoch))
  }

  /** Every edge has its own cause, and that re-arm has been accepted. */
  ghost predicate Caused(s: Sys) {
    && (forall e :: 0 <= e < |s.edges| ==>
          match s.edges[e] case ByMotor(k) => k < |s.motorAccepts| case ByWatchdog(k) => k < s.applied <= |s.quiets|)
    && forall e, e' :: 0 <= e < e' < |s.edges| ==> s.edges[e] != s.edges[e']
  }

  ghost predicate Inv(s: Sys, timeout: real) {
    Ordered(Line(s)) && RearmsFresh(s.quiets, timeout) && AllFresh(s.motorAccepts, timeout) && Founded(s) && Caused(s)
  }

  lemma LoseOrdered(s: Sys, i: nat)
    requires Ordered(Line(s)) && i < |s.status|
    ensures Ordered(Line(s.(status := Without(s.status, i))))
  {
    var q, q' := Line(s), Line(s.(status := Without(s.status, i)));
    assert forall k :: 0 <= k < |q'| ==> q'[k] == q[if k < i + 1 then k else k + 1];
  }

  lemma PublishOrdered(s: Sys)
    requires Ordered(Line(s)) && s.outbox.Some?
    ensures Ordered(Line(s.(outbox := None, status := s.status + [s.outbox.value.0])))
    ensures Ordered(Line(s.(outbox := None)))
  {
    assert Line(s.(outbox := None, status := s.status + [s.outbox.value.0])) == Line(s);
    var q, q' := Line(s), Line(s.(outbox := None));
    assert forall k :: 0 <= k < |q'| ==> q'[k] == q[if k < |q| - 2 then k else k + 1];
  }

  lemma TickOrdered(s: Sys, timeout: real)
    requires Ordered(Line(s)) && s.outbox.None? && s.look.Some?
    ensures Ordered(Line(Ticked(s, timeout)))
  {
    var s' := Ticked(s, timeout);
    var q, q' := Line(s), Line(s');
    assert |q'| == |q| + 1 && forall k :: 0 <= k < |q| - 1 ==> q'[k] == q[k];
    assert q'[|q| - 1].active == q'[|q|].active && q'[|q| - 1].epoch == q'[|q|].epoch;
    forall i, j | 0 <= i <= j < |q'| ensures Follows(q'[i], q'[j]) {
      if i < |q| - 1 && j >= |q| - 1 { assert Follows(q[i], q[|q| - 1]); }
      if j < |q| - 1 { assert Follows(q[i], q[j]); }
    }
  }

  lemma RearmOrdered(s: Sys, timeout: real)
    requires Ordered(Line(s))
    ensures Ordered(Line(Step(s, DeliverRearmToWd, timeout)))
  {
    var s' := Step(s, DeliverRearmToWd, timeout);
    var q, q' := Line(s), Line(s');
    assert |q'| == |q| && forall k :: 0 <= k < |q| - 1 ==> q'[k] == q[k];
    forall i, j | 0 <= i <= j < |q'| ensures Follows(q'[i], q'[j]) {
      assert Follows(q[i], q[j]);
    }
  }

  lemma RestartOrdered(s: Sys, timeout: real)
    requires Ordered(Line(s))
    ensures Ordered(Line(Step(s, WdRestart, timeout)))
  {
    var q, q' := Line(s), Line(Step(s, WdRestart, timeout));
    assert |q'| == |s.status| + 2 <= |q| && forall k :: 0 <= k < |q'| - 1 ==> q'[k] == q[k];
    forall i, j | 0 <= i <= j < |q'| ensures Follows(q'[i], q'[j]) {
      if j < |q'| - 1 { assert Follows(q[i], q[j]); } else if i < |q'| - 1 { assert Follows(q[i], q[|q| - 1]); }
    }
  }

  lemma DeliverOrdered(s: Sys, timeout: real)
    requires Ordered(Line(s)) && s.status != []
    ensures Ordered(Line(Step(s, DeliverStatus, timeout)))
  {
    var q, q' := Line(s), Line(Step(s, DeliverStatus, timeout));
    assert forall k :: 0 <= k < |q'| ==> q'[k].active == q[k + 1].active && q'[k].epoch == q[k + 1].epoch;
    forall i, j | 0 <= i <= j < |q'| ensures Follows(q'[i], q'[j]) {
      assert Follows(q[i + 1], q[j + 1]);
    }
  }

  /** A delivered status, against the one applied before it and the watchdog's own state. */
  lemma DeliveredFollows(s: Sys)
    requires Ordered(Line(s)) && s.status != []
    ensures s.applied <= s.status[0].epoch <= |s.quiets|
    ensures s.latch.status && !s.status[0].active ==> s.applied < s.status[0].epoch
  {
    var q := Line(s);
    assert Follows(q[0], q[1]) && Follows(q[1], q[|q| - 1]);
    assert q[1] == s.status[0];
  }

  lemma DeliverCaused(s: Sys, timeout: real)
    requires Ordered(Line(s)) && Caused(s) && s.status != []
    ensures Caused(Step(s, DeliverStatus, timeout))
  {
    DeliveredFollows(s);
    hide Line, Ordered, FirstRearm;
  }

  lemma RearmKeepsLine(s: Sys, timeout: real)
    ensures Line(Step(s, DeliverRearmToMotor, timeout)) == Line(s)
  {
    hide Fresh;
  }

  lemma StepOrdered(s: Sys, a: Action, timeout: real)
    requires Ordered(Line(s))
    ensures Ordered(Line(Step(s, a, timeout)))
  {
    hide WdHeartbeat, WdRearm, LatchRearm, LatchStatus, Ordered, FirstRearm, Ticked;
    match a
    case WdTick => if s.outbox.None? && s.look.Some? { TickOrdered(s, timeout); }
    case WdPublish => if s.outbox.Some? { PublishOrdered(s); }
    case WdPublishFails(_) => if s.outbox.Some? { PublishOrdered(s); assert Line(Step(s, a, timeout)) == Line(s.(outbox := None)); }
    case WdRestart => RestartOrdered(s, timeout);
    case DeliverStatus => if s.status != [] { DeliverOrdered(s, timeout); }
    case LoseStatus(i) => if i < |s.status| { LoseOrdered(s, i); }
    case DeliverRearmToWd => RearmOrdered(s, timeout);
    case DeliverRearmToMotor => RearmKeepsLine(s, timeout);
    case _ => assert Line(Step(s, a, timeout)) == Line(s);
  }

  /** Nothing under way is of a later epoch than the watchdog's. */
  lemma EpochsKnown(s: Sys)
    requires Ordered(Line(s))
    ensures forall k :: 0 <= k < |s.status| ==> s.status[k].epoch <= |s.quiets|
    ensures s.outbox.Some? ==> s.outbox.value.0.epoch <= |s.quiets|
  {
    var q := Line(s);
    forall k | 0 <= k < |s.status| ensures s.status[k].epoch <= |s.quiets| {
      assert q[k + 1] == s.status[k] && Follows(q[k + 1], q[|q| - 1]);
    }
    if s.outbox.Some? { assert q[|q| - 2] == s.outbox.value.0 && Follows(q[|q| - 2], q[|q| - 1]); }
  }

  lemma StepFounded(s: Sys, a: Action, timeout: real)
    requires Founded(s) && Ordered(Line(s))
    ensures Founded(Step(s, a, timeout))
  {
    EpochsKnown(s);
    hide Ordered, Line, Fresh, FirstRearm, LatchStatus, LatchRearm;
  }

  lemma StepRest(s: Sys, a: Action, timeout: real)
    requires RearmsFresh(s.quiets, timeout) && AllFresh(s.motorAccepts, timeout) && Caused(s)
    ensures var s' := Step(s, a, timeout);
      RearmsFresh(s'.quiets, timeout) && AllFresh(s'.motorAccepts, timeout) && (!a.DeliverStatus? || s.status == [] ==> Caused(s'))
  {
    hide FirstRearm, WdHeartbeat, Fresh;
  }

  /** Every step keeps the invariant. */
  lemma StepKeeps(s: Sys, a: Action, timeout: real)
    requires Inv(s, timeout)
    ensures Inv(Step(s, a, timeout), timeout)
  {
    StepOrdered(s, a, timeout);
    StepFounded(s, a, timeout);
    hide Ordered, Founded, Line;
    if a.DeliverStatus? && s.status != [] {
      DeliverCaused(s, timeout);
    }
    StepRest(s, a, timeout);
  }

  /** Whatever happens, in whatever order, the invariant holds. */
  lemma {:induction false} RunKeeps(acts: seq<Action>, timeout: real)
    ensures Inv(Run(acts, timeout), timeout)
  {
    if acts != [] {
      RunKeeps(acts[..|acts| - 1], timeout);
      hide Inv, Step;
      StepKeeps(Run(acts[..|acts| - 1], timeout), acts[|acts| - 1], timeout);
    }
  }

  // ── the theorems ──

  /** The motor latch goes from active to inactive at step `n`. */
  predicate Falls(acts: seq<Action>, n: nat, timeout: real)
    requires n < |acts|
  {
    Run(acts[..n], timeout).latch.Active() && !Run(acts[..n + 1], timeout).latch.Active()
  }

  lemma StepEdges(s: Sys, a: Action, timeout: real)
    ensures s.edges <= Step(s, a, timeout).edges
    ensures s.latch.Active() && !Step(s, a, timeout).latch.Active() ==> |Step(s, a, timeout).edges| == |s.edges| + 1
  {
    hide WdHeartbeat, WdRearm, Fresh, FirstRearm;
  }

  lemma RunStep(acts: seq<Action>, n: nat, timeout: real)
    requires n < |acts|
    ensures Run(acts[..n + 1], timeout) == Step(Run(acts[..n], timeout), acts[n], timeout)
    ensures Run(acts[..n], timeout).edges <= Run(acts[..n + 1], timeout).edges
    ensures Falls(acts, n, timeout) ==> |Run(acts[..n + 1], timeout).edges| == |Run(acts[..n], timeout).edges| + 1
  {
    hide Step;
    assert acts[..n + 1][..n] == acts[..n];
    StepEdges(Run(acts[..n], timeout), acts[n], timeout);
  }

  /** What was behind the edge at step `n`. */
  function CauseAt(acts: seq<Action>, n: nat, timeout: real): Cause
    requires n < |acts| && Falls(acts, n, timeout)
  {
    RunStep(acts, n, timeout);
    Run(acts[..n + 1], timeout).edges[|Run(acts[..n], timeout).edges|]
  }

  lemma {:induction false} EdgesGrow(acts: seq<Action>, n: nat, m: nat, timeout: real)
    requires n <= m <= |acts|
    ensures Run(acts[..n], timeout).edges <= Run(acts[..m], timeout).edges
  {
    hide Run;
    if n < m {
      EdgesGrow(acts, n, m - 1, timeout);
      RunStep(acts, m - 1, timeout);
    }
  }

  /** The edge that step `a` makes. */
  lemma EdgeOf(s: Sys, a: Action, timeout: real)
    requires s.latch.Active() && !Step(s, a, timeout).latch.Active()
    ensures if a.DeliverRearmToMotor? then
              s.rearmsToMotor > 0 && Fresh(s.motorHb, s.now, timeout) && Step(s, a, timeout).edges == s.edges + [ByMotor(|s.motorAccepts|)]
            else
              a.DeliverStatus? && s.status != [] && s.latch.status && !s.status[0].active
              && Step(s, a, timeout).edges == s.edges + [StatusCause(s, s.status[0])] && Step(s, a, timeout).quiets == s.quiets
  {
    hide Fresh, FirstRearm, StatusCause, WdHeartbeat, WdRearm;
  }

  /** The quietings between the status the motor had applied and the one it is given now. */
  ghost predicate OnlyRestarts(s: Sys, m: Status) {
    s.applied < m.epoch <= |s.quiets| && (forall j :: s.applied <= j < m.epoch ==> s.quiets[j].Restarted?)
  }

  /**
   The watchdog's quieting `k` lies since the last status applied: a re-arm on a
   fresh heartbeat, or one of restarts alone and then a fresh heartbeat.
   */
  ghost predicate BehindStatus(s: Sys, k: nat, timeout: real) {
    && s.status != [] && s.applied <= k < s.status[0].epoch <= |s.quiets|
    && (s.quiets[k].Rearmed? ==> Fresh(s.quiets[k].accept.lastHb, s.quiets[k].accept.at, timeout))
    && (s.quiets[k].Restarted? ==> OnlyRestarts(s, s.status[0]) && s.status[0].hbOk)
  }

  /**
   Behind an edge stands a re-arm, accepted by the motor now or by the watchdog
   since the last status the motor applied, with that side's heartbeat fresh. The
   exact exception: a watchdog that was restarted since then, accepted no re-arm,
   and has since found a fresh heartbeat.
   */
  lemma EdgeNeedsRearm(acts: seq<Action>, n: nat, timeout: real)
    requires n < |acts| && Falls(acts, n, timeout)
    ensures var s := Run(acts[..n], timeout);
      match CauseAt(acts, n, timeout)
      case ByMotor(k) => acts[n] == DeliverRearmToMotor && k == |s.motorAccepts| && Fresh(s.motorHb, s.now, timeout)
      case ByWatchdog(k) => acts[n] == DeliverStatus && BehindStatus(s, k, timeout)
  {
    RunStep(acts, n, timeout);
    RunKeeps(acts[..n], timeout);
    hide Run, Step, Ordered, Line, AllFresh;
    var s := Run(acts[..n], timeout);
    EdgeOf(s, acts[n], timeout);
    if acts[n].DeliverStatus? {
      DeliveredFollows(s);
      assert Unfounded(s.status[0]) ==> EndsRearmed(s.quiets, s.status[0].epoch);
    }
  }

  /** No two edges share a re-arm, or a restart. */
  lemma EdgesNeedDistinctRearms(acts: seq<Action>, n: nat, m: nat, timeout: real)
    requires n < m < |acts| && Falls(acts, n, timeout) && Falls(acts, m, timeout)
    ensures CauseAt(acts, n, timeout) != CauseAt(acts, m, timeout)
  {
    RunStep(acts, n, timeout);
    RunStep(acts, m, timeout);
    EdgesGrow(acts, n + 1, m, timeout);
    RunKeeps(acts[..m + 1], timeout);
    hide Run, Step, Ordered, RearmsFresh, AllFresh, Founded;
    var edges := Run(acts[..m + 1], timeout).edges;
    assert edges[|Run(acts[..n], timeout).edges|] == CauseAt(acts, n, timeout);
  }

  /** A restart, and a heartbeat before the new process's first tick. */
  function Reborn(s: Sys, timeout: real): Sys {
    Step(Step(Step(Step(Step(Step(s, WdRestart, timeout), HeartbeatToWd, timeout), WdLook, timeout), WdTick, timeout),
              WdPublish, timeout), DeliverStatus, timeout)
  }

  /**
   The exception is real. From any state with nothing under way, a restarted
   watchdog that hears a heartbeat before its first tick clears the motor latch,
   with no re-arm, exactly when the latch mirrors an active status; a latch set
   by the emergency stop alone stays.
   */
  lemma RestartClears(s: Sys, timeout: real)
    requires s.status == [] && s.now > 0.0 && timeout > 0.0
    ensures !Reborn(s, timeout).latch.Active() <==> s.latch.status || !s.latch.latched
    ensures Reborn(s, timeout).motorAccepts == s.motorAccepts
    ensures Reborn(s, timeout).quiets == s.quiets + [Restarted(s.now)]
  {
    var s1 := Step(s, WdRestart, timeout);
    var s2 := Step(s1, HeartbeatToWd, timeout);
    var s3 := Step(s2, WdLook, timeout);
    assert s3 == s2.(look := Some(s.now));
    var s4 := Step(s3, WdTick, timeout);
    assert Fresh(s3.wdHb, s.now, timeout);
    assert s4 == s3.(look := None, outbox := Some((Status(false, |s1.quiets|, true), false)));
    var s5 := Step(s4, WdPublish, timeout);
    assert s5.status == [Status(false, |s1.quiets|, true)];
    hide FirstRearm;
  }

  // ── the heartbeat latch and its gap ──

  /** Step `n` is a tick of the watchdog, and this is whether it found the heartbeat fresh. */
  predicate TickAt(acts: seq<Action>, n: nat, timeout: real, ok: bool) {
    n < |acts| && acts[n].WdTick?
    && var s := Run(acts[..n], timeout);
       s.outbox.None? && s.look.Some? && Fresh(s.wdHb, s.look.value, timeout) == ok
  }

  /** The watchdog accepts a re-arm at step `n`. */
  predicate AcceptAt(acts: seq<Action>, n: nat, timeout: real) {
    n < |acts| && acts[n].DeliverRearmToWd?
    && var s := Run(acts[..n], timeout);
       s.rearmsToWd > 0 && s.wd.active && Fresh(s.wdHb, s.now, timeout)
  }

  /** From the tick at `i` up to `n` no tick finds the heartbeat, and the watchdog does not restart. */
  ghost predicate LostSince(acts: seq<Action>, i: nat, n: nat, timeout: real) {
    && i < n <= |acts| && TickAt(acts, i, timeout, false)
    && forall k :: i < k < n ==> !TickAt(acts, k, timeout, true) && !acts[k].WdRestart?
  }

  /** In such a stretch a re-arm was accepted. */
  ghost predicate RearmedSince(acts: seq<Action>, i: nat, j: nat, n: nat, timeout: real) {
    LostSince(acts, i, n, timeout) && i < j < n && AcceptAt(acts, j, timeout)
  }

  ghost predicate Lost(acts: seq<Action>, n: nat, timeout: real) {
    exists i: nat :: LostSince(acts, i, n, timeout)
  }

  ghost predicate RearmedWhileLost(acts: seq<Action>, n: nat, timeout: real) {
    exists i: nat, j: nat :: RearmedSince(acts, i, j, n, timeout)
  }

  /** What a step does to the watchdog's latch. */
  lemma WdAfter(acts: seq<Action>, n: nat, timeout: real)
    requires n < |acts|
    ensures var w, w' := Run(acts[..n], timeout).wd, Run(acts[..n + 1], timeout).wd;
      if acts[n].WdRestart? then w' == Wd(false, false)
      else if TickAt(acts, n, timeout, true) then w' == Wd(w.active, false)
      else if TickAt(acts, n, timeout, false) then w' == Wd(w.active || !w.announced, true)
      else if AcceptAt(acts, n, timeout) then w.active && w' == Wd(false, w.announced)
      else w' == w
  {
    RunStep(acts, n, timeout);
    hide Run, FirstRearm, Fresh, LatchStatus, LatchRearm;
  }

  lemma TickOnce(acts: seq<Action>, n: nat, timeout: real)
    ensures TickAt(acts, n, timeout, false) ==> !TickAt(acts, n, timeout, true) && !acts[n].WdRestart?
    ensures AcceptAt(acts, n, timeout) ==> !TickAt(acts, n, timeout, true) && !TickAt(acts, n, timeout, false) && !acts[n].WdRestart?
  {
  }

  /** A stretch goes on, starts, or ends. */
  lemma LostNext(acts: seq<Action>, n: nat, timeout: real)
    requires n < |acts|
    ensures Lost(acts, n + 1, timeout) <==>
      TickAt(acts, n, timeout, false) || (Lost(acts, n, timeout) && !TickAt(acts, n, timeout, true) && !acts[n].WdRestart?)
  {
    TickOnce(acts, n, timeout);
    hide TickAt;
    if Lost(acts, n + 1, timeout) {
      var i: nat :| LostSince(acts, i, n + 1, timeout);
      if i < n { assert LostSince(acts, i, n, timeout); }
    }
    if TickAt(acts, n, timeout, false) {
      assert LostSince(acts, n, n + 1, timeout);
    } else if Lost(acts, n, timeout) && !TickAt(acts, n, timeout, true) && !acts[n].WdRestart? {
      var i: nat :| LostSince(acts, i, n, timeout);
      assert LostSince(acts, i, n + 1, timeout);
    }
  }

  lemma RearmedNext(acts: seq<Action>, n: nat, timeout: real)
    requires n < |acts|
    ensures RearmedWhileLost(acts, n + 1, timeout) <==>
      && (RearmedWhileLost(acts, n, timeout) || (Lost(acts, n, timeout) && AcceptAt(acts, n, timeout)))
      && !TickAt(acts, n, timeout, true) && !acts[n].WdRestart?
  {
    TickOnce(acts, n, timeout);
    hide TickAt, AcceptAt;
    if RearmedWhileLost(acts, n + 1, timeout) {
      var i: nat, j: nat :| RearmedSince(acts, i, j, n + 1, timeout);
      assert LostSince(acts, i, n, timeout);
      if j < n { assert RearmedSince(acts, i, j, n, timeout); }
    }
    if TickAt(acts, n, timeout, true) || acts[n].WdRestart? {
    } else if RearmedWhileLost(acts, n, timeout) {
      var i: nat, j: nat :| RearmedSince(acts, i, j, n, timeout);
      assert RearmedSince(acts, i, j, n + 1, timeout);
    } else if Lost(acts, n, timeout) && AcceptAt(acts, n, timeout) {
      var i: nat :| LostSince(acts, i, n, timeout);
      assert RearmedSince(acts, i, n, n + 1, timeout);
    }
  }

  /** The watchdog's two flags, read off the run: a loss is announced in such a stretch, and cleared in it by a re-arm alone. */
  lemma {:induction false} FlagsAre(acts: seq<Action>, n: nat, timeout: real)
    requires n <= |acts|
    ensures Run(acts[..n], timeout).wd.announced <==> Lost(acts, n, timeout)
    ensures Gap(Run(acts[..n], timeout).wd) <==> RearmedWhileLost(acts, n, timeout)
  {
    hide TickAt, AcceptAt;
    if n > 0 {
      FlagsAre(acts, n - 1, timeout);
      WdAfter(acts, n - 1, timeout);
      TickOnce(acts, n - 1, timeout);
      LostNext(acts, n - 1, timeout);
      RearmedNext(acts, n - 1, timeout);
      hide Run, Lost, RearmedWhileLost;
    }
  }

  /**
   Over every run: a tick that finds no heartbeat leaves the watchdog latched,
   unless a re-arm was accepted since the current stretch of such ticks began;
   then, and only then, it stays clear.
   */
  lemma LossLatches(acts: seq<Action>, n: nat, timeout: real)
    requires TickAt(acts, n, timeout, false)
    ensures Run(acts[..n + 1], timeout).wd.active <==> !RearmedWhileLost(acts, n, timeout)
  {
    WdAfter(acts, n, timeout);
    FlagsAre(acts, n, timeout);
    TickOnce(acts, n, timeout);
    hide Run, RearmedWhileLost, TickAt;
  }

  /**
   What a tick puts out: the latch as it then stands, and an emergency stop exactly
   on the first tick of a stretch without heartbeat.
   */
  lemma TickReports(acts: seq<Action>, n: nat, timeout: real, ok: bool)
    requires TickAt(acts, n, timeout, ok)
    ensures var s' := Run(acts[..n + 1], timeout);
      && s'.outbox.Some? && s'.outbox.value.0.active == s'.wd.active && s'.outbox.value.0.hbOk == ok
      && (s'.outbox.value.1 <==> !ok && !Lost(acts, n, timeout))
  {
    RunStep(acts, n, timeout);
    FlagsAre(acts, n, timeout);
    hide Run, Lost, RearmedWhileLost, Fresh;
  }

  /**
   The gap is reachable: the heartbeat is lost and latched, comes back, a re-arm
   is accepted, and the heartbeat is lost again before a tick has seen it. That
   tick then reports a lost heartbeat with the e-stop clear, and announces
   nothing. An accepted re-arm wakes the status loop at once, so this takes a loop
   held up for the heartbeat timeout, in a publish that blocks say, or a timeout
   shorter than the wake-up.
   */
  const GAP_RUN: seq<Action> :=
    [WdLook, WdTick, WdPublish, HeartbeatToWd, Operator, DeliverRearmToWd, Pass(2.0), WdLook, WdTick]

  lemma RunPrefix(acts: seq<Action>, n: nat, timeout: real)
    requires n < |acts|
    ensures Run(acts[..n + 1], timeout) == Step(Run(acts[..n], timeout), acts[n], timeout)
    ensures Run(acts[..0], timeout) == Initial()
  {
    RunStep(acts, n, timeout);
  }

  lemma LossCanBeMissed()
    ensures var s := Run(GAP_RUN, 2.0);
            !Fresh(s.wdHb, s.now, 2.0) && !s.wd.active && s.outbox == Some((Status(false, 1, false), false))
  {
    var s0 := Step(Initial(), WdLook, 2.0);
    var s1 := Step(s0, WdTick, 2.0);
    var s2 := Step(s1, WdPublish, 2.0);
    var s3 := Step(s2, HeartbeatToWd, 2.0);
    var s4 := Step(s3, Operator, 2.0);
    var s5 := Step(s4, DeliverRearmToWd, 2.0);
    var s6 := Step(s5, Pass(2.0), 2.0);
    var s7 := Step(s6, WdLook, 2.0);
    assert Gap(s5.wd);
    RunPrefix(GAP_RUN, 0, 2.0);
    RunPrefix(GAP_RUN, 1, 2.0);
    RunPrefix(GAP_RUN, 2, 2.0);
    RunPrefix(GAP_RUN, 3, 2.0);
    RunPrefix(GAP_RUN, 4, 2.0);
    RunPrefix(GAP_RUN, 5, 2.0);
    RunPrefix(GAP_RUN, 6, 2.0);
    RunPrefix(GAP_RUN, 7, 2.0);
    RunPrefix(GAP_RUN, 8, 2.0);
    assert GAP_RUN[..9] == GAP_RUN;
    assert Run(GAP_RUN, 2.0) == Step(s7, WdTick, 2.0);
  }

  // ── the motor latch over runs ──

  /** An emergency stop reaches the motor at step `n`. */
  predicate EmergencyAt(acts: seq<Action>, n: nat, timeout: real) {
    n < |acts| && acts[n].DeliverEmergency? && Run(acts[..n], timeout).emergencies > 0
  }

  /** A status with this level reaches the motor at step `n`. */
  predicate StatusAt(acts: seq<Action>, n: nat, timeout: real, active: bool) {
    n < |acts| && acts[n].DeliverStatus?
    && var s := Run(acts[..n], timeout);
       s.status != [] && s.status[0].active == active
  }

  /** A re-arm reaches the motor at step `n`, its heartbeat fresh. */
  predicate MotorRearmAt(acts: seq<Action>, n: nat, timeout: real) {
    n < |acts| && acts[n].DeliverRearmToMotor?
    && var s := Run(acts[..n], timeout);
       s.rearmsToMotor > 0 && Fresh(s.motorHb, s.now, timeout)
  }

  ghost predicate MirroredSince(acts: seq<Action>, i: nat, n: nat, timeout: real) {
    i < n <= |acts| && StatusAt(acts, i, timeout, true) && forall k :: i < k < n ==> !StatusAt(acts, k, timeout, false)
  }

  /** The last status to reach the motor before step `n` was active. */
  ghost predicate Mirrored(acts: seq<Action>, n: nat, timeout: real) {
    exists i: nat :: MirroredSince(acts, i, n, timeout)
  }

  /** What lifts an emergency stop: a re-arm on a fresh heartbeat, or the status level falling. */
  ghost predicate LiftAt(acts: seq<Action>, n: nat, timeout: real) {
    MotorRearmAt(acts, n, timeout) || (StatusAt(acts, n, timeout, false) && Mirrored(acts, n, timeout))
  }

  ghost predicate StoppedSince(acts: seq<Action>, i: nat, n: nat, timeout: real) {
    i < n <= |acts| && EmergencyAt(acts, i, timeout) && forall k :: i < k < n ==> !LiftAt(acts, k, timeout)
  }

  /** An emergency stop has reached the motor, and nothing has lifted it by step `n`. */
  ghost predicate EmergencyStands(acts: seq<Action>, n: nat, timeout: real) {
    exists i: nat :: StoppedSince(acts, i, n, timeout)
  }

  lemma OneKind(acts: seq<Action>, n: nat, timeout: real)
    ensures StatusAt(acts, n, timeout, true) ==> !StatusAt(acts, n, timeout, false) && !MotorRearmAt(acts, n, timeout)
    ensures EmergencyAt(acts, n, timeout) ==> !StatusAt(acts, n, timeout, false) && !MotorRearmAt(acts, n, timeout)
  {
  }

  lemma MirroredNext(acts: seq<Action>, n: nat, timeout: real)
    requires n < |acts|
    ensures Mirrored(acts, n + 1, timeout) <==>
      StatusAt(acts, n, timeout, true) || (Mirrored(acts, n, timeout) && !StatusAt(acts, n, timeout, false))
  {
    OneKind(acts, n, timeout);
    hide StatusAt;
    if Mirrored(acts, n + 1, timeout) {
      var i: nat :| MirroredSince(acts, i, n + 1, timeout);
      if i < n { assert MirroredSince(acts, i, n, timeout); }
    }
    if StatusAt(acts, n, timeout, true) {
      assert MirroredSince(acts, n, n + 1, timeout);
    } else if Mirrored(acts, n, timeout) && !StatusAt(acts, n, timeout, false) {
      var i: nat :| MirroredSince(acts, i, n, timeout);
      assert MirroredSince(acts, i, n + 1, timeout);
    }
  }

  lemma StandsNext(acts: seq<Action>, n: nat, timeout: real)
    requires n < |acts|
    ensures EmergencyStands(acts, n + 1, timeout) <==>
      EmergencyAt(acts, n, timeout) || (EmergencyStands(acts, n, timeout) && !LiftAt(acts, n, timeout))
  {
    OneKind(acts, n, timeout);
    hide EmergencyAt, StatusAt, MotorRearmAt, Mirrored;
    if EmergencyStands(acts, n + 1, timeout) {
      var i: nat :| StoppedSince(acts, i, n + 1, timeout);
      if i < n { assert StoppedSince(acts, i, n, timeout); }
    }
    if EmergencyAt(acts, n, timeout) {
      assert StoppedSince(acts, n, n + 1, timeout);
    } else if EmergencyStands(acts, n, timeout) && !LiftAt(acts, n, timeout) {
      var i: nat :| StoppedSince(acts, i, n, timeout);
      assert StoppedSince(acts, i, n + 1, timeout);
    }
  }

  lemma LatchStep(s: Sys, a: Action, timeout: real)
    requires !a.DeliverEmergency? && !a.DeliverStatus? && !a.DeliverRearmToMotor?
    ensures Step(s, a, timeout).latch == s.latch
  {
    hide FirstRearm, Fresh, WdHeartbeat, WdRearm;
  }

  /** What a step does to the motor latch. */
  lemma LatchAfter(acts: seq<Action>, n: nat, timeout: real)
    requires n < |acts|
    ensures var l, l' := Run(acts[..n], timeout).latch, Run(acts[..n + 1], timeout).latch;
      && l'.status == (StatusAt(acts, n, timeout, true) || (l.status && !StatusAt(acts, n, timeout, false)))
      && l'.latched == (EmergencyAt(acts, n, timeout)
                        || (l.latched && !MotorRearmAt(acts, n, timeout) && !(l.status && StatusAt(acts, n, timeout, false))))
  {
    RunStep(acts, n, timeout);
    hide Run, FirstRearm, Fresh;
    if !acts[n].DeliverEmergency? && !acts[n].DeliverStatus? && !acts[n].DeliverRearmToMotor? {
      LatchStep(Run(acts[..n], timeout), acts[n], timeout);
      hide Step;
    }
  }

  /**
   The motor latch over every run: its own half is set exactly while an emergency
   stop that reached it has not been lifted, and the mirrored half exactly while
   the last status to reach it was active.
   */
  lemma {:induction false} MotorLatchIs(acts: seq<Action>, n: nat, timeout: real)
    requires n <= |acts|
    ensures Run(acts[..n], timeout).latch.status <==> Mirrored(acts, n, timeout)
    ensures Run(acts[..n], timeout).latch.latched <==> EmergencyStands(acts, n, timeout)
  {
    hide StatusAt, EmergencyAt, MotorRearmAt;
    if n > 0 {
      MotorLatchIs(acts, n - 1, timeout);
      LatchAfter(acts, n - 1, timeout);
      OneKind(acts, n - 1, timeout);
      MirroredNext(acts, n - 1, timeout);
      StandsNext(acts, n - 1, timeout);
      hide Run, Mirrored, EmergencyStands;
    }
  }

  lemma {:induction false} ActiveUntilFall(acts: seq<Action>, n: nat, k: nat, timeout: real)
    requires n <= k <= |acts| && Run(acts[..n], timeout).latch.Active()
    ensures Run(acts[..k], timeout).latch.Active() || exists m :: n <= m < k && Falls(acts, m, timeout)
  {
    hide Run;
    if n < k {
      ActiveUntilFall(acts, n, k - 1, timeout);
      if Run(acts[..k - 1], timeout).latch.Active() && !Run(acts[..k], timeout).latch.Active() {
        assert Falls(acts, k - 1, timeout);
      }
    }
  }

  /**
   An emergency stop, or an active status, that reaches the motor latches it, and
   it stays latched until an edge, which takes its own accepted re-arm or the
   restart.
   */
  lemma StopsStop(acts: seq<Action>, n: nat, k: nat, timeout: real)
    requires n < k <= |acts| && (EmergencyAt(acts, n, timeout) || StatusAt(acts, n, timeout, true))
    ensures Run(acts[..k], timeout).latch.Active() || exists m :: n < m < k && Falls(acts, m, timeout)
  {
    LatchAfter(acts, n, timeout);
    hide Run, StatusAt, EmergencyAt;
    ActiveUntilFall(acts, n + 1, k, timeout);
  }

  // ── what is on the way ──

  /** When the side's last heartbeat arrived; for the watchdog, in the life of the process that runs now. */
  function LastBeat(acts: seq<Action>, motor: bool, timeout: real): real {
    if acts == [] then 0.0
    else
      var n := |acts| - 1;
      if acts[n] == (if motor then HeartbeatToMotor else HeartbeatToWd) then Run(acts[..n], timeout).now
      else if !motor && acts[n].WdRestart? then 0.0
      else LastBeat(acts[..n], motor, timeout)
  }

  /** The time passed since the start. */
  function Elapsed(acts: seq<Action>): real {
    if acts == [] then 0.0
    else Elapsed(acts[..|acts| - 1]) + if acts[|acts| - 1].Pass? && acts[|acts| - 1].dt > 0.0 then acts[|acts| - 1].dt else 0.0
  }

  lemma BeatStep(s: Sys, a: Action, timeout: real)
    ensures var s' := Step(s, a, timeout);
      && s'.motorHb == (if a.HeartbeatToMotor? then s.now else s.motorHb)
      && s'.wdHb == (if a.HeartbeatToWd? then s.now else if a.WdRestart? then 0.0 else s.wdHb)
      && s'.now == (if a.Pass? && a.dt > 0.0 then s.now + a.dt else s.now)
  {
    hide FirstRearm, Fresh, WdHeartbeat, WdRearm, LatchRearm, LatchStatus;
  }

  /** Over every run each side's heartbeat time is that of the last one it got, and time is what has passed. */
  lemma {:induction false} BeatsAre(acts: seq<Action>, timeout: real)
    ensures var s := Run(acts, timeout);
      s.motorHb == LastBeat(acts, true, timeout) && s.wdHb == LastBeat(acts, false, timeout) && s.now == 1.0 + Elapsed(acts)
  {
    if acts != [] {
      var n := |acts| - 1;
      BeatsAre(acts[..n], timeout);
      BeatStep(Run(acts[..n], timeout), acts[n], timeout);
      hide Step;
    }
  }

  datatype Topic = Emergencies | RearmsToWd | RearmsToMotor

  /** The step puts a message on the topic: the operator, the desktop, or the watchdog with an announcement to publish. */
  predicate Sends(s: Sys, a: Action, topic: Topic) {
    match topic
    case Emergencies =>
      a.DesktopStop? || ((a.WdPublish? || (a.WdPublishFails? && a.sent)) && s.outbox.Some? && s.outbox.value.1)
    case _ => a.Operator?
  }

  /** The step takes a message off the topic: delivered, or lost. */
  predicate Removes(a: Action, topic: Topic) {
    match topic
    case Emergencies => a.DeliverEmergency? || a.LoseEmergency?
    case RearmsToWd => a.DeliverRearmToWd? || a.LoseRearmToWd?
    case RearmsToMotor => a.DeliverRearmToMotor? || a.LoseRearmToMotor?
  }

  function OnTheWay(s: Sys, topic: Topic): nat {
    match topic
    case Emergencies => s.emergencies
    case RearmsToWd => s.rearmsToWd
    case RearmsToMotor => s.rearmsToMotor
  }

  /** How many messages the steps so far have sent on the topic, less those they have taken off it. */
  function Balance(acts: seq<Action>, topic: Topic, timeout: real): nat {
    if acts == [] then 0
    else
      var n := |acts| - 1;
      var before := Balance(acts[..n], topic, timeout);
      if Sends(Run(acts[..n], timeout), acts[n], topic) then before + 1
      else if Removes(acts[n], topic) && before > 0 then before - 1
      else before
  }

  lemma BalanceStep(s: Sys, a: Action, topic: Topic, timeout: real)
    ensures OnTheWay(Step(s, a, timeout), topic) == if Sends(s, a, topic) then OnTheWay(s, topic) + 1
      else if Removes(a, topic) && OnTheWay(s, topic) > 0 then OnTheWay(s, topic) - 1
      else OnTheWay(s, topic)
  {
    hide FirstRearm, Fresh, WdHeartbeat, WdRearm, LatchRearm, LatchStatus;
  }

  /** Over every run no emergency stop and no re-arm appears or vanishes: what is on the way was sent, and neither delivered nor lost. */
  lemma {:induction false} NothingVanishes(acts: seq<Action>, topic: Topic, timeout: real)
    ensures OnTheWay(Run(acts, timeout), topic) == Balance(acts, topic, timeout)
  {
    if acts != [] {
      var n := |acts| - 1;
      NothingVanishes(acts[..n], topic, timeout);
      BalanceStep(Run(acts[..n], timeout), acts[n], topic, timeout);
      hide Step, Sends, OnTheWay;
    }
  }
}
