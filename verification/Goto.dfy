/** `GotoArbiter` of body/lib/local_drive_core.py: which goto or path is in force, under resends and reordering. */
module Goto {
  import opened Numbers
  import opened Options

  /** The `cmd_id` field of a message: left out, a number, or not convertible. */
  datatype IdField = Missing | Number(n: int) | Bad

  datatype Kind = Cancel | Path | Point

  /**
   A command message, with what the parsing steps find: `pathOk` for
   `_valid_path_msg`, `fieldsOk` for the frame, coordinate and option checks.
   */
  datatype Msg = Msg(kind: Kind, cmdId: IdField, pathSeq: int, pathOk: bool, fieldsOk: bool, payload: int)

  datatype Reason = EStop | Dropped(why: int)

  datatype Outcome = Accepted | Duplicate | Rejected | RefusedEStop | Canceled | Malformed | PathUpdate

  datatype State = State(goal: Option<Msg>, watermark: int, pendingCanceled: Option<int>, fault: Option<(int, Reason)>, rejects: seq<int>)

  const INITIAL: State := State(None, -1, None, None, [])

  /** `int(msg.get("cmd_id", 0))` */
  function IdOf(m: Msg): int
    requires !m.cmdId.Bad?
  {
    if m.cmdId.Missing? then 0 else m.cmdId.n
  }

  /** `int(self.goal.get("cmd_id", default))` */
  function GoalId(goal: Msg, default: int): int {
    if goal.cmdId.Number? then goal.cmdId.n else default
  }

  /** Whether a message under the current id replaces the active path. */
  predicate Refreshes(s: State, m: Msg)
    requires !m.cmdId.Bad?
  {
    m.kind == Path && s.goal.Some? && GoalId(s.goal.value, -1) == IdOf(m) && s.goal.value.kind == Path
    && m.pathOk && m.pathSeq > s.goal.value.pathSeq
  }

  predicate WellFormed(m: Msg) {
    m.fieldsOk && (m.kind == Path ==> m.pathOk)
  }

  /** `on_command` */
  function OnCommand(s: State, m: Msg, estop: bool): (State, Outcome) {
    if m.cmdId.Bad? then (s, Malformed)
    else
      var id := IdOf(m);
      if m.kind == Cancel then
        (State(None, Max(s.watermark, id),
               if s.goal.Some? then Some(GoalId(s.goal.value, s.watermark)) else s.pendingCanceled, None, s.rejects), Canceled)
      else if id == s.watermark then
        if Refreshes(s, m) then (s.(goal := Some(m)), PathUpdate) else (s, Duplicate)
      else if id < s.watermark then (s.(rejects := s.rejects + [id]), Rejected)
      else if !WellFormed(m) then (s.(watermark := id, rejects := s.rejects + [id]), Malformed)
      else if estop then (State(None, id, None, Some((id, EStop)), s.rejects), RefusedEStop)
      else (State(Some(m), id, None, None, s.rejects), Accepted)
  }

  function Drop(s: State, why: int): State {
    if s.goal.None? then s else s.(goal := None, fault := Some((GoalId(s.goal.value, s.watermark), Dropped(why))))
  }

  function Finish(s: State, id: int): State {
    if s.goal.Some? && GoalId(s.goal.value, -1) == id then s.(goal := None) else s
  }

  /** What is published while there is no goal. */
  datatype Report = CanceledReport(id: int) | FaultReport(id: int, why: Reason) | IdleReport(id: int)

  /** `idle_status` consumes a pending CANCELED. */
  function Idle(s: State): State {
    s.(pendingCanceled := None)
  }

  class GotoArbiter {
    var goal: Option<Msg>
    var watermark: int
    var pendingCanceled: Option<int>
    var fault: Option<(int, Reason)>
    var rejects: seq<int>

    function Value(): State
      reads this
    {
      State(goal, watermark, pendingCanceled, fault, rejects)
    }

    constructor ()
      ensures Value() == INITIAL
    {
      goal, watermark, pendingCanceled, fault, rejects := None, -1, None, None, [];
    }

    method Command(m: Msg, estop: bool) returns (r: Outcome)
      modifies this
      ensures (Value(), r) == OnCommand(old(Value()), m, estop)
    {
      if m.cmdId.Bad? { return Malformed; }
      var id := IdOf(m);
      if m.kind == Cancel {
        var revoked := if goal.Some? then Some(GoalId(goal.value, watermark)) else None;
        watermark := Max(watermark, id);
        goal, fault := None, None;
        if revoked.Some? { pendingCanceled := revoked; }
        return Canceled;
      }
      if id == watermark {
        if m.kind == Path && goal.Some? && GoalId(goal.value, -1) == id && goal.value.kind == Path
           && m.pathOk && m.pathSeq > goal.value.pathSeq {
          goal := Some(m);
          return PathUpdate;
        }
        return Duplicate;
      }
      if id < watermark {
        rejects := rejects + [id];
        return Rejected;
      }
      if !WellFormed(m) {
        watermark := id;
        rejects := rejects + [id];
        return Malformed;
      }
      watermark := id;
      pendingCanceled := None;
      if estop {
        goal := None;
        fault := Some((id, EStop));
        return RefusedEStop;
      }
      goal := Some(m);
      fault := None;
      return Accepted;
    }

    method TakeRejects() returns (out: seq<int>)
      modifies this
      ensures out == old(rejects) && Value() == old(Value()).(rejects := [])
    {
      out := rejects;
      rejects := [];
    }

    method DropGoal(why: int) returns (id: Option<int>)
      modifies this
      ensures Value() == Drop(old(Value()), why)
      ensures goal == None && (id.None? ==> Value() == old(Value())) && (id.Some? ==> fault == Some((id.value, Dropped(why))))
      ensures id == if old(goal).None? then None else Some(GoalId(old(goal).value, old(watermark)))
    {
      if goal.None? { return None; }
      id := Some(GoalId(goal.value, watermark));
      goal := None;
      fault := Some((id.value, Dropped(why)));
    }

    method FinishGoal(id: int)
      modifies this
      ensures Value() == Finish(old(Value()), id)
      ensures goal == None || goal == old(goal)
      ensures old(goal).Some? && old(goal).value.cmdId == Number(id) ==> goal == None
      ensures old(goal).Some? && old(goal).value.cmdId.Number? && old(goal).value.cmdId.n != id ==> goal == old(goal)
    {
      if goal.Some? && GoalId(goal.value, -1) == id {
        goal := None;
      }
    }

    /** `idle_status`: a pending CANCELED first and once, then a latched fault, then idle. */
    method IdleStatus() returns (r: Report)
      modifies this
      ensures Value() == Idle(old(Value())) && pendingCanceled == None
      ensures old(pendingCanceled).Some? ==> r == CanceledReport(old(pendingCanceled).value)
      ensures old(pendingCanceled).None? && fault.Some? ==> r == FaultReport(fault.value.0, fault.value.1)
      ensures old(pendingCanceled).None? && fault.None? ==> r == IdleReport(Max(0, watermark))
    {
      if pendingCanceled.Some? {
        r := CanceledReport(pendingCanceled.value);
        pendingCanceled := None;
        return;
      }
      if fault.Some? { return FaultReport(fault.value.0, fault.value.1); }
      return IdleReport(Max(0, watermark));
    }
  }

  // ── runs ──

  datatype Action = Command(m: Msg, estop: bool) | TakeRejects | DropIt(why: int) | FinishIt(id: int) | IdleStatus

  function Step(s: State, a: Action): State {
    match a
    case Command(m, estop) => OnCommand(s, m, estop).0
    case TakeRejects => s.(rejects := [])
    case DropIt(why) => Drop(s, why)
    case FinishIt(id) => Finish(s, id)
    case IdleStatus => Idle(s)
  }

  function Run(acts: seq<Action>): State {
    if acts == [] then INITIAL else Step(Run(acts[..|acts| - 1]), acts[|acts| - 1])
  }

  lemma RunStep(acts: seq<Action>, n: nat)
    requires n < |acts|
    ensures Run(acts[..n + 1]) == Step(Run(acts[..n]), acts[n])
  {
    assert acts[..n + 1][..n] == acts[..n];
  }

  /** The goal in force never has a number above the watermark. */
  ghost predicate GoalBelow(s: State) {
    s.goal.Some? ==> !s.goal.value.cmdId.Bad? && s.goal.value.kind != Cancel && IdOf(s.goal.value) <= s.watermark
  }

  lemma {:induction false} RunGoalBelow(acts: seq<Action>)
    ensures GoalBelow(Run(acts)) && Run(acts).watermark >= -1
  {
    if acts != [] {
      RunGoalBelow(acts[..|acts| - 1]);
    }
  }

  /** What a resend must not touch. */
  function Core(s: State): (Option<Msg>, int, Option<int>, Option<(int, Reason)>) {
    (s.goal, s.watermark, s.pendingCanceled, s.fault)
  }

  /** A goto or path message that can change nothing any more: below the watermark, or on it and no refresh. */
  ghost predicate Absorbed(s: State, m: Msg) {
    m.kind != Cancel && !m.cmdId.Bad? && (IdOf(m) < s.watermark || (IdOf(m) == s.watermark && !Refreshes(s, m)))
  }

  lemma AbsorbedStays(s: State, m: Msg, a: Action)
    requires GoalBelow(s) && Absorbed(s, m)
    ensures Absorbed(Step(s, a), m)
  {
  }

  lemma ProcessedIsAbsorbed(s: State, m: Msg, estop: bool)
    requires GoalBelow(s) && s.watermark >= -1 && m.kind != Cancel && !m.cmdId.Bad?
    ensures Absorbed(OnCommand(s, m, estop).0, m)
  {
  }

  lemma {:induction false} AbsorbedOnwards(acts: seq<Action>, n: nat, m: Msg)
    requires n <= |acts| && Absorbed(Run(acts[..n]), m)
    ensures Absorbed(Run(acts), m)
    decreases |acts| - n
  {
    if n < |acts| {
      RunGoalBelow(acts[..n]);
      RunStep(acts, n);
      AbsorbedStays(Run(acts[..n]), m, acts[n]);
      AbsorbedOnwards(acts, n + 1, m);
    } else {
      assert acts[..n] == acts;
    }
  }

  /**
   Replay safety: after any history, re-delivering any goto or path message
   already processed leaves goal, watermark, pending cancel and fault alone,
   whatever the e-stop says now.
   */
  lemma ReplayIsSafe(acts: seq<Action>, n: nat, estop: bool)
    requires n < |acts| && acts[n].Command? && acts[n].m.kind != Cancel
    ensures Core(OnCommand(Run(acts), acts[n].m, estop).0) == Core(Run(acts))
  {
    var m := acts[n].m;
    if !m.cmdId.Bad? {
      RunGoalBelow(acts[..n]);
      RunStep(acts, n);
      ProcessedIsAbsorbed(Run(acts[..n]), m, acts[n].estop);
      AbsorbedOnwards(acts, n + 1, m);
    }
  }

  /** The watermark never falls. */
  lemma {:induction false} WatermarkGrows(acts: seq<Action>, n: nat, k: nat)
    requires n <= k <= |acts|
    ensures Run(acts[..n]).watermark <= Run(acts[..k]).watermark
  {
    if n < k {
      WatermarkGrows(acts, n, k - 1);
      RunStep(acts, k - 1);
    }
  }

  /** The outcome of the command at step `n`. */
  function OutcomeAt(acts: seq<Action>, n: nat): Outcome
    requires n < |acts| && acts[n].Command?
  {
    OnCommand(Run(acts[..n]), acts[n].m, acts[n].estop).1
  }

  /**
   A goal starts only under a number above every number processed before it. So
   each number starts at most one goal, and one that was refused under e-stop,
   found malformed, or canceled never starts later.
   */
  lemma StartsAreNew(acts: seq<Action>, n: nat, k: nat)
    requires n < k < |acts| && acts[n].Command? && !acts[n].m.cmdId.Bad?
    requires acts[k].Command? && OutcomeAt(acts, k) == Accepted
    ensures IdOf(acts[n].m) < IdOf(acts[k].m)
  {
    RunStep(acts, n);
    WatermarkGrows(acts, n + 1, k);
  }

  /** The path `m` starts the goal or refreshes it. */
  predicate TakesPath(s: State, m: Msg, estop: bool) {
    m.kind == Path && (OnCommand(s, m, estop).1 == Accepted || OnCommand(s, m, estop).1 == PathUpdate)
  }

  /** Number `id` is past, or a path in force under it has a sequence number of at least `q`. */
  ghost predicate PastSeq(s: State, id: int, q: int) {
    || s.watermark > id
    || (s.watermark == id
        && (s.goal.Some? && s.goal.value.kind == Path && GoalId(s.goal.value, -1) == id ==> s.goal.value.pathSeq >= q))
  }

  lemma TakenIsPast(s: State, m: Msg, estop: bool)
    requires TakesPath(s, m, estop)
    ensures !m.cmdId.Bad? && PastSeq(OnCommand(s, m, estop).0, IdOf(m), m.pathSeq)
  {
  }

  lemma PastStays(s: State, a: Action, id: int, q: int)
    requires PastSeq(s, id, q)
    ensures PastSeq(Step(s, a), id, q)
  {
  }

  lemma {:induction false} PastOnwards(acts: seq<Action>, n: nat, k: nat, id: int, q: int)
    requires n <= k <= |acts| && PastSeq(Run(acts[..n]), id, q)
    ensures PastSeq(Run(acts[..k]), id, q)
  {
    if n < k {
      hide PastSeq, Step;
      PastOnwards(acts, n, k - 1, id, q);
      RunStep(acts, k - 1);
      PastStays(Run(acts[..k - 1]), acts[k - 1], id, q);
    }
  }

  /**
   Refreshes rise: whatever drops, finishes, cancels and other commands lie
   between, a refresh has a strictly higher sequence number than every path taken
   before it under the same number, the one that started the goal included.
   */
  lemma RefreshRaises(acts: seq<Action>, n: nat, k: nat)
    requires n < k < |acts| && acts[n].Command? && TakesPath(Run(acts[..n]), acts[n].m, acts[n].estop)
    requires acts[k].Command? && OutcomeAt(acts, k) == PathUpdate
    requires !acts[n].m.cmdId.Bad? && !acts[k].m.cmdId.Bad? && IdOf(acts[n].m) == IdOf(acts[k].m)
    ensures acts[n].m.pathSeq < acts[k].m.pathSeq
  {
    var m := acts[n].m;
    TakenIsPast(Run(acts[..n]), m, acts[n].estop);
    RunStep(acts, n);
    PastOnwards(acts, n + 1, k, IdOf(m), m.pathSeq);
    hide Run;
  }

  /**
   A malformed goto under a readable new number takes that number and is
   rejected, but leaves the older goal in force; an unreadable one changes nothing.
   */
  lemma MalformedKeepsGoal(s: State, m: Msg, estop: bool)
    requires OnCommand(s, m, estop).1 == Malformed
    ensures var s' := OnCommand(s, m, estop).0;
      && s'.goal == s.goal && s'.fault == s.fault && s'.pendingCanceled == s.pendingCanceled
      && if m.cmdId.Bad? then s'.watermark == s.watermark && s'.rejects == s.rejects
         else s.watermark < s'.watermark == IdOf(m) && s'.rejects == s.rejects + [IdOf(m)]
  {
  }

  // ── outcomes and the goal in force, by the history ──

  /** The highest number of any readable command so far; -1 before the first. */
  function Highest(acts: seq<Action>): int {
    if acts == [] then -1
    else
      var a := acts[|acts| - 1];
      var before := Highest(acts[..|acts| - 1]);
      if a.Command? && !a.m.cmdId.Bad? then Max(before, IdOf(a.m)) else before
  }

  lemma {:induction false} WatermarkIsHighest(acts: seq<Action>)
    ensures Run(acts).watermark == Highest(acts)
  {
    if acts != [] {
      WatermarkIsHighest(acts[..|acts| - 1]);
    }
  }

  /** The path in force under number `id` is older than `m`. */
  predicate Outdated(goal: Option<Msg>, id: int, m: Msg) {
    goal.Some? && goal.value.kind == Path && goal.value.cmdId == Number(id) && goal.value.pathSeq < m.pathSeq
  }

  /** What each answer to a readable goto or path means, given the highest number before it. */
  ghost predicate AnswerMeans(h: int, goal: Option<Msg>, m: Msg, id: int, estop: bool, r: Outcome) {
    && (r == Rejected <==> id < h)
    && (r == PathUpdate <==> id == h && m.kind == Path && m.pathOk && Outdated(goal, id, m))
    && (r == Duplicate <==> id == h && !(m.kind == Path && m.pathOk && Outdated(goal, id, m)))
    && (r == Malformed <==> id > h && !(m.fieldsOk && (m.kind == Path ==> m.pathOk)))
    && (r == RefusedEStop <==> id > h && m.fieldsOk && (m.kind == Path ==> m.pathOk) && estop)
    && (r == Accepted <==> id > h && m.fieldsOk && (m.kind == Path ==> m.pathOk) && !estop)
  }

  /** What each answer leaves behind. */
  ghost predicate AnswerLeaves(s: State, m: Msg, id: int, r: Outcome, s': State) {
    match r
    case Accepted => s'.goal == Some(m) && s'.fault == None && s'.pendingCanceled == None && s'.rejects == s.rejects
    case RefusedEStop => s'.goal == None && s'.fault == Some((id, EStop)) && s'.pendingCanceled == None && s'.rejects == s.rejects
    case PathUpdate => s'.goal == Some(m) && s'.fault == s.fault && s'.pendingCanceled == s.pendingCanceled && s'.rejects == s.rejects
    case Duplicate => s' == s
    case Canceled =>
      && s'.goal == None && s'.fault == None && s'.rejects == s.rejects
      && (s.goal.None? ==> s'.pendingCanceled == s.pendingCanceled)
      && (s.goal.Some? ==> s'.pendingCanceled == Some(if s.goal.value.cmdId.Number? then s.goal.value.cmdId.n else s.watermark))
    case _ => Core(s') == (s.goal, s'.watermark, s.pendingCanceled, s.fault) && s'.rejects == s.rejects + [id]
  }

  /** The number a message counts under: its own, or zero when it has none. */
  predicate Counts(m: Msg, id: int) {
    m.cmdId == Number(id) || (m.cmdId == Missing && id == 0)
  }

  /**
   Over every run, the answer to a readable command depends only on the highest
   number before it, the goal in force, the message and the e-stop, and so does
   what it leaves; only a goto or path that is accepted, or that refreshes a path,
   becomes the goal.
   */
  lemma AnswersAre(acts: seq<Action>, n: nat, id: int)
    requires n < |acts| && acts[n].Command? && Counts(acts[n].m, id)
    ensures var s := Run(acts[..n]);
      && (OutcomeAt(acts, n) == Canceled <==> acts[n].m.kind == Cancel)
      && (acts[n].m.kind != Cancel ==> AnswerMeans(Highest(acts[..n]), s.goal, acts[n].m, id, acts[n].estop, OutcomeAt(acts, n)))
      && AnswerLeaves(s, acts[n].m, id, OutcomeAt(acts, n), Run(acts[..n + 1]))
  {
    WatermarkIsHighest(acts[..n]);
    RunGoalBelow(acts[..n]);
    RunStep(acts, n);
    hide Run, Highest;
  }

  /** Step `n` makes `m` the goal. */
  predicate TakesAt(acts: seq<Action>, n: nat, m: Msg) {
    n < |acts| && acts[n].Command? && acts[n].m == m && (OutcomeAt(acts, n) == Accepted || OutcomeAt(acts, n) == PathUpdate)
  }

  /** Step `n` ends the goal `m` or puts another in its place. */
  predicate EndsAt(acts: seq<Action>, n: nat, m: Msg)
    requires n < |acts|
  {
    match acts[n]
    case Command(c, _) => OutcomeAt(acts, n) in {Accepted, PathUpdate, RefusedEStop, Canceled}
    case DropIt(_) => true
    case FinishIt(id) => m.cmdId == Number(id) || (!m.cmdId.Number? && id == -1)
    case _ => false
  }

  ghost predicate InForceSince(acts: seq<Action>, n: nat, m: Msg) {
    TakesAt(acts, n, m) && forall k :: n < k < |acts| ==> !EndsAt(acts, k, m)
  }

  lemma TakesInside(acts: seq<Action>, n: nat, m: Msg)
    requires TakesAt(acts, n, m)
    ensures n < |acts|
  {
  }

  lemma PrefixOutcomes(acts: seq<Action>, before: seq<Action>, n: nat)
    requires n < |before| < |acts| && before == acts[..|before|] && acts[n].Command?
    ensures OutcomeAt(before, n) == OutcomeAt(acts, n)
  {
    assert before[..n] == acts[..n];
  }

  lemma EarlierAgree(acts: seq<Action>, m: Msg)
    requires acts != []
    ensures var before := acts[..|acts| - 1];
      forall n: nat :: n < |before| ==> TakesAt(before, n, m) == TakesAt(acts, n, m) && EndsAt(before, n, m) == EndsAt(acts, n, m)
  {
    var before := acts[..|acts| - 1];
    forall n: nat | n < |before| && acts[n].Command? ensures OutcomeAt(before, n) == OutcomeAt(acts, n) {
      PrefixOutcomes(acts, before, n);
    }
    hide OutcomeAt;
  }

  /** What the last step does to the goal. */
  lemma GoalAfter(acts: seq<Action>, m: Msg)
    requires acts != []
    ensures var n := |acts| - 1;
      Run(acts).goal == Some(m) <==> TakesAt(acts, n, m) || (Run(acts[..n]).goal == Some(m) && !EndsAt(acts, n, m))
  {
  }

  /**
   Over every run the goal in force is exactly the one last taken, by a goto or
   path accepted without an e-stop or by the refresh of a path, and not since
   replaced, refused under an e-stop, canceled, dropped or finished.
   */
  lemma {:induction false} GoalIs(acts: seq<Action>, m: Msg)
    ensures Run(acts).goal == Some(m) <==> exists n: nat :: InForceSince(acts, n, m)
  {
    if acts == [] {
    } else {
      var n := |acts| - 1;
      var before := acts[..n];
      GoalIs(before, m);
      GoalAfter(acts, m);
      EarlierAgree(acts, m);
      hide Run, TakesAt, EndsAt;
      if TakesAt(acts, n, m) {
        assert InForceSince(acts, n, m);
      } else if Run(before).goal == Some(m) && !EndsAt(acts, n, m) {
        var i: nat :| InForceSince(before, i, m);
        assert i < |before| by { TakesInside(before, i, m); }
        assert InForceSince(acts, i, m);
      }
      if i: nat :| InForceSince(acts, i, m) {
        TakesInside(acts, i, m);
        if i < n { assert InForceSince(before, i, m); }
      }
    }
  }

  // ── cancels are not replay-safe ──

  /** Re-delivering a cancel is harmless exactly when there is nothing to cancel and its number is not new. */
  lemma CancelReplay(s: State, m: Msg, estop: bool)
    requires m.kind == Cancel && !m.cmdId.Bad?
    ensures Core(OnCommand(s, m, estop).0) == Core(s) <==> s.goal.None? && s.fault.None? && IdOf(m) <= s.watermark
  {
  }

  const OLD_CANCEL: Msg := Msg(Cancel, Number(1), 0, false, true, 0)
  const NEW_GOTO: Msg := Msg(Point, Number(2), 0, false, true, 0)

  /** A late copy of an old cancel drops a newer goal. */
  lemma OldCancelDropsNewGoal()
    ensures var s := Run([Command(OLD_CANCEL, false), Command(NEW_GOTO, false)]);
            s.goal == Some(NEW_GOTO) && OnCommand(s, OLD_CANCEL, false).0.goal == None
  {
    var acts := [Command(OLD_CANCEL, false), Command(NEW_GOTO, false)];
    assert acts[..1] == [Command(OLD_CANCEL, false)];
    assert acts[..1][..0] == [];
    assert Run(acts[..1]) == Step(INITIAL, acts[0]);
    assert Run(acts) == Step(Run(acts[..1]), acts[1]);
  }
}
