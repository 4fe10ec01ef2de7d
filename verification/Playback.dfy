/**
 The playback protocol: chunk messages, stops and the playback thread interleave
 freely; every block under the lock, and every call to the player, is one step.
 */
module Playback {
  import opened Options
  import opened AudioBridge

  /** Where the playback thread stands. `taken` are the chunks popped so far, `written` those the player took. */
  datatype Phase =
    | Idle
    | Opening
    | Playing(taken: seq<Pcm>)
    | Writing(taken: seq<Pcm>)
    | Closing(taken: seq<Pcm>, error: Option<Error>)
    | Ending(written: seq<Pcm>, error: Option<Error>)
    | Reporting(u: Utterance, written: seq<Pcm>, error: Option<Error>)

  datatype Event = Started(id: Id) | Done(id: Id, error: Option<Error>)

  /** How an utterance the thread played came out. */
  datatype Outcome = Outcome(u: Utterance, written: seq<Pcm>, error: Option<Error>)

  /**
   The whole system. History: `arrivals` in order, `dones` in the order they
   entered the memory, `played` the arrival numbers taken up, `started` those the
   player opened for, `stops` those a stop found playing, and the `outcomes`. `pending` holds the reports of
   dropped utterances that their threads have decided on but not yet emitted.
   */
  datatype Sys = Sys(sh: Shared, phase: Phase, pending: seq<Event>, emitted: seq<Event>,
                     arrivals: seq<Id>, dones: seq<Id>, played: seq<nat>, started: seq<nat>, stops: set<nat>,
                     outcomes: seq<Outcome>)

  datatype Action =
    | ChunkArrives(c: Chunk, now: real)
    | Stop | Shutdown | Emit(i: nat)
    | TakeNext
    | Open | OpenFails
    | Loop(now: real, gap: real)
    | WriteOk | WriteFails
    | CloseOk | CloseFails
    | End | Report
    | DeviceProbe(ok: bool)

  function Initial(maxQueue: nat): Sys {
    Sys(Shared([], [], None, false, false, true, maxQueue, 0), Idle, [], [], [], [], [], [], {}, [])
  }

  function DroppedEvents(ids: seq<Id>): seq<Event> {
    seq(|ids|, k requires 0 <= k < |ids| => Done(ids[k], Some(Stopped)))
  }

  function ErrorNow(s: Shared): Error {
    if s.cut || s.stopping then Stopped else PlayerError
  }

  /** The first chunk of an utterance the bridge does not hold and does not remember. */
  predicate IsNew(s: Shared, id: Id) {
    id !in s.doneIds && Find(s.queue, id) == |s.queue| && !(s.current.Some? && s.current.value.id == id)
  }

  function DoChunk(s: Sys, c: Chunk, now: real): Sys {
    var (sh, refused) := OnChunk(s.sh, c, now);
    var s1 := s.(sh := sh, arrivals := if IsNew(s.sh, c.id) then s.arrivals + [c.id] else s.arrivals);
    if refused.Some?
    then s1.(dones := s.dones + [c.id], pending := s.pending + [Done(c.id, refused)])
    else s1
  }

  function DoStop(s: Sys): Sys {
    s.(sh := StopAll(s.sh), dones := s.dones + Ids(s.sh.queue), pending := s.pending + DroppedEvents(Ids(s.sh.queue)),
       stops := if s.sh.current.Some? then s.stops + {s.sh.current.value.arrival} else s.stops)
  }

  function DoLoop(s: Sys, now: real, gap: real): Sys
    requires s.phase.Playing? && s.sh.current.Some?
  {
    var u := s.sh.current.value;
    var next := |s.phase.taken|;
    match Decide(s.sh, u, next, now, gap)
    case Wait => s
    case Cut => s.(phase := Closing(s.phase.taken, Some(Stopped)))
    case Clean => s.(phase := Closing(s.phase.taken, None))
    case Gap => s.(phase := Closing(s.phase.taken, Some(GapTimeout)))
    case Write(pcm) => s.(phase := Writing(s.phase.taken + [pcm]), sh := s.sh.(current := Some(Popped(u, next))))
  }

  function DoEnd(s: Sys): Sys
    requires s.phase.Ending? && s.sh.current.Some?
  {
    var u := s.sh.current.value;
    s.(sh := Finish(s.sh), dones := s.dones + [u.id], phase := Reporting(u, s.phase.written, s.phase.error),
       outcomes := s.outcomes + [Outcome(u, s.phase.written, s.phase.error)])
  }

  /** Whether the playback thread can take this step where it stands. */
  predicate Enabled(s: Sys, a: Action) {
    match a
    case Emit(i) => i < |s.pending|
    case TakeNext => s.phase.Idle? && !s.sh.stopping && s.sh.queue != []
    case Open => s.phase.Opening? && s.sh.current.Some?
    case OpenFails => s.phase.Opening?
    case Loop(_, _) => s.phase.Playing? && s.sh.current.Some?
    case WriteOk => s.phase.Writing?
    case WriteFails => s.phase.Writing? && s.phase.taken != []
    case CloseOk => s.phase.Closing?
    case CloseFails => s.phase.Closing?
    case End => s.phase.Ending? && s.sh.current.Some?
    case Report => s.phase.Reporting?
    case _ => true
  }

  /** One step; an action that is not enabled changes nothing. */
  function Step(s: Sys, a: Action): Sys {
    if !Enabled(s, a) then s
    else
      match a
      case ChunkArrives(c, now) => DoChunk(s, c, now)
      case Stop => DoStop(s)
      case Shutdown => s.(sh := s.sh.(stopping := true))
      case DeviceProbe(ok) => s.(sh := s.sh.(deviceOk := ok))
      case Emit(i) => s.(pending := s.pending[..i] + s.pending[i + 1..], emitted := s.emitted + [s.pending[i]])
      case TakeNext => s.(sh := Take(s.sh), phase := Opening, played := s.played + [s.sh.queue[0].arrival])
      case Open => s.(phase := Playing([]), emitted := s.emitted + [Started(s.sh.current.value.id)],
                      started := s.started + [s.sh.current.value.arrival])
      case OpenFails => s.(phase := Ending([], Some(ErrorNow(s.sh))))
      case Loop(now, gap) => DoLoop(s, now, gap)
      case WriteOk => s.(phase := Playing(s.phase.taken))
      case WriteFails => s.(phase := Ending(s.phase.taken[..|s.phase.taken| - 1], Some(ErrorNow(s.sh))))
      case CloseOk => s.(phase := Ending(s.phase.taken, s.phase.error))
      case CloseFails => s.(phase := Ending(s.phase.taken, Some(ErrorNow(s.sh))))
      case End => DoEnd(s)
      case Report => s.(phase := Idle, emitted := s.emitted + [Done(s.phase.u.id, s.phase.error)])
  }

  function Run(maxQueue: nat, acts: seq<Action>): Sys {
    if acts == [] then Initial(maxQueue) else Step(Run(maxQueue, acts[..|acts| - 1]), acts[|acts| - 1])
  }

  // ── who is where: the memory of finished utterances ──

  /** The last 64. */
  function Window(dones: seq<Id>): seq<Id> {
    if |dones| > DONE_MEMORY then dones[|dones| - DONE_MEMORY..] else dones
  }

  lemma RememberWindow(dones: seq<Id>, id: Id)
    ensures Remember(Window(dones), id) == Window(dones + [id])
  {
  }

  lemma {:induction false} RememberAllWindow(dones: seq<Id>, ids: seq<Id>)
    ensures RememberAll(Window(dones), ids) == Window(dones + ids)
    decreases |ids|
  {
    if ids == [] {
      assert dones + ids == dones;
    } else {
      RememberWindow(dones, ids[0]);
      RememberAllWindow(dones + [ids[0]], ids[1..]);
      assert dones + [ids[0]] + ids[1..] == dones + ids;
    }
  }

  /** An id comes back only after more than 64 others. */
  ghost predicate Spaced(dones: seq<Id>) {
    forall i, j :: 0 <= i < j < |dones| && j - i <= 64 ==> dones[i] != dones[j]
  }

  lemma SpacedAppend(dones: seq<Id>, id: Id)
    requires Spaced(dones) && id !in Window(dones)
    ensures Spaced(dones + [id])
  {
    var d := dones + [id];
    forall i, j | 0 <= i < j < |d| && j - i <= 64 ensures d[i] != d[j] {
      if j == |dones| {
        assert dones[i] == Window(dones)[if |dones| > DONE_MEMORY then i - (|dones| - DONE_MEMORY) else i];
      }
    }
  }

  ghost predicate NoRepeat(ids: seq<Id>) {
    forall i, j :: 0 <= i < j < |ids| ==> ids[i] != ids[j]
  }

  lemma {:induction false} SpacedAppendAll(dones: seq<Id>, ids: seq<Id>)
    requires Spaced(dones) && NoRepeat(ids) && forall k :: 0 <= k < |ids| ==> ids[k] !in Window(dones)
    ensures Spaced(dones + ids)
    decreases |ids|
  {
    if ids == [] {
      assert dones + ids == dones;
    } else {
      SpacedAppend(dones, ids[0]);
      forall k | 0 < k < |ids| ensures ids[k] !in Window(dones + [ids[0]]) {
        RememberWindow(dones, ids[0]);
      }
      SpacedAppendAll(dones + [ids[0]], ids[1..]);
      assert dones + [ids[0]] + ids[1..] == dones + ids;
    }
  }

  /** The ids in the bridge's hands: the one playing and those waiting, in order. */
  function Held(s: Shared): seq<Id> {
    (if s.current.Some? then [s.current.value.id] else []) + Ids(s.queue)
  }

  /** No id is held twice, and none that is held is remembered as finished. */
  ghost predicate Apart(s: Shared) {
    NoRepeat(Held(s)) && forall id :: id in Held(s) ==> id !in s.doneIds
  }

  ghost predicate Remembered(s: Sys) {
    Apart(s.sh) && s.sh.doneIds == Window(s.dones) && Spaced(s.dones)
  }

  lemma {:induction false} IdsUpdate(queue: seq<Utterance>, k: nat, u: Utterance)
    requires k < |queue| && u.id == queue[k].id
    ensures Ids(queue[k := u]) == Ids(queue)
  {
  }

  lemma IdsAppend(queue: seq<Utterance>, u: Utterance)
    ensures Ids(queue + [u]) == Ids(queue) + [u.id]
  {
  }

  lemma FoundIsHeld(queue: seq<Utterance>, id: Id)
    ensures Find(queue, id) < |queue| <==> id in Ids(queue)
  {
    var k := Find(queue, id);
    if k < |queue| { assert Ids(queue)[k] == id; }
    if id in Ids(queue) { var j :| 0 <= j < |queue| && Ids(queue)[j] == id; assert queue[j].id == id; }
  }

  lemma ReceiveId(u: Utterance, c: Chunk, now: real)
    ensures Receive(u, c, now).id == u.id && Receive(u, c, now).arrival == u.arrival
  {
  }

  /** What a chunk does to the ids held and remembered: nothing, or a new id goes to one of the two. */
  lemma ChunkHeld(s: Shared, c: Chunk, now: real)
    ensures IsNew(s, c.id) <==> c.id !in s.doneIds && c.id !in Held(s)
    ensures var (s', refused) := OnChunk(s, c, now);
            if !IsNew(s, c.id) then Held(s') == Held(s) && s'.doneIds == s.doneIds && refused.None? && s'.arrived == s.arrived
            else s'.arrived == s.arrived + 1
                 && if refused.Some? then Held(s') == Held(s) && s'.doneIds == Remember(s.doneIds, c.id)
                    else Held(s') == Held(s) + [c.id] && s'.doneIds == s.doneIds
  {
    hide Remember, Receive;
    FoundIsHeld(s.queue, c.id);
    var k := Find(s.queue, c.id);
    if k < |s.queue| {
      ReceiveId(s.queue[k], c, now);
      IdsUpdate(s.queue, k, Receive(s.queue[k], c, now));
    } else {
      ReceiveId(Fresh(c.id, s.arrived), c, now);
      IdsAppend(s.queue, Receive(Fresh(c.id, s.arrived), c, now));
      if s.current.Some? { ReceiveId(s.current.value, c, now); }
    }
  }

  /** A new memory holds nothing but the old one's ids and the one just added. */
  lemma MemoryGrows(done: seq<Id>, id: Id)
    ensures forall x :: x in Remember(done, id) ==> x in done || x == id
  {
  }

  lemma RememberedChunk(s: Sys, c: Chunk, now: real)
    requires Remembered(s)
    ensures Remembered(DoChunk(s, c, now))
  {
    hide OnChunk, IsNew, Held, Window, Spaced, Remember;
    ChunkHeld(s.sh, c, now);
    RememberWindow(s.dones, c.id);
    if IsNew(s.sh, c.id) {
      SpacedAppend(s.dones, c.id);
      MemoryGrows(s.sh.doneIds, c.id);
    }
  }

  lemma {:induction false} MemoryGrowsAll(done: seq<Id>, ids: seq<Id>)
    ensures forall x :: x in RememberAll(done, ids) ==> x in done || x in ids
    decreases |ids|
  {
    if ids != [] {
      MemoryGrows(done, ids[0]);
      MemoryGrowsAll(Remember(done, ids[0]), ids[1..]);
    }
  }

  lemma RememberedStop(s: Sys)
    requires Remembered(s)
    ensures Remembered(DoStop(s))
  {
    var ids := Ids(s.sh.queue);
    var held := Held(s.sh);
    var off := if s.sh.current.Some? then 1 else 0;
    assert forall k :: 0 <= k < |ids| ==> ids[k] == held[off + k];
    assert NoRepeat(ids);
    RememberAllWindow(s.dones, ids);
    SpacedAppendAll(s.dones, ids);
    if s.sh.current.Some? {
      assert held[0] == s.sh.current.value.id;
      assert s.sh.current.value.id !in ids;
      MemoryGrowsAll(s.sh.doneIds, ids);
    }
  }

  lemma TakeHeld(s: Shared)
    requires s.queue != [] && s.current.None?
    ensures Held(Take(s)) == Held(s) && Take(s).doneIds == s.doneIds
  {
    assert Ids(s.queue) == [s.queue[0].id] + Ids(s.queue[1..]);
  }

  lemma RememberedEnd(s: Sys)
    requires Remembered(s) && s.phase.Ending? && s.sh.current.Some?
    ensures Remembered(DoEnd(s))
  {
    var id, held := s.sh.current.value.id, Held(s.sh);
    assert held[0] == id && Held(Finish(s.sh)) == held[1..];
    RememberWindow(s.dones, id);
    SpacedAppend(s.dones, id);
    MemoryGrows(s.sh.doneIds, id);
    assert forall k :: 1 <= k < |held| ==> held[k] != held[0];
  }

  /** The bridge holds a current utterance exactly while the thread is busy with it. */
  ghost predicate PhaseOk(s: Sys) {
    s.sh.current.Some? <==> s.phase.Opening? || s.phase.Playing? || s.phase.Writing? || s.phase.Closing? || s.phase.Ending?
  }

  lemma PhaseKeeps(s: Sys, a: Action)
    requires PhaseOk(s)
    ensures PhaseOk(Step(s, a))
  {
    hide Find, Receive, Remember, RememberAll, Ids;
  }

  lemma RememberedKeeps(s: Sys, a: Action)
    requires Remembered(s) && PhaseOk(s)
    ensures Remembered(Step(s, a))
  {
    hide OnChunk, StopAll, Window, Spaced, NoRepeat, Remember;
    if Enabled(s, a) {
      match a
      case ChunkArrives(c, now) => RememberedChunk(s, c, now);
      case Stop => RememberedStop(s);
      case TakeNext => TakeHeld(s.sh);
      case End => RememberedEnd(s);
      case _ =>
        var s' := Step(s, a);
        assert Held(s'.sh) == Held(s.sh) && s'.sh.doneIds == s.sh.doneIds && s'.dones == s.dones;
    }
  }

  // ── exactly one report each ──

  /** The ids whose end is reported by `events`. */
  function DoneIds(events: seq<Event>): multiset<Id> {
    if events == [] then multiset{}
    else
      var e := events[|events| - 1];
      DoneIds(events[..|events| - 1]) + if e.Done? then multiset{e.id} else multiset{}
  }

  lemma {:induction false} DoneIdsConcat(a: seq<Event>, b: seq<Event>)
    ensures DoneIds(a + b) == DoneIds(a) + DoneIds(b)
  {
    if b == [] {
      assert a + b == a;
    } else {
      var n := |b| - 1;
      DoneIdsConcat(a, b[..n]);
      assert (a + b)[..|a + b| - 1] == a + b[..n];
    }
  }

  lemma DoneIdsOne(e: Event)
    ensures DoneIds([e]) == if e.Done? then multiset{e.id} else multiset{}
  {
    assert [e][..0] == [];
  }

  lemma {:induction false} DoneIdsDropped(ids: seq<Id>)
    ensures DoneIds(DroppedEvents(ids)) == multiset(ids)
    decreases |ids|
  {
    if ids == [] {
      assert DroppedEvents(ids) == [];
    } else {
      var n := |ids| - 1;
      var ev := DroppedEvents(ids);
      DoneIdsDropped(ids[..n]);
      assert ev[..n] == DroppedEvents(ids[..n]);
      assert ids == ids[..n] + [ids[n]];
    }
  }

  /** Reports still owed: decided on but not emitted. */
  function Owed(s: Sys): multiset<Id> {
    DoneIds(s.pending) + if s.phase.Reporting? then multiset{s.phase.u.id} else multiset{}
  }

  /** Conservation: every utterance that ever arrived is held or has ended. */
  ghost predicate Kept(s: Sys) {
    multiset(s.arrivals) == multiset(s.dones) + multiset(Held(s.sh)) && |s.arrivals| == s.sh.arrived
  }

  /** Every one that has ended has been reported exactly once, or is owed its report. */
  ghost predicate Reported(s: Sys) {
    multiset(s.dones) == DoneIds(s.emitted) + Owed(s)
  }

  lemma KeptChunk(s: Sys, c: Chunk, now: real)
    requires Kept(s)
    ensures Kept(DoChunk(s, c, now))
  {
    hide OnChunk, Remember, IsNew, Held;
    ChunkHeld(s.sh, c, now);
  }

  lemma StopKeepsCount(s: Shared)
    ensures StopAll(s).arrived == s.arrived && StopAll(s).queue == [] && StopAll(s).current == s.current
  {
  }

  lemma StopHeld(s: Shared)
    ensures Held(s) == Held(StopAll(s)) + Ids(s.queue)
  {
    assert Ids([]) == [];
  }

  lemma KeptStop(s: Sys)
    requires Kept(s)
    ensures Kept(DoStop(s))
  {
    hide Held, Ids, StopAll;
    StopHeld(s.sh);
    StopKeepsCount(s.sh);
  }

  lemma KeptEnd(s: Sys)
    requires Kept(s) && s.phase.Ending? && s.sh.current.Some?
    ensures Kept(DoEnd(s))
  {
    assert Held(s.sh) == [s.sh.current.value.id] + Held(Finish(s.sh));
    hide Held;
  }

  /** The actions that neither admit, end nor report an utterance. */
  predicate Neutral(a: Action) {
    !(a.ChunkArrives? || a.Stop? || a.TakeNext? || a.End? || a.Emit? || a.Open? || a.Report?)
  }

  lemma NeutralKeeps(s: Sys, a: Action)
    requires Neutral(a) && PhaseOk(s)
    ensures var t := Step(s, a);
            Held(t.sh) == Held(s.sh) && t.dones == s.dones && t.arrivals == s.arrivals && t.sh.arrived == s.sh.arrived
            && t.emitted == s.emitted && t.pending == s.pending && !t.phase.Reporting? == !s.phase.Reporting?
            && (s.phase.Reporting? ==> t.phase == s.phase)
  {
    hide Ids;
  }

  lemma KeptKeeps(s: Sys, a: Action)
    requires Kept(s) && PhaseOk(s)
    ensures Kept(Step(s, a))
  {
    hide OnChunk, StopAll, Remember, IsNew, Held, DoneIds, DoChunk, DoStop, DoEnd, DoLoop;
    if !Enabled(s, a) {
    } else if Neutral(a) {
      NeutralKeeps(s, a);
    } else {
      match a
      case ChunkArrives(c, now) => KeptChunk(s, c, now);
      case Stop => KeptStop(s);
      case TakeNext => TakeHeld(s.sh);
      case End => KeptEnd(s);
      case _ =>
    }
  }

  lemma SayReports(said: seq<Event>, e: Event)
    ensures DoneIds(said + [e]) == DoneIds(said) + if e.Done? then multiset{e.id} else multiset{}
  {
    DoneIdsConcat(said, [e]);
    DoneIdsOne(e);
  }

  lemma SplitAt<T>(p: seq<T>, i: nat)
    requires i < |p|
    ensures p == p[..i] + [p[i]] + p[i + 1..]
  {
  }

  lemma EmitMoves(p: seq<Event>, i: nat)
    requires i < |p|
    ensures DoneIds(p) == DoneIds(p[..i] + p[i + 1..]) + if p[i].Done? then multiset{p[i].id} else multiset{}
  {
    hide DoneIds;
    SplitAt(p, i);
    DoneIdsConcat(p[..i] + [p[i]], p[i + 1..]);
    SayReports(p[..i], p[i]);
    DoneIdsConcat(p[..i], p[i + 1..]);
  }

  lemma ReportedChunk(s: Sys, c: Chunk, now: real)
    requires Reported(s)
    ensures Reported(DoChunk(s, c, now))
  {
    hide OnChunk, IsNew, DoneIds;
    SayReports(s.pending, Done(c.id, OnChunk(s.sh, c, now).1));
  }

  lemma ReportedStop(s: Sys)
    requires Reported(s)
    ensures Reported(DoStop(s))
  {
    hide StopAll, DoneIds, Ids, DroppedEvents;
    DoneIdsConcat(s.pending, DroppedEvents(Ids(s.sh.queue)));
    DoneIdsDropped(Ids(s.sh.queue));
  }

  lemma ReportedEmit(s: Sys, i: nat)
    requires Reported(s) && i < |s.pending|
    ensures Reported(Step(s, Emit(i)))
  {
    hide DoneIds;
    EmitMoves(s.pending, i);
    SayReports(s.emitted, s.pending[i]);
  }

  lemma ReportedKeeps(s: Sys, a: Action)
    requires Reported(s) && PhaseOk(s)
    ensures Reported(Step(s, a))
  {
    hide OnChunk, StopAll, Remember, IsNew, Held, DoneIds, DoChunk, DoStop, DoLoop;
    if !Enabled(s, a) {
    } else if Neutral(a) {
      NeutralKeeps(s, a);
    } else {
      match a
      case ChunkArrives(c, now) => ReportedChunk(s, c, now);
      case Stop => ReportedStop(s);
      case Emit(i) => ReportedEmit(s, i);
      case Open => SayReports(s.emitted, Started(s.sh.current.value.id));
      case Report => SayReports(s.emitted, Done(s.phase.u.id, s.phase.error));
      case _ =>
    }
  }

  // ── arrival order ──

  ghost predicate Increasing(q: seq<nat>) {
    forall i, j :: 0 <= i < j < |q| ==> q[i] < q[j]
  }

  function Numbers(queue: seq<Utterance>): seq<nat> {
    seq(|queue|, k requires 0 <= k < |queue| => queue[k].arrival)
  }

  /** What was taken up and what still waits, by arrival number. */
  function Line(s: Sys): seq<nat> {
    s.played + Numbers(s.sh.queue)
  }

  ghost predicate InOrder(s: Sys) {
    && Increasing(Line(s)) && (forall k :: 0 <= k < |Line(s)| ==> Line(s)[k] < s.sh.arrived)
    && (s.sh.current.Some? ==> s.played != [] && s.played[|s.played| - 1] == s.sh.current.value.arrival)
    && Increasing(s.started)
    && (s.started != [] ==> s.played != [] && s.started[|s.started| - 1] <= s.played[|s.played| - 1])
    && (s.phase.Opening? && s.started != [] ==> s.started[|s.started| - 1] < s.played[|s.played| - 1])
  }

  lemma ChunkNumbers(s: Shared, c: Chunk, now: real)
    ensures var s' := OnChunk(s, c, now).0;
            && s'.arrived >= s.arrived
            && (Numbers(s'.queue) == Numbers(s.queue)
                || (Numbers(s'.queue) == Numbers(s.queue) + [s.arrived] && s'.arrived == s.arrived + 1))
            && s'.current.Some? == s.current.Some?
            && (s.current.Some? ==> s'.current.value.arrival == s.current.value.arrival)
  {
    hide Remember, Receive;
    var k := Find(s.queue, c.id);
    if k < |s.queue| {
      ReceiveId(s.queue[k], c, now);
      assert Numbers(s.queue[k := Receive(s.queue[k], c, now)]) == Numbers(s.queue);
    } else {
      var u := Receive(Fresh(c.id, s.arrived), c, now);
      ReceiveId(Fresh(c.id, s.arrived), c, now);
      assert Numbers(s.queue + [u]) == Numbers(s.queue) + [s.arrived];
      if s.current.Some? { ReceiveId(s.current.value, c, now); }
    }
  }

  lemma OrderChunk(s: Sys, c: Chunk, now: real)
    requires InOrder(s)
    ensures InOrder(DoChunk(s, c, now))
  {
    hide OnChunk, IsNew;
    ChunkNumbers(s.sh, c, now);
    var s' := DoChunk(s, c, now);
    if Numbers(s'.sh.queue) != Numbers(s.sh.queue) {
      assert Line(s') == Line(s) + [s.sh.arrived];
    } else {
      assert Line(s') == Line(s);
    }
  }

  lemma OrderStop(s: Sys)
    requires InOrder(s)
    ensures InOrder(DoStop(s))
  {
    StopKeepsCount(s.sh);
    hide StopAll, Ids;
    var s' := DoStop(s);
    assert Line(s') == s.played == Line(s)[..|s.played|];
  }

  lemma OrderTake(s: Sys)
    requires InOrder(s) && PhaseOk(s) && Enabled(s, TakeNext)
    ensures InOrder(Step(s, TakeNext))
  {
    var s' := Step(s, TakeNext);
    assert Line(s') == Line(s);
    assert Line(s)[|s.played|] == s.sh.queue[0].arrival;
    if s.played != [] { assert Line(s)[|s.played| - 1] < Line(s)[|s.played|]; }
  }

  lemma OthersKeepLine(s: Sys, a: Action)
    requires PhaseOk(s) && !a.ChunkArrives? && !a.Stop? && !a.TakeNext?
    ensures Line(Step(s, a)) == Line(s) && Step(s, a).sh.arrived == s.sh.arrived && Step(s, a).played == s.played
  {
    hide OnChunk, StopAll, Remember, IsNew, Ids;
  }

  lemma OrderKeeps(s: Sys, a: Action)
    requires InOrder(s) && PhaseOk(s)
    ensures InOrder(Step(s, a))
  {
    if a.ChunkArrives? || a.Stop? || a.TakeNext? {
      hide OnChunk, StopAll, Remember, IsNew, Ids, InOrder, PhaseOk, DoChunk, DoStop;
      if Enabled(s, a) {
        match a
        case ChunkArrives(c, now) => OrderChunk(s, c, now);
        case Stop => OrderStop(s);
        case _ => OrderTake(s);
      }
    } else {
      OthersKeepLine(s, a);
    }
  }

  // ── cuts hit only what was playing ──

  /** A stop was asked for while this utterance played, or the bridge is shutting down. */
  ghost predicate StopAsked(s: Sys, u: Utterance) {
    s.sh.stopping || u.arrival in s.stops
  }

  function PhaseError(p: Phase): Option<Error> {
    match p
    case Closing(_, e) => e
    case Ending(_, e) => e
    case _ => None
  }

  ghost predicate CutsOk(s: Sys) {
    && (s.sh.current.Some? ==> (s.sh.cut <==> s.sh.current.value.arrival in s.stops))
    && (forall n :: n in s.stops ==> n in s.played)
    && ((s.phase.Closing? || s.phase.Ending?) && s.sh.current.Some? && PhaseError(s.phase) == Some(Stopped) ==>
          StopAsked(s, s.sh.current.value))
    && (forall o :: o in s.outcomes && o.error == Some(Stopped) ==> StopAsked(s, o.u))
  }

  lemma ChunkKeepsFlags(s: Shared, c: Chunk, now: real)
    ensures OnChunk(s, c, now).0.cut == s.cut && OnChunk(s, c, now).0.stopping == s.stopping
  {
  }

  lemma PoppedId(u: Utterance, next: nat)
    ensures Popped(u, next).arrival == u.arrival && Popped(u, next).id == u.id
  {
  }

  /** The next to be taken up has not been taken up before. */
  lemma NextIsNew(s: Sys)
    requires InOrder(s) && s.sh.queue != []
    ensures s.sh.queue[0].arrival !in s.played
  {
    var line := Line(s);
    assert line[|s.played|] == s.sh.queue[0].arrival;
    assert forall k :: 0 <= k < |s.played| ==> s.played[k] == line[k];
  }

  lemma CutsTake(s: Sys)
    requires CutsOk(s) && InOrder(s) && Enabled(s, TakeNext)
    ensures CutsOk(Step(s, TakeNext))
  {
    NextIsNew(s);
    hide InOrder;
  }

  lemma CutsStop(s: Sys)
    requires CutsOk(s) && InOrder(s)
    ensures CutsOk(DoStop(s))
  {
    hide RememberAll, Ids, Line;
    if s.sh.current.Some? { assert s.played[|s.played| - 1] in s.played; }
  }

  lemma CutsOther(s: Sys, a: Action)
    requires CutsOk(s) && PhaseOk(s) && !a.TakeNext? && !a.Stop?
    ensures CutsOk(Step(s, a))
  {
    if a.ChunkArrives? {
      ChunkNumbers(s.sh, a.c, a.now);
      ChunkKeepsFlags(s.sh, a.c, a.now);
    }
    hide OnChunk, Find, Receive, Remember, RememberAll, Ids, Popped;
    if a.Loop? && Enabled(s, a) {
      PoppedId(s.sh.current.value, |s.phase.taken|);
    }
  }

  lemma CutsKeep(s: Sys, a: Action)
    requires CutsOk(s) && PhaseOk(s) && InOrder(s)
    ensures CutsOk(Step(s, a))
  {
    if a.Stop? {
      CutsStop(s);
    } else if a.TakeNext? && Enabled(s, a) {
      CutsTake(s);
    } else if !a.TakeNext? {
      CutsOther(s, a);
    }
    hide CutsOk, InOrder, DoStop;
  }

  // ── every run ──

  ghost predicate Inv(s: Sys) {
    PhaseOk(s) && Remembered(s) && Kept(s) && Reported(s) && InOrder(s) && CutsOk(s)
  }

  lemma StepKeeps(s: Sys, a: Action)
    requires Inv(s)
    ensures Inv(Step(s, a))
  {
    hide Step, PhaseOk, Remembered, Kept, Reported, InOrder, CutsOk;
    PhaseKeeps(s, a);
    RememberedKeeps(s, a);
    KeptKeeps(s, a);
    ReportedKeeps(s, a);
    OrderKeeps(s, a);
    CutsKeep(s, a);
  }

  lemma {:induction false} RunKeeps(maxQueue: nat, acts: seq<Action>)
    ensures Inv(Run(maxQueue, acts))
  {
    if acts != [] {
      hide Inv, Step;
      RunKeeps(maxQueue, acts[..|acts| - 1]);
      StepKeeps(Run(maxQueue, acts[..|acts| - 1]), acts[|acts| - 1]);
    }
  }

  /**
   Exactly one report each: over any interleaving, everything that arrived is
   reported as done, owed that report, waiting or playing; and an id that ended
   can end again only after more than 64 others have ended in between.
   */
  lemma ReportedOnce(maxQueue: nat, acts: seq<Action>)
    ensures var s := Run(maxQueue, acts);
            && multiset(s.arrivals) == DoneIds(s.emitted) + Owed(s) + multiset(Held(s.sh))
            && Spaced(s.dones) && s.sh.doneIds == Window(s.dones)
            && (forall id :: id in s.sh.doneIds ==> id !in Held(s.sh))
  {
    hide Run, DoneIds, Owed, Held, Spaced, Window, NoRepeat;
    RunKeeps(maxQueue, acts);
  }

  /** Utterances are taken up, and started, in the order they arrived, and those waiting arrived later still. */
  lemma PlayedInOrder(maxQueue: nat, acts: seq<Action>)
    ensures var s := Run(maxQueue, acts);
            Increasing(s.started) && Increasing(s.played + Numbers(s.sh.queue))
  {
    RunKeeps(maxQueue, acts);
  }

  /** An utterance reported as stopped was playing when a stop came, or at shutdown. */
  lemma StoppedWasAsked(maxQueue: nat, acts: seq<Action>, o: Outcome)
    requires o in Run(maxQueue, acts).outcomes && o.error == Some(Stopped)
    ensures StopAsked(Run(maxQueue, acts), o.u)
  {
    hide Run, StopAsked;
    RunKeeps(maxQueue, acts);
  }

  /** How many of the events report a start. */
  function Starts(events: seq<Event>): nat {
    if events == [] then 0 else Starts(events[..|events| - 1]) + if events[|events| - 1].Started? then 1 else 0
  }

  lemma {:induction false} StartsConcat(said: seq<Event>, e: Event)
    ensures Starts(said + [e]) == Starts(said) + if e.Started? then 1 else 0
  {
    assert (said + [e])[..|said|] == said;
  }

  /** The pending events report no start; every start is reported at once. */
  ghost predicate StartsOk(s: Sys) {
    Starts(s.emitted) == |s.started| && forall k :: 0 <= k < |s.pending| ==> s.pending[k].Done?
  }

  lemma LoopSays(s: Sys, now: real, gap: real)
    requires s.phase.Playing? && s.sh.current.Some?
    ensures var t := DoLoop(s, now, gap); t.emitted == s.emitted && t.pending == s.pending && t.started == s.started
  {
  }

  lemma EndSays(s: Sys)
    requires s.phase.Ending? && s.sh.current.Some?
    ensures var t := DoEnd(s); t.emitted == s.emitted && t.pending == s.pending && t.started == s.started
  {
  }

  lemma StartsKeep(s: Sys, a: Action)
    requires StartsOk(s)
    ensures StartsOk(Step(s, a))
  {
    hide Starts, OnChunk, IsNew, StopAll, Ids, DoLoop, DoEnd;
    if Enabled(s, a) {
      match a
      case Emit(i) => StartsConcat(s.emitted, s.pending[i]);
      case Open => StartsConcat(s.emitted, Started(s.sh.current.value.id));
      case Report => StartsConcat(s.emitted, Done(s.phase.u.id, s.phase.error));
      case Loop(now, gap) => LoopSays(s, now, gap);
      case End => EndSays(s);
      case _ =>
    }
  }

  /** Over every run each utterance the player opened for has been reported as started, once. */
  lemma {:induction false} StartsReported(maxQueue: nat, acts: seq<Action>)
    ensures StartsOk(Run(maxQueue, acts))
  {
    if acts != [] {
      hide Step, StartsOk;
      StartsReported(maxQueue, acts[..|acts| - 1]);
      StartsKeep(Run(maxQueue, acts[..|acts| - 1]), acts[|acts| - 1]);
    } else {
      assert StartsOk(Run(maxQueue, acts));
    }
  }

  // ── refusals ──

  /** A first chunk is refused exactly without an audio device or with a full queue, and no other chunk is. */
  lemma RefusedIff(s: Shared, c: Chunk, now: real)
    ensures var refused := OnChunk(s, c, now).1;
      && (refused == Some(NoDevice) <==> c.id !in s.doneIds && c.id !in Held(s) && !s.deviceOk)
      && (refused == Some(QueueFull) <==> c.id !in s.doneIds && c.id !in Held(s) && s.deviceOk && |s.queue| >= s.maxQueue)
      && (refused.Some? ==> refused.value == NoDevice || refused.value == QueueFull)
  {
    ChunkHeld(s, c, now);
    hide Held, Remember, Receive;
  }

  lemma QueueChunk(s: Shared, c: Chunk, now: real)
    requires |s.queue| <= s.maxQueue
    ensures var t := OnChunk(s, c, now).0; |t.queue| <= t.maxQueue == s.maxQueue && t.deviceOk == s.deviceOk
  {
    hide Receive, Remember;
  }

  lemma QueueStep(s: Sys, a: Action)
    requires |s.sh.queue| <= s.sh.maxQueue
    ensures var t := Step(s, a).sh; |t.queue| <= t.maxQueue == s.sh.maxQueue
    ensures Step(s, a).sh.deviceOk == if a.DeviceProbe? then a.ok else s.sh.deviceOk
    ensures Step(s, a).sh.stopping == (s.sh.stopping || a.Shutdown?)
  {
    if a.ChunkArrives? { QueueChunk(s.sh, a.c, a.now); ChunkKeepsFlags(s.sh, a.c, a.now); }
    hide OnChunk, IsNew, RememberAll, Ids, Popped, Remember;
  }

  /** What the last probe of the audio device found; good before the first. */
  function LastProbe(acts: seq<Action>): bool {
    if acts == [] then true
    else if acts[|acts| - 1].DeviceProbe? then acts[|acts| - 1].ok
    else LastProbe(acts[..|acts| - 1])
  }

  predicate ShutDown(acts: seq<Action>) {
    exists k :: 0 <= k < |acts| && acts[k].Shutdown?
  }

  /** Over every run no more than `max_queue` utterances wait, the device is taken to be as last probed, and only a shutdown shuts down. */
  lemma {:induction false} QueueBounded(maxQueue: nat, acts: seq<Action>)
    ensures var s := Run(maxQueue, acts).sh;
      |s.queue| <= s.maxQueue == maxQueue && s.deviceOk == LastProbe(acts) && s.stopping == ShutDown(acts)
  {
    if acts != [] {
      hide Step;
      QueueBounded(maxQueue, acts[..|acts| - 1]);
      QueueStep(Run(maxQueue, acts[..|acts| - 1]), acts[|acts| - 1]);
    }
  }

  // ── what has been received of each utterance ──

  /** The run's last step brings a chunk of this utterance: one with its id, once the utterance has arrived. */
  predicate IsOwn(maxQueue: nat, acts: seq<Action>, u: Utterance) {
    acts != [] && acts[|acts| - 1].ChunkArrives? && acts[|acts| - 1].c.id == u.id && Run(maxQueue, acts).sh.arrived > u.arrival
  }

  /** The final mark that its latest final chunk set. */
  function LatestMark(maxQueue: nat, acts: seq<Action>, u: Utterance): Option<int> {
    if acts == [] then None
    else if IsOwn(maxQueue, acts, u) && acts[|acts| - 1].c.final then Some(acts[|acts| - 1].c.seqNo)
    else LatestMark(maxQueue, acts[..|acts| - 1], u)
  }

  /** What its latest chunk numbered `k` carried. */
  function LatestChunk(maxQueue: nat, acts: seq<Action>, u: Utterance, k: int): Option<Pcm> {
    if acts == [] then None
    else if IsOwn(maxQueue, acts, u) && acts[|acts| - 1].c.seqNo == k then Some(acts[|acts| - 1].c.pcm)
    else LatestChunk(maxQueue, acts[..|acts| - 1], u, k)
  }

  /** When its latest chunk came in. */
  function LatestTime(maxQueue: nat, acts: seq<Action>, u: Utterance): Option<real> {
    if acts == [] then None
    else if IsOwn(maxQueue, acts, u) then Some(acts[|acts| - 1].now)
    else LatestTime(maxQueue, acts[..|acts| - 1], u)
  }

  /** An utterance holds exactly what has been received of it and, from number `next` on, all of that. */
  ghost predicate UpToDate(maxQueue: nat, acts: seq<Action>, u: Utterance, next: nat) {
    && LatestMark(maxQueue, acts, u) == u.finalSeq
    && LatestTime(maxQueue, acts, u) == Some(u.lastRx)
    && (forall k :: k in u.chunks ==> LatestChunk(maxQueue, acts, u, k) == Some(u.chunks[k]))
    && (forall k :: k >= next && k !in u.chunks ==> LatestChunk(maxQueue, acts, u, k) == None)
  }

  /** The least number the loop may still ask for. */
  function Next(p: Phase): nat {
    match p
    case Playing(t) => |t|
    case Writing(t) => |t|
    case Closing(t, _) => |t|
    case Ending(w, _) => |w| + 1
    case _ => 0
  }

  ghost predicate AllUpToDate(maxQueue: nat, acts: seq<Action>, s: Sys) {
    && (forall k :: 0 <= k < |s.sh.queue| ==> UpToDate(maxQueue, acts, s.sh.queue[k], 0))
    && (s.sh.current.Some? ==> UpToDate(maxQueue, acts, s.sh.current.value, Next(s.phase)))
  }

  lemma OthersUpToDate(maxQueue: nat, acts: seq<Action>, a: Action, u: Utterance, next: nat)
    requires UpToDate(maxQueue, acts, u, next) && !IsOwn(maxQueue, acts + [a], u)
    ensures UpToDate(maxQueue, acts + [a], u, next)
  {
    hide Run;
    assert (acts + [a])[..|acts|] == acts;
  }

  lemma LaterNext(maxQueue: nat, acts: seq<Action>, u: Utterance, next: nat, next': nat)
    requires UpToDate(maxQueue, acts, u, next) && next <= next'
    ensures UpToDate(maxQueue, acts, u, next')
  {
  }

  /** The three look only at the id and the arrival number. */
  lemma {:induction false} SameLatest(maxQueue: nat, acts: seq<Action>, u: Utterance, v: Utterance)
    requires u.id == v.id && u.arrival == v.arrival
    ensures LatestMark(maxQueue, acts, u) == LatestMark(maxQueue, acts, v)
    ensures LatestTime(maxQueue, acts, u) == LatestTime(maxQueue, acts, v)
    ensures forall k :: LatestChunk(maxQueue, acts, u, k) == LatestChunk(maxQueue, acts, v, k)
  {
    hide Run;
    if acts != [] { SameLatest(maxQueue, acts[..|acts| - 1], u, v); }
  }

  /** Nothing has been received of an utterance that has yet to arrive. */
  ghost predicate NothingYet(maxQueue: nat, acts: seq<Action>, u: Utterance) {
    LatestMark(maxQueue, acts, u) == None && forall k :: LatestChunk(maxQueue, acts, u, k) == None
  }

  lemma ReceiveUpToDate(maxQueue: nat, acts: seq<Action>, c: Chunk, now: real, u: Utterance, next: nat)
    requires UpToDate(maxQueue, acts, u, next) || (u == Fresh(c.id, u.arrival) && NothingYet(maxQueue, acts, u))
    requires IsOwn(maxQueue, acts + [ChunkArrives(c, now)], u)
    ensures UpToDate(maxQueue, acts + [ChunkArrives(c, now)], Receive(u, c, now), next)
  {
    hide Run, IsOwn;
    var later := acts + [ChunkArrives(c, now)];
    assert later[..|acts|] == acts;
    forall k ensures LatestChunk(maxQueue, later, u, k) == if k == c.seqNo then Some(c.pcm) else LatestChunk(maxQueue, acts, u, k) {
    }
    assert LatestMark(maxQueue, later, u) == if c.final then Some(c.seqNo) else LatestMark(maxQueue, acts, u);
    assert LatestTime(maxQueue, later, u) == Some(now);
    SameLatest(maxQueue, later, u, Receive(u, c, now));
    hide LatestChunk, LatestMark, LatestTime;
  }

  lemma ArrivedGrows(s: Sys, a: Action)
    requires PhaseOk(s)
    ensures Step(s, a).sh.arrived >= s.sh.arrived
  {
    if a.ChunkArrives? { ChunkNumbers(s.sh, a.c, a.now); } else if a.Stop? { StopKeepsCount(s.sh); }
    hide OnChunk, StopAll, IsNew, Ids, Find, Remember;
  }

  lemma {:induction false} NotYetArrived(maxQueue: nat, acts: seq<Action>, u: Utterance)
    requires Run(maxQueue, acts).sh.arrived <= u.arrival
    ensures NothingYet(maxQueue, acts, u)
  {
    if acts != [] {
      var before, a := acts[..|acts| - 1], acts[|acts| - 1];
      assert Run(maxQueue, acts) == Step(Run(maxQueue, before), a);
      hide Run, Step;
      RunKeeps(maxQueue, before);
      ArrivedGrows(Run(maxQueue, before), a);
      hide Inv;
      NotYetArrived(maxQueue, before, u);
      assert !IsOwn(maxQueue, acts, u);
      forall k ensures LatestChunk(maxQueue, acts, u, k) == None {
        assert LatestChunk(maxQueue, before, u, k) == None;
      }
    }
  }

  lemma PoppedUpToDate(maxQueue: nat, acts: seq<Action>, u: Utterance, next: nat)
    requires UpToDate(maxQueue, acts, u, next)
    ensures UpToDate(maxQueue, acts, Popped(u, next), next + 1)
  {
    hide LatestMark, LatestChunk, LatestTime;
    SameLatest(maxQueue, acts, u, Popped(u, next));
  }

  /** Of the utterances held only the chunk's own has its id. */
  lemma OwnId(s: Shared, id: Id, k: nat)
    requires Apart(s) && k < |s.queue|
    ensures id in s.doneIds ==> s.queue[k].id != id
    ensures s.current.Some? ==> s.current.value.id != s.queue[k].id
    ensures s.queue[k].id == id ==> Find(s.queue, id) == k
  {
    var off := if s.current.Some? then 1 else 0;
    assert Held(s)[off + k] == s.queue[k].id;
    if s.current.Some? { assert Held(s)[0] == s.current.value.id; }
    var j := Find(s.queue, id);
    if j < |s.queue| { assert Held(s)[off + j] == s.queue[j].id; }
  }

  lemma CurrentId(s: Shared, id: Id)
    requires Apart(s) && s.current.Some? && s.current.value.id == id
    ensures id !in s.doneIds && Find(s.queue, id) == |s.queue|
  {
    assert Held(s)[0] == id;
    var k := Find(s.queue, id);
    if k < |s.queue| { OwnId(s, id, k); }
  }

  /** Everything held has arrived. */
  lemma HeldArrived(s: Sys)
    requires InOrder(s)
    ensures forall k :: 0 <= k < |s.sh.queue| ==> s.sh.queue[k].arrival < s.sh.arrived
    ensures s.sh.current.Some? ==> s.sh.current.value.arrival < s.sh.arrived
  {
    forall k | 0 <= k < |s.sh.queue| ensures s.sh.queue[k].arrival < s.sh.arrived {
      assert Line(s)[|s.played| + k] == s.sh.queue[k].arrival;
    }
    if s.sh.current.Some? { assert Line(s)[|s.played| - 1] == s.sh.current.value.arrival; }
  }

  lemma FreshIs(id: Id, n: nat)
    ensures Fresh(id, n).id == id && Fresh(id, n).arrival == n
  {
  }

  /** What a chunk does to one utterance that the bridge holds. */
  lemma HeldUpToDate(maxQueue: nat, acts: seq<Action>, s: Sys, c: Chunk, now: real, u: Utterance, next: nat)
    requires s == Run(maxQueue, acts) && InOrder(s) && UpToDate(maxQueue, acts, u, next) && u.arrival < s.sh.arrived
    ensures u.id == c.id ==> UpToDate(maxQueue, acts + [ChunkArrives(c, now)], Receive(u, c, now), next)
    ensures u.id != c.id ==> UpToDate(maxQueue, acts + [ChunkArrives(c, now)], u, next)
  {
    var a := ChunkArrives(c, now);
    assert (acts + [a])[..|acts|] == acts;
    assert Run(maxQueue, acts + [a]) == DoChunk(s, c, now);
    ChunkNumbers(s.sh, c, now);
    hide UpToDate, Run, Receive, OnChunk, IsNew;
    if u.id == c.id {
      ReceiveUpToDate(maxQueue, acts, c, now, u, next);
    } else {
      OthersUpToDate(maxQueue, acts, a, u, next);
    }
  }

  lemma NewUpToDate(maxQueue: nat, acts: seq<Action>, s: Sys, c: Chunk, now: real)
    requires s == Run(maxQueue, acts) && IsNew(s.sh, c.id)
    ensures UpToDate(maxQueue, acts + [ChunkArrives(c, now)], Receive(Fresh(c.id, s.sh.arrived), c, now), 0)
  {
    var a, u := ChunkArrives(c, now), Fresh(c.id, s.sh.arrived);
    assert (acts + [a])[..|acts|] == acts;
    assert Run(maxQueue, acts + [a]) == DoChunk(s, c, now);
    ChunkHeld(s.sh, c, now);
    FreshIs(c.id, s.sh.arrived);
    NotYetArrived(maxQueue, acts, u);
    hide UpToDate, Run, Receive, OnChunk, IsNew, NothingYet, Fresh;
    ReceiveUpToDate(maxQueue, acts, c, now, u, 0);
  }

  /** What a chunk does to each utterance held: its own receives it, the others stay, and a new one joins at the end. */
  lemma ChunkQueue(s: Shared, c: Chunk, now: real)
    requires Apart(s)
    ensures var s' := OnChunk(s, c, now).0;
      && |s.queue| <= |s'.queue| <= |s.queue| + 1
      && (forall k :: 0 <= k < |s.queue| ==> s'.queue[k] == if s.queue[k].id == c.id then Receive(s.queue[k], c, now) else s.queue[k])
      && (|s'.queue| > |s.queue| ==> IsNew(s, c.id) && s'.queue[|s.queue|] == Receive(Fresh(c.id, s.arrived), c, now))
      && s'.current == (if s.current.Some? && s.current.value.id == c.id then Some(Receive(s.current.value, c, now)) else s.current)
  {
    hide Receive, Fresh, Remember, Apart;
    forall k | 0 <= k < |s.queue|
      ensures c.id in s.doneIds ==> s.queue[k].id != c.id
      ensures s.current.Some? ==> s.current.value.id != s.queue[k].id
      ensures s.queue[k].id == c.id ==> Find(s.queue, c.id) == k
    {
      OwnId(s, c.id, k);
    }
    if s.current.Some? && s.current.value.id == c.id { CurrentId(s, c.id); }
  }

  lemma RememberedApart(s: Sys)
    requires Remembered(s)
    ensures Apart(s.sh)
  {
  }

  lemma ChunkUpToDate(maxQueue: nat, acts: seq<Action>, s: Sys, c: Chunk, now: real)
    requires s == Run(maxQueue, acts) && AllUpToDate(maxQueue, acts, s) && Remembered(s) && InOrder(s)
    ensures AllUpToDate(maxQueue, acts + [ChunkArrives(c, now)], DoChunk(s, c, now))
  {
    hide UpToDate, Receive, Fresh, Run, InOrder, Remembered, Apart, OnChunk, IsNew, Next;
    HeldArrived(s);
    RememberedApart(s);
    ChunkQueue(s.sh, c, now);
    var later, s' := acts + [ChunkArrives(c, now)], DoChunk(s, c, now);
    forall k | 0 <= k < |s'.sh.queue| ensures UpToDate(maxQueue, later, s'.sh.queue[k], 0) {
      if k < |s.sh.queue| {
        HeldUpToDate(maxQueue, acts, s, c, now, s.sh.queue[k], 0);
      } else {
        NewUpToDate(maxQueue, acts, s, c, now);
      }
    }
    if s.sh.current.Some? { HeldUpToDate(maxQueue, acts, s, c, now, s.sh.current.value, Next(s.phase)); }
  }

  lemma OthersAllUpToDate(maxQueue: nat, acts: seq<Action>, a: Action, s: Sys)
    requires AllUpToDate(maxQueue, acts, s) && !a.ChunkArrives?
    ensures AllUpToDate(maxQueue, acts + [a], s)
  {
    hide UpToDate, Run;
    forall k | 0 <= k < |s.sh.queue| ensures UpToDate(maxQueue, acts + [a], s.sh.queue[k], 0) {
      OthersUpToDate(maxQueue, acts, a, s.sh.queue[k], 0);
    }
    if s.sh.current.Some? { OthersUpToDate(maxQueue, acts, a, s.sh.current.value, Next(s.phase)); }
  }

  /** No other step brings in an utterance; popping leaves the rest as it was. */
  lemma HeldFrom(maxQueue: nat, s: Sys, a: Action, acts: seq<Action>)
    requires AllUpToDate(maxQueue, acts, s) && PhaseOk(s) && !a.ChunkArrives?
    ensures AllUpToDate(maxQueue, acts, Step(s, a))
  {
    hide UpToDate, Popped, Remember, RememberAll, Ids;
    if Enabled(s, a) && s.sh.current.Some? {
      if a.Loop? { PoppedUpToDate(maxQueue, acts, s.sh.current.value, |s.phase.taken|); }
      if Next(Step(s, a).phase) >= Next(s.phase) {
        LaterNext(maxQueue, acts, s.sh.current.value, Next(s.phase), Next(Step(s, a).phase));
      }
    }
  }

  lemma UpToDateKeeps(maxQueue: nat, acts: seq<Action>, s: Sys, a: Action)
    requires s == Run(maxQueue, acts) && AllUpToDate(maxQueue, acts, s) && Inv(s)
    ensures AllUpToDate(maxQueue, acts + [a], Step(s, a))
  {
    hide AllUpToDate, OnChunk, IsNew, Run, Remembered, InOrder, PhaseOk, DoChunk;
    if a.ChunkArrives? {
      ChunkUpToDate(maxQueue, acts, s, a.c, a.now);
    } else {
      hide Step;
      HeldFrom(maxQueue, s, a, acts);
      OthersAllUpToDate(maxQueue, acts, a, Step(s, a));
    }
  }

  lemma {:induction false} RunUpToDate(maxQueue: nat, acts: seq<Action>)
    ensures AllUpToDate(maxQueue, acts, Run(maxQueue, acts))
  {
    if acts != [] {
      var before, a := acts[..|acts| - 1], acts[|acts| - 1];
      RunUpToDate(maxQueue, before);
      RunKeeps(maxQueue, before);
      hide AllUpToDate, Step, Inv;
      UpToDateKeeps(maxQueue, before, Run(maxQueue, before), a);
      assert before + [a] == acts;
    }
  }

  // ── what was written ──

  function PhaseData(p: Phase): seq<Pcm> {
    match p
    case Playing(t) => t
    case Writing(t) => t
    case Closing(t, _) => t
    case Ending(w, _) => w
    case Reporting(_, w, _) => w
    case _ => []
  }

  predicate Finished(p: Phase) {
    p.Closing? || p.Ending?
  }

  /** Before step `n`, a pass of the playback loop, the thread played this utterance and had taken just `data`. */
  ghost predicate PlayedAt(maxQueue: nat, acts: seq<Action>, u: Utterance, data: seq<Pcm>, n: nat) {
    && n < |acts| && acts[n].Loop?
    && var s := Run(maxQueue, acts[..n]);
       && s.phase == Playing(data) && s.sh.current.Some?
       && s.sh.current.value.id == u.id && s.sh.current.value.arrival == u.arrival
  }

  /** Chunk `k` of `data` is what the latest chunk with that number carried when the loop popped it. */
  ghost predicate TookLatest(maxQueue: nat, acts: seq<Action>, u: Utterance, data: seq<Pcm>, k: nat)
    requires k < |data|
  {
    exists n: nat :: PlayedAt(maxQueue, acts, u, data[..k], n) && LatestChunk(maxQueue, acts[..n], u, k) == Some(data[k])
  }

  /** `data` is chunk 0, chunk 1, chunk 2, ... */
  ghost predicate InSequence(maxQueue: nat, acts: seq<Action>, u: Utterance, data: seq<Pcm>) {
    forall k :: 0 <= k < |data| ==> TookLatest(maxQueue, acts, u, data, k)
  }

  predicate PastMark(mark: Option<int>, next: nat) {
    mark.Some? && next > mark.value
  }

  /** The loop found everything through the latest final mark taken. */
  ghost predicate Complete(maxQueue: nat, acts: seq<Action>, u: Utterance, data: seq<Pcm>) {
    exists n: nat :: PlayedAt(maxQueue, acts, u, data, n) && PastMark(LatestMark(maxQueue, acts[..n], u), |data|)
  }

  /** The loop found the next chunk missing, nothing that ends the utterance, and no chunk for as long as the gap. */
  ghost predicate Silent(maxQueue: nat, acts: seq<Action>, u: Utterance, next: nat, now: real, gap: real) {
    && !PastMark(LatestMark(maxQueue, acts, u), next) && LatestChunk(maxQueue, acts, u, next).None?
    && LatestTime(maxQueue, acts, u).Some? && now - LatestTime(maxQueue, acts, u).value >= gap
  }

  ghost predicate SilentAt(maxQueue: nat, acts: seq<Action>, u: Utterance, data: seq<Pcm>, n: nat) {
    PlayedAt(maxQueue, acts, u, data, n) && Silent(maxQueue, acts[..n], u, |data|, acts[n].now, acts[n].gap)
  }

  ghost predicate GaveUp(maxQueue: nat, acts: seq<Action>, u: Utterance, data: seq<Pcm>) {
    exists n: nat :: SilentAt(maxQueue, acts, u, data, n)
  }

  /** What was true of a run stays true of every longer one. */
  lemma PlayedLater(maxQueue: nat, acts: seq<Action>, a: Action, u: Utterance, data: seq<Pcm>, n: nat)
    requires PlayedAt(maxQueue, acts, u, data, n)
    ensures PlayedAt(maxQueue, acts + [a], u, data, n) && (acts + [a])[..n] == acts[..n]
  {
    hide Run;
    assert (acts + [a])[..n] == acts[..n];
  }

  lemma PlayedInside(maxQueue: nat, acts: seq<Action>, u: Utterance, data: seq<Pcm>, n: nat)
    requires PlayedAt(maxQueue, acts, u, data, n)
    ensures n < |acts| && acts[n].Loop?
  {
  }

  lemma SequenceLater(maxQueue: nat, acts: seq<Action>, a: Action, u: Utterance, data: seq<Pcm>)
    requires InSequence(maxQueue, acts, u, data)
    ensures InSequence(maxQueue, acts + [a], u, data)
  {
    hide Run, LatestChunk;
    forall k | 0 <= k < |data| ensures TookLatest(maxQueue, acts + [a], u, data, k) {
      assert TookLatest(maxQueue, acts, u, data, k);
      var n: nat :| PlayedAt(maxQueue, acts, u, data[..k], n) && LatestChunk(maxQueue, acts[..n], u, k) == Some(data[k]);
      PlayedLater(maxQueue, acts, a, u, data[..k], n);
    }
  }

  lemma CompleteLater(maxQueue: nat, acts: seq<Action>, a: Action, u: Utterance, data: seq<Pcm>)
    requires Complete(maxQueue, acts, u, data)
    ensures Complete(maxQueue, acts + [a], u, data)
  {
    hide Run, LatestMark;
    var n: nat :| PlayedAt(maxQueue, acts, u, data, n) && PastMark(LatestMark(maxQueue, acts[..n], u), |data|);
    PlayedLater(maxQueue, acts, a, u, data, n);
  }

  lemma GaveUpLater(maxQueue: nat, acts: seq<Action>, a: Action, u: Utterance, data: seq<Pcm>)
    requires GaveUp(maxQueue, acts, u, data)
    ensures GaveUp(maxQueue, acts + [a], u, data)
  {
    hide Run, Silent, PlayedAt;
    var n: nat :| SilentAt(maxQueue, acts, u, data, n);
    assert n < |acts| by { PlayedInside(maxQueue, acts, u, data, n); }
    PlayedLater(maxQueue, acts, a, u, data, n);
    assert SilentAt(maxQueue, acts + [a], u, data, n);
  }

  /** What may be said of an utterance at hand or at its end. */
  ghost predicate Honest(maxQueue: nat, acts: seq<Action>, u: Utterance, data: seq<Pcm>, finished: bool, error: Option<Error>) {
    && InSequence(maxQueue, acts, u, data)
    && (finished && error.None? ==> Complete(maxQueue, acts, u, data))
    && (error == Some(GapTimeout) ==> GaveUp(maxQueue, acts, u, data))
  }

  lemma HonestLater(maxQueue: nat, acts: seq<Action>, a: Action, u: Utterance, data: seq<Pcm>, finished: bool, error: Option<Error>)
    requires Honest(maxQueue, acts, u, data, finished, error)
    ensures Honest(maxQueue, acts + [a], u, data, finished, error)
  {
    hide InSequence, Complete, GaveUp;
    SequenceLater(maxQueue, acts, a, u, data);
    if finished && error.None? { CompleteLater(maxQueue, acts, a, u, data); }
    if error == Some(GapTimeout) { GaveUpLater(maxQueue, acts, a, u, data); }
  }

  /** Only the id and the arrival number matter. */
  lemma SameUtterance(maxQueue: nat, acts: seq<Action>, u: Utterance, v: Utterance, data: seq<Pcm>, finished: bool, error: Option<Error>)
    requires u.id == v.id && u.arrival == v.arrival && Honest(maxQueue, acts, u, data, finished, error)
    ensures Honest(maxQueue, acts, v, data, finished, error)
  {
    hide Run, LatestChunk, LatestMark, LatestTime;
    forall d, n: nat ensures PlayedAt(maxQueue, acts, u, d, n) == PlayedAt(maxQueue, acts, v, d, n) {
    }
    hide PlayedAt;
    forall n: nat | n < |acts|
      ensures LatestMark(maxQueue, acts[..n], u) == LatestMark(maxQueue, acts[..n], v)
      ensures LatestTime(maxQueue, acts[..n], u) == LatestTime(maxQueue, acts[..n], v)
      ensures forall k :: LatestChunk(maxQueue, acts[..n], u, k) == LatestChunk(maxQueue, acts[..n], v, k)
    {
      SameLatest(maxQueue, acts[..n], u, v);
    }
    forall k | 0 <= k < |data| ensures TookLatest(maxQueue, acts, v, data, k) {
      assert TookLatest(maxQueue, acts, u, data, k);
    }
    if error == Some(GapTimeout) {
      var n: nat :| SilentAt(maxQueue, acts, u, data, n);
      PlayedInside(maxQueue, acts, u, data, n);
      assert SilentAt(maxQueue, acts, v, data, n);
    }
  }

  lemma PrefixInSequence(maxQueue: nat, acts: seq<Action>, u: Utterance, data: seq<Pcm>)
    requires InSequence(maxQueue, acts, u, data) && data != []
    ensures InSequence(maxQueue, acts, u, data[..|data| - 1])
  {
    hide PlayedAt, LatestChunk;
    var d := data[..|data| - 1];
    forall k | 0 <= k < |d| ensures TookLatest(maxQueue, acts, u, d, k) {
      assert TookLatest(maxQueue, acts, u, data, k) && d[..k] == data[..k];
    }
  }

  /** The utterance at hand, and all that came out. */
  ghost predicate DataOk(maxQueue: nat, acts: seq<Action>, s: Sys) {
    && (s.sh.current.Some? ==>
          Honest(maxQueue, acts, s.sh.current.value, PhaseData(s.phase), Finished(s.phase), PhaseError(s.phase)))
    && (forall o :: o in s.outcomes ==> Honest(maxQueue, acts, o.u, o.written, true, o.error))
  }

  lemma DataLater(maxQueue: nat, acts: seq<Action>, a: Action, s: Sys)
    requires DataOk(maxQueue, acts, s)
    ensures DataOk(maxQueue, acts + [a], s)
  {
    hide Honest;
    if s.sh.current.Some? {
      HonestLater(maxQueue, acts, a, s.sh.current.value, PhaseData(s.phase), Finished(s.phase), PhaseError(s.phase));
    }
    forall o | o in s.outcomes ensures Honest(maxQueue, acts + [a], o.u, o.written, true, o.error) {
      HonestLater(maxQueue, acts, a, o.u, o.written, true, o.error);
    }
  }

  lemma EmptyInSequence(maxQueue: nat, acts: seq<Action>, u: Utterance)
    ensures InSequence(maxQueue, acts, u, [])
  {
  }

  lemma ChunkKeepsCurrent(s: Shared, c: Chunk, now: real)
    ensures var s' := OnChunk(s, c, now).0;
      && s'.current.Some? == s.current.Some?
      && (s.current.Some? ==> s'.current.value.id == s.current.value.id && s'.current.value.arrival == s.current.value.arrival)
  {
    hide Find, Receive, Remember;
    if s.current.Some? { ReceiveId(s.current.value, c, now); }
  }

  lemma DataChunk(maxQueue: nat, acts: seq<Action>, s: Sys, c: Chunk, now: real)
    requires DataOk(maxQueue, acts, s)
    ensures DataOk(maxQueue, acts, DoChunk(s, c, now))
  {
    hide OnChunk, IsNew, Honest;
    ChunkKeepsCurrent(s.sh, c, now);
    if s.sh.current.Some? {
      SameUtterance(maxQueue, acts, s.sh.current.value, DoChunk(s, c, now).sh.current.value,
                    PhaseData(s.phase), Finished(s.phase), PhaseError(s.phase));
    }
  }

  lemma NextInSequence(maxQueue: nat, acts: seq<Action>, u: Utterance, data: seq<Pcm>, pcm: Pcm, n: nat)
    requires InSequence(maxQueue, acts, u, data) && PlayedAt(maxQueue, acts, u, data, n)
    requires LatestChunk(maxQueue, acts[..n], u, |data|) == Some(pcm)
    ensures InSequence(maxQueue, acts, u, data + [pcm])
  {
    hide PlayedAt, LatestChunk;
    var more := data + [pcm];
    forall k | 0 <= k < |more| ensures TookLatest(maxQueue, acts, u, more, k) {
      assert more[..k] == data[..k];
      if k == |data| {
        assert data[..k] == data;
      } else {
        assert TookLatest(maxQueue, acts, u, data, k);
      }
    }
  }

  lemma CompleteNow(maxQueue: nat, acts: seq<Action>, u: Utterance, data: seq<Pcm>, n: nat)
    requires PlayedAt(maxQueue, acts, u, data, n) && PastMark(LatestMark(maxQueue, acts[..n], u), |data|)
    ensures Complete(maxQueue, acts, u, data)
  {
  }

  lemma GaveUpNow(maxQueue: nat, acts: seq<Action>, u: Utterance, data: seq<Pcm>, n: nat)
    requires SilentAt(maxQueue, acts, u, data, n)
    ensures GaveUp(maxQueue, acts, u, data)
  {
  }

  /**
   One pass of the loop, decided by what has been received: it ends the utterance
   when a stop was asked for, past the latest mark, or on silence, writes the next
   chunk if that has come, and otherwise waits.
   */
  ghost predicate LoopDecides(maxQueue: nat, acts: seq<Action>, s: Sys, now: real, gap: real, s': Sys)
    requires s.phase.Playing? && s.sh.current.Some?
  {
    var u, data := s.sh.current.value, s.phase.taken;
    var chunk := LatestChunk(maxQueue, acts, u, |data|);
    if StopAsked(s, u) then s'.phase == Closing(data, Some(Stopped))
    else if PastMark(LatestMark(maxQueue, acts, u), |data|) then s'.phase == Closing(data, None)
    else if chunk.Some? then s'.phase == Writing(data + [chunk.value]) && s'.sh.current.Some? && |data| !in s'.sh.current.value.chunks
    else if Silent(maxQueue, acts, u, |data|, now, gap) then s'.phase == Closing(data, Some(GapTimeout))
    else s' == s
  }

  lemma PoppedDrops(u: Utterance, next: nat)
    ensures next !in Popped(u, next).chunks
  {
  }

  lemma LoopFollows(maxQueue: nat, acts: seq<Action>, s: Sys, now: real, gap: real)
    requires s.phase.Playing? && s.sh.current.Some? && AllUpToDate(maxQueue, acts, s) && CutsOk(s)
    ensures LoopDecides(maxQueue, acts, s, now, gap, DoLoop(s, now, gap))
  {
    PoppedDrops(s.sh.current.value, |s.phase.taken|);
    hide LatestChunk, LatestMark, LatestTime, Popped;
  }

  /** One pass of the loop: the chunk it pops is the latest with the next number, and it ends past the latest mark or on silence. */
  lemma DataLoop(maxQueue: nat, acts: seq<Action>, s: Sys, now: real, gap: real)
    requires s == Run(maxQueue, acts) && DataOk(maxQueue, acts + [Loop(now, gap)], s) && AllUpToDate(maxQueue, acts, s) && CutsOk(s)
    requires s.phase.Playing? && s.sh.current.Some?
    ensures DataOk(maxQueue, acts + [Loop(now, gap)], DoLoop(s, now, gap))
  {
    LoopFollows(maxQueue, acts, s, now, gap);
    hide Run, LatestChunk, LatestMark, InSequence, Complete, GaveUp, AllUpToDate, CutsOk, Silent;
    var later, u, t := acts + [Loop(now, gap)], s.sh.current.value, s.phase.taken;
    assert later[..|acts|] == acts;
    assert PlayedAt(maxQueue, later, u, t, |acts|);
    var s' := DoLoop(s, now, gap);
    if s'.phase.Writing? {
      PoppedId(u, |t|);
      NextInSequence(maxQueue, later, u, t, LatestChunk(maxQueue, acts, u, |t|).value, |acts|);
      SameUtterance(maxQueue, later, u, Popped(u, |t|), s'.phase.taken, false, None);
    } else if s'.phase == Closing(t, None) {
      CompleteNow(maxQueue, later, u, t, |acts|);
    } else if s'.phase == Closing(t, Some(GapTimeout)) {
      assert SilentAt(maxQueue, later, u, t, |acts|);
      GaveUpNow(maxQueue, later, u, t, |acts|);
    }
  }

  lemma DataEnd(maxQueue: nat, acts: seq<Action>, s: Sys)
    requires DataOk(maxQueue, acts, s) && s.phase.Ending? && s.sh.current.Some?
    ensures DataOk(maxQueue, acts, DoEnd(s))
  {
    hide Honest;
  }

  /** Every other step keeps the utterance at hand, and its data or all but the last of it. */
  lemma DataOther(maxQueue: nat, acts: seq<Action>, s: Sys, a: Action)
    requires DataOk(maxQueue, acts, s) && PhaseOk(s) && !a.ChunkArrives? && !a.Loop? && !a.End?
    ensures DataOk(maxQueue, acts, Step(s, a))
  {
    hide InSequence, Complete, GaveUp, Remember, RememberAll, Ids;
    var s' := Step(s, a);
    if s'.sh.current.Some? { EmptyInSequence(maxQueue, acts, s'.sh.current.value); }
    if Enabled(s, a) && a.WriteFails? && s.sh.current.Some? {
      PrefixInSequence(maxQueue, acts, s.sh.current.value, s.phase.taken);
    }
  }

  lemma DataKeeps(maxQueue: nat, acts: seq<Action>, s: Sys, a: Action)
    requires s == Run(maxQueue, acts) && DataOk(maxQueue, acts, s) && PhaseOk(s) && AllUpToDate(maxQueue, acts, s) && CutsOk(s)
    ensures DataOk(maxQueue, acts + [a], Step(s, a))
  {
    DataLater(maxQueue, acts, a, s);
    hide DataOk, CutsOk, PhaseOk, AllUpToDate, Run, DoChunk, DoLoop, DoEnd;
    if Enabled(s, a) {
      match a
      case ChunkArrives(c, now) => DataChunk(maxQueue, acts + [a], s, c, now);
      case Loop(now, gap) => DataLoop(maxQueue, acts, s, now, gap);
      case End => DataEnd(maxQueue, acts + [a], s);
      case _ => DataOther(maxQueue, acts + [a], s, a);
    }
  }

  lemma {:induction false} RunData(maxQueue: nat, acts: seq<Action>)
    ensures DataOk(maxQueue, acts, Run(maxQueue, acts))
  {
    if acts != [] {
      var before, a := acts[..|acts| - 1], acts[|acts| - 1];
      RunData(maxQueue, before);
      RunKeeps(maxQueue, before);
      RunUpToDate(maxQueue, before);
      hide DataOk, PhaseOk, AllUpToDate, CutsOk, Step;
      DataKeeps(maxQueue, before, Run(maxQueue, before), a);
      assert before + [a] == acts;
    }
  }

  /**
   What the player was given is chunk 0, 1, 2, ... of that utterance, each as the
   latest chunk of that number had it when the loop popped it; a clean finish was
   decided with everything taken through the latest final mark received by then;
   and a gap timeout with the next chunk missing and no chunk of that utterance for
   as long as the gap.
   */
  lemma OutcomesAreHonest(maxQueue: nat, acts: seq<Action>, o: Outcome)
    requires o in Run(maxQueue, acts).outcomes
    ensures InSequence(maxQueue, acts, o.u, o.written)
    ensures o.error.None? ==> Complete(maxQueue, acts, o.u, o.written)
    ensures o.error == Some(GapTimeout) ==> GaveUp(maxQueue, acts, o.u, o.written)
  {
    hide Run, InSequence, Complete, GaveUp;
    RunData(maxQueue, acts);
  }

  /** A player that fails ends the utterance: as stopped if a stop was asked for while it played, else as the player's error. */
  lemma FailureIsCalled(maxQueue: nat, acts: seq<Action>, n: nat)
    requires n < |acts| && (acts[n].OpenFails? || acts[n].WriteFails? || acts[n].CloseFails?)
    requires Enabled(Run(maxQueue, acts[..n]), acts[n])
    ensures var s, s' := Run(maxQueue, acts[..n]), Run(maxQueue, acts[..n + 1]);
      s.sh.current.Some? && s'.phase.Ending?
      && s'.phase.error == Some(if StopAsked(s, s.sh.current.value) then Stopped else PlayerError)
  {
    RunKeeps(maxQueue, acts[..n]);
    assert acts[..n + 1][..n] == acts[..n];
    hide Remembered, Kept, Reported, InOrder, DoChunk, DoStop, DoLoop, DoEnd;
  }

  /** By a clock that does not run back, all of the utterance's chunks had come by then. */
  lemma {:induction false} LatestIsLast(maxQueue: nat, acts: seq<Action>, u: Utterance, m: nat)
    requires m < |acts| && IsOwn(maxQueue, acts[..m + 1], u)
    requires forall i, j :: 0 <= i <= j < |acts| && acts[i].ChunkArrives? && acts[j].ChunkArrives? ==> acts[i].now <= acts[j].now
    ensures LatestTime(maxQueue, acts, u).Some? && acts[m].now <= LatestTime(maxQueue, acts, u).value
  {
    hide Run;
    var n := |acts| - 1;
    assert acts[..n + 1] == acts;
    if m < n && !IsOwn(maxQueue, acts, u) {
      assert acts[..n][..m + 1] == acts[..m + 1];
      LatestIsLast(maxQueue, acts[..n], u, m);
    }
  }

  /** Over every run, each pass of the loop does what the actions so far call for. */
  lemma LoopIsDecided(maxQueue: nat, acts: seq<Action>, n: nat)
    requires n < |acts| && acts[n].Loop? && Run(maxQueue, acts[..n]).phase.Playing?
    ensures Run(maxQueue, acts[..n]).sh.current.Some?
    ensures LoopDecides(maxQueue, acts[..n], Run(maxQueue, acts[..n]), acts[n].now, acts[n].gap, Run(maxQueue, acts[..n + 1]))
  {
    var before := acts[..n];
    RunKeeps(maxQueue, before);
    RunUpToDate(maxQueue, before);
    LoopFollows(maxQueue, before, Run(maxQueue, before), acts[n].now, acts[n].gap);
    assert acts[..n + 1][..n] == before;
    hide LoopDecides, AllUpToDate, CutsOk, DoLoop, Remembered, Kept, Reported, InOrder;
  }
}
