/** `AudioBridge` of body/audio_bridge.py: the state its lock protects, and the blocks that run under the lock. */
module AudioBridge {
  import opened Options

  type Id = string
  type Pcm = seq<int>

  const DONE_MEMORY: nat := 64

  datatype Error = Stopped | NoDevice | QueueFull | GapTimeout | PlayerError

  /** `_Utterance`. `arrival` is history: it numbers the utterance among all. */
  datatype Utterance = Utterance(id: Id, chunks: map<int, Pcm>, finalSeq: Option<int>, lastRx: real, arrival: nat)

  /** A decoded chunk message. */
  datatype Chunk = Chunk(id: Id, seqNo: int, pcm: Pcm, final: bool)

  /**
   The shared state. The id map of the source holds the queued utterances by id;
   here it is a look-up in the queue. `arrived` numbers the utterances.
   */
  datatype Shared = Shared(queue: seq<Utterance>, doneIds: seq<Id>, current: Option<Utterance>, cut: bool, stopping: bool,
                           deviceOk: bool, maxQueue: nat, arrived: nat)

  /** `deque(maxlen=64).append` */
  function Remember(done: seq<Id>, id: Id): seq<Id> {
    var d := done + [id];
    if |d| > DONE_MEMORY then d[|d| - DONE_MEMORY..] else d
  }

  function RememberAll(done: seq<Id>, ids: seq<Id>): seq<Id>
    decreases |ids|
  {
    if ids == [] then done else RememberAll(Remember(done, ids[0]), ids[1..])
  }

  function Ids(queue: seq<Utterance>): seq<Id> {
    seq(|queue|, k requires 0 <= k < |queue| => queue[k].id)
  }

  function Receive(u: Utterance, c: Chunk, now: real): Utterance {
    Utterance(u.id, u.chunks[c.seqNo := c.pcm], if c.final then Some(c.seqNo) else u.finalSeq, now, u.arrival)
  }

  function Fresh(id: Id, arrival: nat): Utterance {
    Utterance(id, map[], None, 0.0, arrival)
  }

  /** Where an id sits in the queue, or the queue's length. */
  function Find(queue: seq<Utterance>, id: Id): (k: nat)
    ensures k <= |queue| && (k < |queue| ==> queue[k].id == id)
    ensures forall j :: 0 <= j < k ==> queue[j].id != id
  {
    if queue == [] || queue[0].id == id then 0 else 1 + Find(queue[1..], id)
  }

  /** `on_chunk`, under the lock: the new state and the utterance refused, if any. */
  function OnChunk(s: Shared, c: Chunk, now: real): (Shared, Option<Error>) {
    if c.id in s.doneIds then (s, None)
    else
      var k := Find(s.queue, c.id);
      if k < |s.queue| then (s.(queue := s.queue[k := Receive(s.queue[k], c, now)]), None)
      else if s.current.Some? && s.current.value.id == c.id then (s.(current := Some(Receive(s.current.value, c, now))), None)
      else if !s.deviceOk then (s.(doneIds := Remember(s.doneIds, c.id), arrived := s.arrived + 1), Some(NoDevice))
      else if |s.queue| >= s.maxQueue then (s.(doneIds := Remember(s.doneIds, c.id), arrived := s.arrived + 1), Some(QueueFull))
      else (s.(queue := s.queue + [Receive(Fresh(c.id, s.arrived), c, now)], arrived := s.arrived + 1), None)
  }

  /** `stop_all`, under the lock; the dropped ids are the queue's. */
  function StopAll(s: Shared): Shared {
    s.(doneIds := RememberAll(s.doneIds, Ids(s.queue)), queue := [], cut := s.cut || s.current.Some?)
  }

  /** `_run`: take the next utterance; the cut flag of the last one is gone. */
  function Take(s: Shared): Shared
    requires s.queue != []
  {
    s.(queue := s.queue[1..], current := Some(s.queue[0]), cut := false)
  }

  /** What the playback thread does next, decided under the lock. */
  datatype Decision = Wait | Cut | Clean | Write(pcm: Pcm) | Gap

  function Decide(s: Shared, u: Utterance, next: nat, now: real, gap: real): Decision {
    if s.cut || s.stopping then Cut
    else if u.finalSeq.Some? && next > u.finalSeq.value then Clean
    else if next in u.chunks then Write(u.chunks[next])
    else if now - u.lastRx >= gap then Gap
    else Wait
  }

  /** `u.chunks.pop(next_seq)` */
  function Popped(u: Utterance, next: nat): Utterance {
    u.(chunks := map k | k in u.chunks && k != next :: u.chunks[k])
  }

  /** The `finally` block. */
  function Finish(s: Shared): Shared
    requires s.current.Some?
  {
    s.(current := None, doneIds := Remember(s.doneIds, s.current.value.id))
  }

  class Bridge {
    var queue: seq<Utterance>
    var doneIds: seq<Id>
    var current: Option<Utterance>
    var cut: bool
    var stopping: bool
    var deviceOk: bool
    const maxQueue: nat
    const gap: real
    var arrived: nat

    function Value(): Shared
      reads this
    {
      Shared(queue, doneIds, current, cut, stopping, deviceOk, maxQueue, arrived)
    }

    constructor (maxQueue: nat, gap: real)
      ensures Value() == Shared([], [], None, false, false, true, maxQueue, 0) && this.gap == gap
    {
      queue, doneIds, current, cut, stopping, deviceOk := [], [], None, false, false, true;
      this.maxQueue, this.gap, arrived := maxQueue, gap, 0;
    }

    method OnChunkLocked(c: Chunk, now: real) returns (dropped: Option<Error>)
      modifies this
      ensures (Value(), dropped) == OnChunk(old(Value()), c, now)
    {
      dropped := None;
      if c.id in doneIds { return; }
      var k := Find(queue, c.id);
      if k < |queue| {
        queue := queue[k := Receive(queue[k], c, now)];
      } else if current.Some? && current.value.id == c.id {
        current := Some(Receive(current.value, c, now));
      } else if !deviceOk {
        doneIds := Remember(doneIds, c.id);
        arrived := arrived + 1;
        dropped := Some(NoDevice);
      } else if |queue| >= maxQueue {
        doneIds := Remember(doneIds, c.id);
        arrived := arrived + 1;
        dropped := Some(QueueFull);
      } else {
        queue := queue + [Receive(Fresh(c.id, arrived), c, now)];
        arrived := arrived + 1;
      }
    }

    /** `stop_all`, under the lock: cut what plays, drop what waits. */
    method StopAllLocked() returns (dropped: seq<Id>)
      modifies this
      ensures Value() == StopAll(old(Value())) && dropped == Ids(old(queue))
    {
      dropped := Ids(queue);
      for i := 0 to |dropped|
        invariant RememberAll(doneIds, dropped[i..]) == RememberAll(old(doneIds), dropped)
        invariant queue == old(queue) && current == old(current) && cut == old(cut) && stopping == old(stopping)
                  && deviceOk == old(deviceOk) && arrived == old(arrived)
      {
        assert dropped[i..][1..] == dropped[i + 1..];
        doneIds := Remember(doneIds, dropped[i]);
      }
      queue := [];
      if current.Some? {
        cut := true;
      }
    }

    /** The waiting end of `_run`: nothing to do, or the next utterance becomes current. */
    method TakeLocked() returns (taken: bool)
      modifies this
      ensures taken <==> !old(stopping) && old(queue) != []
      ensures Value() == if taken then Take(old(Value())) else old(Value())
    {
      taken := !stopping && queue != [];
      if taken {
        current, queue, cut := Some(queue[0]), queue[1..], false;
      }
    }

    /** One pass of the locked loop in `play_one`. */
    method DecideLocked(next: nat, now: real) returns (d: Decision)
      requires current.Some?
      modifies this
      ensures d == Decide(old(Value()), old(current).value, next, now, gap)
      ensures Value() == if d.Write? then old(Value()).(current := Some(Popped(old(current).value, next))) else old(Value())
    {
      var u := current.value;
      if cut || stopping { return Cut; }
      if u.finalSeq.Some? && next > u.finalSeq.value { return Clean; }
      if next in u.chunks {
        current := Some(Popped(u, next));
        return Write(u.chunks[next]);
      }
      return if now - u.lastRx >= gap then Gap else Wait;
    }

    /** The `finally` block of `play_one`. */
    method FinishLocked()
      requires current.Some?
      modifies this
      ensures Value() == Finish(old(Value()))
    {
      doneIds := Remember(doneIds, current.value.id);
      current := None;
    }
  }
}
