/**
 The device-to-host clock of body/lidar_driver.py: unwrapping a millisecond
 counter and a sliding-window minimum kept in a monotonic deque.
 */
module LidarClock {
  import opened Options

  datatype Config = Config(windowS: real, latencyS: real, maxGapMs: real, stallPackets: nat)

  /** One entry of `_win`: when a packet arrived, and its arrival minus device time. */
  datatype Reading = Reading(arrival: real, offset: real)

  /** What the clock knows, with every reading of the current epoch instead of the deque. */
  datatype Clock = Clock(wrapMs: int, last: Option<int>, devS: real, stalled: nat, resyncs: nat, epoch: seq<Reading>)

  const WIDE_WRAP := 65536

  function WrapFor(wrapMs: int, dev: int): int {
    if dev >= wrapMs then WIDE_WRAP else wrapMs
  }

  /** The unwrapping half of `stamp`: device time so far, or a fresh epoch. */
  function Advance(cfg: Config, c: Clock, dev: int): Clock
    requires c.wrapMs > 0
  {
    var wrap := WrapFor(c.wrapMs, dev);
    if c.last.None? then
      c.(wrapMs := wrap, last := Some(dev), devS := 0.0, epoch := [])
    else
      var delta := (dev - c.last.value) % wrap;
      if delta as real > cfg.maxGapMs then
        c.(wrapMs := wrap, last := Some(dev), devS := 0.0, stalled := 0, resyncs := c.resyncs + 1, epoch := [])
      else
        c.(wrapMs := wrap, last := Some(dev), devS := c.devS + delta as real / 1000.0,
           stalled := if delta == 0 then c.stalled + 1 else 0)
  }

  function Record(c: Clock, arrival: real): Clock {
    c.(epoch := c.epoch + [Reading(arrival, arrival - c.devS)])
  }

  /** What one packet does to the clock. */
  function Step(cfg: Config, c: Clock, dev: int, arrival: real): Clock
    requires c.wrapMs > 0
  {
    Record(Advance(cfg, c, dev), arrival)
  }

  /** Arrivals never go back. */
  predicate Ordered(epoch: seq<Reading>) {
    forall i, j :: 0 <= i < j < |epoch| ==> epoch[i].arrival <= epoch[j].arrival
  }

  /** `low` is the least offset among the readings that arrived at `cutoff` or later. */
  predicate LeastSince(low: real, epoch: seq<Reading>, cutoff: real) {
    && (exists r :: r in epoch && r.arrival >= cutoff && r.offset == low)
    && (forall r :: r in epoch && r.arrival >= cutoff ==> low <= r.offset)
  }

  predicate Rising(win: seq<Reading>) {
    forall i, j :: 0 <= i < j < |win| ==> win[i].offset < win[j].offset
  }

  predicate Covered(win: seq<Reading>, r: Reading) {
    exists w :: w in win && r.arrival <= w.arrival && w.offset <= r.offset
  }

  /** Every reading of the window has a later-or-equal entry with an offset at most its own. */
  predicate Covers(win: seq<Reading>, epoch: seq<Reading>, cutoff: real) {
    forall r {:trigger r in epoch} :: r in epoch && r.arrival >= cutoff ==> Covered(win, r)
  }

  /** What the deque is to the epoch, `windowS` before its last arrival. */
  predicate Deque(win: seq<Reading>, epoch: seq<Reading>, windowS: real) {
    && (epoch == [] <==> win == [])
    && Rising(win)
    && (forall w :: w in win ==> w in epoch)
    && (Ordered(epoch) && epoch != [] ==>
          Ordered(win) && Covers(win, epoch, epoch[|epoch| - 1].arrival - windowS))
  }

  /** A reading covered before the back entries went is covered by what stays, or by the new one. */
  lemma BackCovers(win: seq<Reading>, k: nat, last: Reading, r: Reading)
    requires k <= |win| && Covered(win, r) && r.arrival <= last.arrival
    requires forall i :: k <= i < |win| ==> win[i].offset >= last.offset
    ensures Covered(win[..k] + [last], r)
  {
    var kept := win[..k] + [last];
    var w :| w in win && r.arrival <= w.arrival && w.offset <= r.offset;
    var i :| 0 <= i < |win| && win[i] == w;
    if i < k {
      assert kept[i] == w;
    } else {
      assert kept[k] == last;
    }
  }

  lemma BackRises(win: seq<Reading>, k: nat, last: Reading)
    requires k <= |win| && Rising(win) && (k > 0 ==> win[k - 1].offset < last.offset)
    ensures Rising(win[..k] + [last])
  {
  }

  lemma OrderedParts(epoch: seq<Reading>, last: Reading)
    requires Ordered(epoch + [last])
    ensures Ordered(epoch) && (forall r :: r in epoch ==> r.arrival <= last.arrival)
  {
    var all := epoch + [last];
    assert forall i :: 0 <= i < |epoch| ==> all[i] == epoch[i];
    assert all[|epoch|] == last;
  }

  lemma BackOrdered(win: seq<Reading>, k: nat, last: Reading)
    requires k <= |win| && Ordered(win) && (forall w :: w in win ==> w.arrival <= last.arrival)
    ensures Ordered(win[..k] + [last])
  {
  }

  lemma CoversItself(win: seq<Reading>, r: Reading)
    requires r in win
    ensures Covered(win, r)
  {
  }

  /** Dropping the back entries not below a new reading, and appending it, keeps every reading covered. */
  lemma BackKeeps(win: seq<Reading>, epoch: seq<Reading>, windowS: real, k: nat, last: Reading)
    requires Deque(win, epoch, windowS) && windowS > 0.0 && k <= |win|
    requires forall i :: k <= i < |win| ==> win[i].offset >= last.offset
    requires k > 0 ==> win[k - 1].offset < last.offset
    ensures var kept := win[..k] + [last];
      && Rising(kept) && (forall w :: w in kept ==> w in epoch + [last])
      && (Ordered(epoch + [last]) ==> Ordered(kept) && Covers(kept, epoch + [last], last.arrival - windowS))
  {
    hide Ordered, Rising, Covered;
    BackRises(win, k, last);
    if Ordered(epoch + [last]) {
      OrderedParts(epoch, last);
      BackOrdered(win, k, last);
      var kept := win[..k] + [last];
      forall r | r in epoch + [last] && r.arrival >= last.arrival - windowS ensures Covered(kept, r) {
        if r in epoch {
          assert epoch[|epoch| - 1] in epoch;
          assert Covered(win, r);
          BackCovers(win, k, last, r);
        } else {
          CoversItself(kept, last);
        }
      }
    }
  }

  /** Dropping expired front entries loses nothing the window still needs. */
  lemma FrontKeeps(win: seq<Reading>, epoch: seq<Reading>, cutoff: real, m: nat)
    requires m <= |win| && Covers(win, epoch, cutoff)
    requires forall i :: 0 <= i < m ==> win[i].arrival < cutoff
    ensures Covers(win[m..], epoch, cutoff)
  {
    forall r | r in epoch && r.arrival >= cutoff ensures Covered(win[m..], r) {
      assert Covered(win, r);
      var w :| w in win && r.arrival <= w.arrival && w.offset <= r.offset;
      var i :| 0 <= i < |win| && win[i] == w;
      assert win[m..][i - m] == w;
    }
  }

  /** With arrivals in order, the front of the deque is the minimum over the window. */
  lemma FrontIsLeast(win: seq<Reading>, epoch: seq<Reading>, cutoff: real)
    requires win != [] && Rising(win) && (forall w :: w in win ==> w in epoch)
    requires Covers(win, epoch, cutoff) && win[0].arrival >= cutoff
    ensures LeastSince(win[0].offset, epoch, cutoff)
  {
    assert win[0] in epoch;
    forall r | r in epoch && r.arrival >= cutoff ensures win[0].offset <= r.offset {
      assert Covered(win, r);
    }
  }

  /** The deque after expiry: still rising, still covering, its front the minimum. */
  lemma PopKeeps(win: seq<Reading>, epoch: seq<Reading>, windowS: real, m: nat)
    requires m < |win| && epoch != [] && Rising(win) && (forall w :: w in win ==> w in epoch)
    requires win[|win| - 1] == epoch[|epoch| - 1]
    requires var cutoff := epoch[|epoch| - 1].arrival - windowS;
      && (Ordered(epoch) ==> Ordered(win) && Covers(win, epoch, cutoff))
      && (forall i :: 0 <= i < m ==> win[i].arrival < cutoff)
      && win[m].arrival >= cutoff
    ensures Deque(win[m..], epoch, windowS)
    ensures win[m..][0].offset <= epoch[|epoch| - 1].offset
    ensures Ordered(epoch) ==> LeastSince(win[m..][0].offset, epoch, epoch[|epoch| - 1].arrival - windowS)
  {
    hide Covers;
    var cutoff := epoch[|epoch| - 1].arrival - windowS;
    assert forall w :: w in win[m..] ==> w in win;
    if Ordered(epoch) {
      FrontKeeps(win, epoch, cutoff, m);
      FrontIsLeast(win[m..], epoch, cutoff);
    }
  }

  class LidarClock {
    const cfg: Config
    var wrapMs: int
    var lastDevMs: Option<int>
    var devS: real
    var stalled: nat
    var win: seq<Reading>
    var resyncs: nat
    ghost var epoch: seq<Reading>

    ghost predicate Valid()
      reads this
    {
      wrapMs > 0 && cfg.windowS > 0.0 && Deque(win, epoch, cfg.windowS)
    }

    ghost function State(): Clock
      reads this
    {
      Clock(wrapMs, lastDevMs, devS, stalled, resyncs, epoch)
    }

    constructor (wrapMs: int, windowS: real, latencyS: real, maxGapMs: real, stallPackets: int)
      ensures Valid()
      ensures State() == Clock(if wrapMs < 1 then 1 else wrapMs, None, 0.0, 0, 0, [])
      ensures cfg == Config(if windowS < 0.05 then 0.05 else windowS, latencyS, maxGapMs,
                            if stallPackets < 1 then 1 else stallPackets)
    {
      this.wrapMs := if wrapMs < 1 then 1 else wrapMs;
      cfg := Config(if windowS < 0.05 then 0.05 else windowS, latencyS, maxGapMs,
                    if stallPackets < 1 then 1 else stallPackets);
      lastDevMs, devS, stalled, win, resyncs, epoch := None, 0.0, 0, [], 0, [];
    }

    method Reset()
      requires Valid()
      modifies this
      ensures Valid() && State() == old(State()).(last := None, devS := 0.0, stalled := 0, epoch := [])
    {
      lastDevMs, devS, stalled, win, epoch := None, 0.0, 0, [], [];
    }

    /** The unwrapping half of `stamp`. */
    method Unwrap(dev: int)
      requires Valid()
      modifies this
      ensures Valid() && State() == Advance(cfg, old(State()), dev)
    {
      if dev >= wrapMs {
        wrapMs := WIDE_WRAP;
      }
      if lastDevMs.None? {
        lastDevMs := Some(dev);
        devS := 0.0;
        win, epoch := [], [];
      } else {
        var delta := (dev - lastDevMs.value) % wrapMs;
        lastDevMs := Some(dev);
        if delta as real > cfg.maxGapMs {
          resyncs := resyncs + 1;
          devS := 0.0;
          win, epoch := [], [];
          stalled := 0;
        } else {
          if delta == 0 {
            stalled := stalled + 1;
          } else {
            stalled := 0;
          }
          devS := devS + delta as real / 1000.0;
        }
      }
    }

    /** The deque half of `stamp`: the front is the least offset since `windowS` ago. */
    method Push(arrival: real)
      requires Valid()
      modifies `win, `epoch
      ensures Valid() && State() == Record(old(State()), arrival)
      ensures win != [] && win[0].offset <= arrival - devS
      ensures Ordered(epoch) ==> LeastSince(win[0].offset, epoch, arrival - cfg.windowS)
    {
      hide Rising, Covers, Ordered, Covered;
      var off := arrival - devS;
      var cutoff := arrival - cfg.windowS;
      ghost var win0, epoch0 := win, epoch;
      while win != [] && win[|win| - 1].offset >= off
        invariant |win| <= |win0| && win == win0[..|win|] && epoch == epoch0
        invariant forall i :: |win| <= i < |win0| ==> win0[i].offset >= off
        decreases |win|
      {
        win := win[..|win| - 1];
      }
      BackKeeps(win0, epoch0, cfg.windowS, |win|, Reading(arrival, off));
      win := win + [Reading(arrival, off)];
      epoch := epoch + [Reading(arrival, off)];
      ghost var pushed := win;
      ghost var m := 0;
      while win != [] && win[0].arrival < cutoff
        invariant 0 <= m < |pushed| && win == pushed[m..] && epoch == epoch0 + [Reading(arrival, off)]
        invariant forall i :: 0 <= i < m ==> pushed[i].arrival < cutoff
        decreases |win|
      {
        assert win[0] == pushed[m] && pushed[|pushed| - 1].arrival >= cutoff;
        win := win[1..];
        m := m + 1;
      }
      PopKeeps(pushed, epoch, cfg.windowS, m);
    }

    /** `stamp`: host time of a packet's capture, or None while the device clock stands still. */
    method Stamp(dev: int, arrival: real) returns (t: Option<real>)
      requires Valid()
      modifies this
      ensures Valid() && State() == Step(cfg, old(State()), dev, arrival)
      ensures t.None? <==> stalled >= cfg.stallPackets
      ensures t.Some? ==> t.value <= arrival - cfg.latencyS
      ensures t.Some? && Ordered(epoch) ==>
        LeastSince(t.value + cfg.latencyS - devS, epoch, arrival - cfg.windowS)
    {
      hide Advance, Deque, LeastSince, Ordered;
      Unwrap(dev);
      Push(arrival);
      if stalled >= cfg.stallPackets { return None; }
      return Some(devS + win[0].offset - cfg.latencyS);
    }
  }
}
