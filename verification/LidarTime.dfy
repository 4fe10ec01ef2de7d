/** Whole runs of the device clock: what its stamps mean over a stream of packets. */
module LidarTime {
  import opened Options
  import opened LidarClock

  /** A packet as it was captured: device time before wrapping, and when it reached the host. */
  datatype Packet = Packet(trueMs: int, arrival: real)

  /** The clock after a stream of packets whose counter wraps at `wrap`. */
  function After(cfg: Config, c: Clock, packets: seq<Packet>, wrap: int): (r: Clock)
    requires c.wrapMs > 0 && wrap > 0
    ensures r.wrapMs > 0
  {
    if packets == [] then c
    else
      var n := |packets| - 1;
      Step(cfg, After(cfg, c, packets[..n], wrap), packets[n].trueMs % wrap, packets[n].arrival)
  }

  /** `t` is what `stamp` may return in state `c`, just after a packet. */
  predicate Stamped(cfg: Config, c: Clock, t: real) {
    c.epoch != [] && LeastSince(t + cfg.latencyS - c.devS, c.epoch, c.epoch[|c.epoch| - 1].arrival - cfg.windowS)
  }

  // ── stamps never go back within an epoch ──

  /** `c'` comes after `c` in the same epoch. */
  predicate Follows(c: Clock, c': Clock) {
    && |c.epoch| <= |c'.epoch| && c.epoch == c'.epoch[..|c.epoch|]
    && c.devS <= c'.devS
    && (forall r :: r in c'.epoch[|c.epoch|..] ==> r.arrival - r.offset <= c'.devS)
  }

  lemma StepFollows(cfg: Config, c: Clock, mid: Clock, dev: int, arrival: real)
    requires mid.wrapMs > 0 && mid.last.Some? && Follows(c, mid)
    requires Step(cfg, mid, dev, arrival).resyncs == mid.resyncs
    ensures Follows(c, Step(cfg, mid, dev, arrival))
  {
    var next := Step(cfg, mid, dev, arrival);
    var r := Reading(arrival, arrival - next.devS);
    assert next.epoch == mid.epoch + [r];
    assert next.epoch[|c.epoch|..] == mid.epoch[|c.epoch|..] + [r];
  }

  lemma FollowsItself(c: Clock)
    ensures Follows(c, c)
  {
  }

  lemma {:induction false} AfterFollows(cfg: Config, c: Clock, packets: seq<Packet>, wrap: int)
    requires c.wrapMs > 0 && wrap > 0 && c.last.Some?
    ensures var r := After(cfg, c, packets, wrap); r.last.Some? && c.resyncs <= r.resyncs
    ensures After(cfg, c, packets, wrap).resyncs == c.resyncs ==> Follows(c, After(cfg, c, packets, wrap))
  {
    hide Follows;
    if packets != [] {
      var n := |packets| - 1;
      AfterFollows(cfg, c, packets[..n], wrap);
      var mid := After(cfg, c, packets[..n], wrap);
      var next := After(cfg, c, packets, wrap);
      if next.resyncs == c.resyncs {
        StepFollows(cfg, c, mid, packets[n].trueMs % wrap, packets[n].arrival);
      }
    } else {
      assert Follows(c, c) by { FollowsItself(c); }
    }
  }

  /** The stamp of a state is never later than its last arrival less the latency. */
  lemma StampBound(cfg: Config, c: Clock, t: real)
    requires Stamped(cfg, c, t) && cfg.windowS > 0.0
    requires var r := c.epoch[|c.epoch| - 1]; r.offset == r.arrival - c.devS
    ensures t <= c.epoch[|c.epoch| - 1].arrival - cfg.latencyS
  {
    assert c.epoch[|c.epoch| - 1] in c.epoch;
  }

  lemma LaterArrives(epoch: seq<Reading>, i: nat, r: Reading)
    requires Ordered(epoch) && i < |epoch| && r in epoch[i + 1..]
    ensures epoch[i].arrival <= r.arrival
  {
  }

  lemma LaterStamp(cfg: Config, c: Clock, c': Clock, t: real, t': real)
    requires Follows(c, c') && Ordered(c'.epoch) && cfg.windowS > 0.0
    requires Stamped(cfg, c, t) && Stamped(cfg, c', t')
    requires var r := c.epoch[|c.epoch| - 1]; r.offset == r.arrival - c.devS
    ensures t <= t'
  {
    hide Ordered;
    StampBound(cfg, c, t);
    var n, n' := |c.epoch| - 1, |c'.epoch| - 1;
    var cutoff' := c'.epoch[n'].arrival - cfg.windowS;
    var r :| r in c'.epoch && r.arrival >= cutoff' && r.offset == t' + cfg.latencyS - c'.devS;
    assert c'.epoch[n] == c.epoch[n] && c'.epoch == c.epoch + c'.epoch[n + 1..];
    assert c.epoch[n].arrival <= c'.epoch[n'].arrival by {
      if n < n' {
        assert c'.epoch[n'] in c'.epoch[n + 1..];
        LaterArrives(c'.epoch, n, c'.epoch[n']);
      }
    }
    if r !in c.epoch {
      LaterArrives(c'.epoch, n, r);
    }
  }

  lemma JustRead(cfg: Config, c0: Clock, packets: seq<Packet>, wrap: int)
    requires c0.wrapMs > 0 && wrap > 0 && packets != []
    ensures var c := After(cfg, c0, packets, wrap);
      && c.last.Some? && c.epoch != []
      && var r := c.epoch[|c.epoch| - 1]; r.offset == r.arrival - c.devS
  {
  }

  /**
   Within one epoch, with arrivals in order, stamps never go back: not for the
   next packet and not for any later one.
   */
  lemma StampsNeverFall(cfg: Config, c0: Clock, before: seq<Packet>, later: seq<Packet>, wrap: int, t: real, t': real)
    requires c0.wrapMs > 0 && wrap > 0 && cfg.windowS > 0.0 && before != []
    ensures var c := After(cfg, c0, before, wrap);
      var c' := After(cfg, c, later, wrap);
      Stamped(cfg, c, t) && Stamped(cfg, c', t') && c'.resyncs == c.resyncs && Ordered(c'.epoch) ==> t <= t'
  {
    hide *;
    var c := After(cfg, c0, before, wrap);
    var c' := After(cfg, c, later, wrap);
    if Stamped(cfg, c, t) && Stamped(cfg, c', t') && c'.resyncs == c.resyncs && Ordered(c'.epoch) {
      JustRead(cfg, c0, before, wrap);
      AfterFollows(cfg, c, later, wrap);
      LaterStamp(cfg, c, c', t, t');
    }
  }

  // ── device time ──

  predicate Close(cfg: Config, before: int, now: int, wrap: int) {
    0 <= now - before < wrap && (now - before) as real <= cfg.maxGapMs
  }

  /** The counter is read often enough to be unwrapped. */
  predicate Steady(cfg: Config, packets: seq<Packet>, wrap: int) {
    && (forall i :: 0 <= i < |packets| ==> packets[i].trueMs >= 0)
    && (forall i :: 0 < i < |packets| ==> Close(cfg, packets[i - 1].trueMs, packets[i].trueMs, wrap))
  }

  /** The configured wrap is the counter's, or the counter is 16-bit and cannot skip past the configured wrap. */
  predicate WrapFits(cfg: Config, configured: int, wrap: int) {
    configured == wrap || (0 < configured < wrap == WIDE_WRAP && configured as real + cfg.maxGapMs <= WIDE_WRAP as real)
  }

  lemma ModSmall(x: int, w: int)
    requires 0 <= x < w
    ensures x % w == x
  {
  }

  lemma NoMultipleBetween(k: int, w: int, gap: int)
    requires k * w == gap && -w < gap < w
    ensures k == 0
  {
  }

  lemma ModUnique(x: int, w: int, q: int, r: int)
    requires w > 0 && x == q * w + r && 0 <= r < w
    ensures x % w == r
  {
    var q', r' := x / w, x % w;
    assert (q - q') * w == q * w - q' * w;
    NoMultipleBetween(q - q', w, r' - r);
  }

  /** A counter that advanced by `d` less than its wrap. */
  lemma ModAdvance(x: int, d: int, w: int)
    requires x >= 0 && 0 <= d < w
    ensures var m := x % w + d; (x + d) % w == if m < w then m else m - w
  {
    var q, r := x / w, x % w;
    assert x == q * w + r;
    if r + d < w {
      ModUnique(x + d, w, q, r + d);
    } else {
      assert (q + 1) * w == q * w + w;
      ModUnique(x + d, w, q + 1, r + d - w);
    }
  }

  /** Unwrapping one advance, with a clock that knows the wrap or has not yet seen it exceeded. */
  lemma DeltaIsAdvance(cfg: Config, configured: int, before: int, now: int, wrap: int)
    requires WrapFits(cfg, configured, wrap) && wrap > 0 && before >= 0 && Close(cfg, before, now, wrap)
    requires before % wrap < configured
    ensures var w := WrapFor(configured, now % wrap);
      && w > 0 && WrapFits(cfg, w, wrap) && now % wrap < w
      && (now % wrap - before % wrap) % w == now - before
  {
    var last, d := before % wrap, now - before;
    ModAdvance(before, d, wrap);
    var w := WrapFor(configured, now % wrap);
    if last + d < wrap {
      ModSmall(d, w);
    } else {
      assert w == wrap;
      ModUnique(now % wrap - last, w, -1, d);
    }
  }

  function ReadingOf(first: Packet, p: Packet): Reading {
    Reading(p.arrival, p.arrival - (p.trueMs - first.trueMs) as real / 1000.0)
  }

  /** Where the device clock stands after a steady stream. */
  predicate Tracks(cfg: Config, c: Clock, c0: Clock, packets: seq<Packet>, wrap: int)
    requires packets != [] && wrap > 0
  {
    var n := |packets| - 1;
    && c.wrapMs > 0 && WrapFits(cfg, c.wrapMs, wrap)
    && c.last == Some(packets[n].trueMs % wrap) && packets[n].trueMs % wrap < c.wrapMs
    && c.devS == (packets[n].trueMs - packets[0].trueMs) as real / 1000.0
    && c.resyncs == c0.resyncs
    && |c.epoch| == |packets|
    && (forall i :: 0 <= i <= n ==> c.epoch[i] == ReadingOf(packets[0], packets[i]))
  }

  lemma CloseGap(cfg: Config, before: int, now: int, wrap: int)
    requires Close(cfg, before, now, wrap)
    ensures (now - before) as real <= cfg.maxGapMs
  {
  }

  lemma TrackStep(cfg: Config, c: Clock, c0: Clock, packets: seq<Packet>, p: Packet, wrap: int)
    requires packets != [] && wrap > 0 && Tracks(cfg, c, c0, packets, wrap)
    requires var last := packets[|packets| - 1].trueMs; last >= 0 && Close(cfg, last, p.trueMs, wrap)
    ensures Tracks(cfg, Step(cfg, c, p.trueMs % wrap, p.arrival), c0, packets + [p], wrap)
  {
    hide WrapFits, Close, WrapFor;
    var last, first := packets[|packets| - 1].trueMs, packets[0].trueMs;
    DeltaIsAdvance(cfg, c.wrapMs, last, p.trueMs, wrap);
    CloseGap(cfg, last, p.trueMs, wrap);
    var next := Step(cfg, c, p.trueMs % wrap, p.arrival);
    assert next.devS == (p.trueMs - first) as real / 1000.0;
    assert next.epoch == c.epoch + [ReadingOf(packets[0], p)];
  }

  lemma FirstFits(cfg: Config, configured: int, at: int, wrap: int)
    requires WrapFits(cfg, configured, wrap) && wrap > 0 && configured > 0 && cfg.maxGapMs >= 0.0
    ensures var w := WrapFor(configured, at % wrap); w > 0 && WrapFits(cfg, w, wrap) && at % wrap < w
  {
  }

  lemma FirstTracks(cfg: Config, c0: Clock, packets: seq<Packet>, wrap: int)
    requires c0.wrapMs > 0 && c0.last.None? && |packets| == 1 && wrap > 0
    requires WrapFits(cfg, c0.wrapMs, wrap) && cfg.maxGapMs >= 0.0
    ensures Tracks(cfg, After(cfg, c0, packets, wrap), c0, packets, wrap)
  {
    hide WrapFits;
    var n := |packets| - 1;
    assert packets[..n] == [];
    assert After(cfg, c0, packets[..n], wrap) == c0;
    var c := After(cfg, c0, packets, wrap);
    assert c == Step(cfg, c0, packets[n].trueMs % wrap, packets[n].arrival);
    FirstFits(cfg, c0.wrapMs, packets[n].trueMs, wrap);
  }

  /**
   Read often enough, the unwrapped device time is the true elapsed time, with
   no resync, whether the counter wraps where configured or is a 16-bit one
   found out on the way.
   */
  lemma {:induction false} DeviceTimeIsTrue(cfg: Config, c0: Clock, packets: seq<Packet>, wrap: int)
    requires c0.wrapMs > 0 && c0.last.None? && packets != [] && wrap > 0
    requires WrapFits(cfg, c0.wrapMs, wrap) && cfg.maxGapMs >= 0.0 && Steady(cfg, packets, wrap)
    ensures Tracks(cfg, After(cfg, c0, packets, wrap), c0, packets, wrap)
    decreases |packets|
  {
    var n := |packets| - 1;
    if n == 0 {
      FirstTracks(cfg, c0, packets, wrap);
    } else {
      hide Tracks, Close, WrapFits;
      var before := packets[..n];
      assert Steady(cfg, before, wrap) by {
        assert forall i :: 0 <= i < n ==> before[i] == packets[i];
      }
      DeviceTimeIsTrue(cfg, c0, before, wrap);
      TrackStep(cfg, After(cfg, c0, before, wrap), c0, before, packets[n], wrap);
      assert before + [packets[n]] == packets;
    }
  }

  /** How long a packet took to arrive, for a device whose counter read zero at host time `base`. */
  function Delay(p: Packet, base: real): real {
    p.arrival - (base + p.trueMs as real / 1000.0)
  }

  /**
   The error of a stamp is the shortest delay of any packet in the window, less
   the configured latency: exact when that shortest delay is the latency.
   */
  lemma StampError(cfg: Config, c0: Clock, packets: seq<Packet>, wrap: int, t: real, base: real)
    requires c0.wrapMs > 0 && c0.last.None? && packets != [] && wrap > 0
    requires WrapFits(cfg, c0.wrapMs, wrap) && cfg.maxGapMs >= 0.0 && Steady(cfg, packets, wrap)
    requires Stamped(cfg, After(cfg, c0, packets, wrap), t)
    ensures var now := packets[|packets| - 1];
      var error := t - (base + now.trueMs as real / 1000.0);
      && (exists p :: p in packets && p.arrival >= now.arrival - cfg.windowS && error == Delay(p, base) - cfg.latencyS)
      && (forall p :: p in packets && p.arrival >= now.arrival - cfg.windowS ==> error <= Delay(p, base) - cfg.latencyS)
  {
    hide Step, After, WrapFits, Steady;
    DeviceTimeIsTrue(cfg, c0, packets, wrap);
    var c := After(cfg, c0, packets, wrap);
    var n := |packets| - 1;
    var now := packets[n];
    var cutoff := now.arrival - cfg.windowS;
    var low := t + cfg.latencyS - c.devS;
    assert c.epoch[n].arrival == now.arrival;
    var r :| r in c.epoch && r.arrival >= cutoff && r.offset == low;
    var i :| 0 <= i <= n && c.epoch[i] == r;
    assert packets[i] in packets;
    forall p | p in packets && p.arrival >= cutoff ensures t - (base + now.trueMs as real / 1000.0) <= Delay(p, base) - cfg.latencyS {
      var j :| 0 <= j <= n && packets[j] == p;
      assert c.epoch[j] in c.epoch;
    }
  }

  // ── a new epoch ──

  /** A clock that has read nothing yet, but knows the wrap and how often it has started over. */
  function Anew(wrapMs: int, resyncs: nat): Clock {
    Clock(wrapMs, None, 0.0, 0, resyncs, [])
  }

  /** The counter seems to have gone further than is believed, forwards around its wrap, since the last packet. */
  predicate Jumps(cfg: Config, c: Clock, dev: int)
    requires c.wrapMs > 0
  {
    c.last.Some? && ((dev - c.last.value) % (if dev < c.wrapMs then c.wrapMs else 65536)) as real > cfg.maxGapMs
  }

  /**
   A jump, and nothing else, starts a new epoch: from there on, whatever packets
   follow, the clock is one that has just been made, apart from what it found out
   about the wrap and its count of epochs. So all that holds of a fresh clock holds
   from every jump on.
   */
  lemma {:induction false} JumpStartsAnew(cfg: Config, c: Clock, p: Packet, later: seq<Packet>, wrap: int)
    requires c.wrapMs > 0 && wrap > 0
    ensures Jumps(cfg, c, p.trueMs % wrap) ==>
      After(cfg, c, [p] + later, wrap) == After(cfg, Anew(c.wrapMs, c.resyncs + 1), [p] + later, wrap)
    ensures !Jumps(cfg, c, p.trueMs % wrap) ==> After(cfg, c, [p], wrap).resyncs == c.resyncs
    decreases |later|
  {
    assert [p][..0] == [];
    if later == [] {
      assert [p] + later == [p];
    } else {
      var n := |later| - 1;
      JumpStartsAnew(cfg, c, p, later[..n], wrap);
      assert ([p] + later)[..|[p] + later| - 1] == [p] + later[..n];
      hide Step, Jumps;
    }
  }

  // ── a device clock that stands still ──

  /** How many packets, the last ones, read the same as the one before them. */
  function Repeats(packets: seq<Packet>, wrap: int): nat
    requires wrap > 0
  {
    var n := |packets| - 1;
    if n < 1 || packets[n].trueMs % wrap != packets[n - 1].trueMs % wrap then 0 else Repeats(packets[..n], wrap) + 1
  }

  /** The clock knows the last reading, and no reading reaches its wrap. */
  predicate Knows(c: Clock, packets: seq<Packet>, wrap: int)
    requires packets != [] && wrap > 0
  {
    c.wrapMs > 0 && c.last == Some(packets[|packets| - 1].trueMs % wrap) && packets[|packets| - 1].trueMs % wrap < c.wrapMs
  }

  lemma SameReading(w: int, before: int, now: int)
    requires 0 <= before < w && 0 <= now < w
    ensures (now - before) % w == 0 <==> now == before
  {
    if now >= before {
      ModSmall(now - before, w);
    } else {
      ModUnique(now - before, w, -1, now - before + w);
    }
  }

  /**
   `stalled` counts exactly the packets since the counter last moved, so no stamp
   is given if and only if the last `stall_packets` packets all read the same as
   the one before them.
   */
  lemma {:induction false} StalledIsRepeats(cfg: Config, c0: Clock, packets: seq<Packet>, wrap: int)
    requires c0.wrapMs > 0 && c0.last.None? && c0.stalled == 0 && 0 < wrap <= WIDE_WRAP && cfg.maxGapMs >= 0.0
    ensures After(cfg, c0, packets, wrap).stalled == Repeats(packets, wrap)
    ensures packets != [] ==> Knows(After(cfg, c0, packets, wrap), packets, wrap)
  {
    if packets != [] {
      var n := |packets| - 1;
      var before := packets[..n];
      StalledIsRepeats(cfg, c0, before, wrap);
      var c, dev := After(cfg, c0, before, wrap), packets[n].trueMs % wrap;
      assert After(cfg, c0, packets, wrap) == Step(cfg, c, dev, packets[n].arrival);
      if n > 0 {
        assert before[n - 1] == packets[n - 1];
        SameReading(WrapFor(c.wrapMs, dev), packets[n - 1].trueMs % wrap, dev);
      } else {
        assert c == c0;
      }
      hide After;
    }
  }
}
