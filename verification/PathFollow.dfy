/** Checking a streamed path against the live raster: body/lib/path_follow.py. */
module PathFollow {
  import opened Numbers
  import opened Options

  /** What the raster says at one sample: off the raster, clear, or lethal. */
  type Look = Option<bool>

  /** `d * k / n` */
  function Part(d: real, k: nat, n: nat): real
    requires n > 0
  {
    d * (k as real) / (n as real)
  }

  /** Arc length of the k-th of `n` equal steps from `s0` to `s1`. */
  function Arc(s0: real, s1: real, k: nat, n: nat): real
    requires n > 0
  {
    s0 + Part(s1 - s0, k, n)
  }

  /** The arc lengths of `resample`, both ends included; `total` is the path's length. */
  function Resample(total: real, s0: real, s1: real, step: real): seq<real>
    requires step > 0.0
  {
    var e := if total < s1 then total else s1;
    if e <= s0 then [s0]
    else
      var n := if Ceil((e - s0) / step) > 1 then Ceil((e - s0) / step) else 1;
      seq(n + 1, k requires 0 <= k < n + 1 => Arc(s0, e, k, n))
  }

  ghost predicate NonDecreasing(arc: seq<real>) {
    forall i, j :: 0 <= i <= j < |arc| ==> arc[i] <= arc[j]
  }

  lemma PartEnds(d: real, n: nat)
    requires n > 0
    ensures Part(d, 0, n) == 0.0 && Part(d, n, n) == d
  {
  }

  lemma PartGrows(d: real, i: nat, j: nat, n: nat)
    requires n > 0 && d >= 0.0 && i <= j
    ensures Part(d, i, n) <= Part(d, j, n)
  {
    var a, b := d * (i as real), d * (j as real);
    assert b - a == d * ((j - i) as real) >= 0.0;
    assert (b - a) / (n as real) >= 0.0;
    assert (b - a) / (n as real) == b / (n as real) - a / (n as real);
  }

  lemma ArcGrows(s0: real, s1: real, i: nat, j: nat, n: nat)
    requires n > 0 && s0 <= s1 && i <= j <= n
    ensures s0 <= Arc(s0, s1, i, n) <= Arc(s0, s1, j, n) <= s1
    ensures Arc(s0, s1, 0, n) == s0 && Arc(s0, s1, n, n) == s1
  {
    hide Part;
    PartGrows(s1 - s0, i, j, n);
    PartGrows(s1 - s0, j, n, n);
    PartGrows(s1 - s0, 0, i, n);
    PartEnds(s1 - s0, n);
  }

  lemma CeilBound(len: real, step: real, n: int)
    requires step > 0.0 && len > 0.0 && n >= Ceil(len / step) && n >= 1
    ensures len / (n as real) <= step
  {
    var q := len / step;
    assert q <= n as real;
    assert q * step == len;
    assert (n as real - q) * step >= 0.0;
    var x := len / (n as real);
    assert x * (n as real) == len;
    if x > step { assert (x - step) * (n as real) > 0.0; }
  }

  /** Samples never go back, start and end where asked, and are at most a step apart. */
  lemma ResampleOk(total: real, s0: real, s1: real, step: real)
    requires step > 0.0
    ensures var arc := Resample(total, s0, s1, step);
            && |arc| > 0 && NonDecreasing(arc) && arc[0] == s0
            && (s0 < total && s0 < s1 ==> arc[|arc| - 1] == if total < s1 then total else s1)
  {
    var arc := Resample(total, s0, s1, step);
    var e := if total < s1 then total else s1;
    hide Arc;
    if e > s0 {
      var n := |arc| - 1;
      forall i, j | 0 <= i <= j < |arc| ensures arc[i] <= arc[j] {
        ArcGrows(s0, e, i, j, n);
      }
      ArcGrows(s0, e, 0, n, n);
    }
  }

  lemma Spacing(d: real, k: nat, n: nat)
    requires n > 0
    ensures Part(d, k + 1, n) - Part(d, k, n) == d / (n as real)
  {
    var a, b, m := d * ((k + 1) as real), d * (k as real), n as real;
    assert a - b == d;
    assert (a - b) / m == a / m - b / m;
  }

  /** The samples are evenly spaced, and the fewest that are no more than a step apart: one gap less would be too few. */
  lemma ResampleEven(total: real, s0: real, s1: real, step: real, k: nat)
    requires step > 0.0 && k + 1 < |Resample(total, s0, s1, step)|
    ensures var arc, gaps := Resample(total, s0, s1, step), |Resample(total, s0, s1, step)| - 1;
      && (arc[k + 1] - arc[k]) * (gaps as real) == MinReal(total, s1) - s0
      && (gaps > 1 ==> ((gaps - 1) as real) * step < MinReal(total, s1) - s0)
  {
    var e := if total < s1 then total else s1;
    var n := |Resample(total, s0, s1, step)| - 1;
    var arc := Resample(total, s0, s1, step);
    Spacing(e - s0, k, n);
    assert ((e - s0) / (n as real)) * (n as real) == e - s0;
    var fewest := CeilCovers(e - s0, step);
    hide Part;
    assert arc[k + 1] == Arc(s0, e, k + 1, n) && arc[k] == Arc(s0, e, k, n);
    assert arc[k + 1] - arc[k] == (e - s0) / (n as real);
  }

  /** Consecutive samples are at most one step apart, so nothing wider than a step is jumped over. */
  lemma ResampleStep(total: real, s0: real, s1: real, step: real, k: nat)
    requires step > 0.0 && k + 1 < |Resample(total, s0, s1, step)|
    ensures Resample(total, s0, s1, step)[k + 1] - Resample(total, s0, s1, step)[k] <= step
  {
    var arc := Resample(total, s0, s1, step);
    var e := if total < s1 then total else s1;
    var n := |arc| - 1;
    CeilBound(e - s0, step, n);
    Spacing(e - s0, k, n);
    hide Part, Ceil;
    assert arc[k + 1] == Arc(s0, e, k + 1, n) && arc[k] == Arc(s0, e, k, n);
  }

  /** `first_blocked`: the first lethal sample before the path leaves the raster, and how many precede that. */
  method FirstBlocked(look: seq<Look>) returns (first: Option<nat>, onRaster: nat)
    ensures onRaster <= |look| && (onRaster < |look| ==> look[onRaster].None?)
    ensures forall k :: 0 <= k < onRaster ==> look[k].Some?
    ensures first.Some? ==> first.value < onRaster && look[first.value] == Some(true)
    ensures forall k :: 0 <= k < (if first.Some? then first.value else onRaster) ==> look[k] == Some(false)
  {
    first := None;
    for k := 0 to |look|
      invariant forall m :: 0 <= m < k ==> look[m].Some?
      invariant first.Some? ==> first.value < k && look[first.value] == Some(true)
      invariant forall m :: 0 <= m < (if first.Some? then first.value else k) ==> look[m] == Some(false)
    {
      if look[k].None? {
        return first, k;
      }
      if look[k].value && first.None? {
        first := Some(k);
      }
    }
    return first, |look|;
  }

  // ── the rejoin scan ──

  /** Sample `j` spoils a rejoin at `k`: lethal, within the clear distance, and reached before the raster ends. */
  ghost predicate Spoils(arc: seq<real>, look: seq<Look>, clear: real, k: int, j: int)
    requires |arc| == |look|
  {
    0 <= k < j < |arc| && arc[j] - arc[k] <= clear && look[j] == Some(true) && forall m :: k < m < j ==> look[m].Some?
  }

  /** A rejoin point: clear, and followed by enough clear path, or by the end of the path or raster. */
  ghost predicate Rejoins(arc: seq<real>, look: seq<Look>, clear: real, k: int)
    requires |arc| == |look|
  {
    0 <= k < |arc| && look[k] == Some(false) && forall j :: !Spoils(arc, look, clear, k, j)
  }

  /** The path is on the raster from after `i0` through `k`. */
  ghost predicate OnRaster(look: seq<Look>, i0: int, k: int) {
    forall m :: i0 < m <= k && 0 <= m < |look| ==> look[m].Some?
  }

  /** What the plain scan, sample by sample, would answer. */
  ghost predicate IsFirstRejoin(arc: seq<real>, look: seq<Look>, i0: nat, clear: real, r: Option<nat>)
    requires |arc| == |look|
  {
    if r.Some? then
      r.value > i0 && Rejoins(arc, look, clear, r.value) && OnRaster(look, i0, r.value)
      && forall k :: i0 < k < r.value ==> !Rejoins(arc, look, clear, k)
    else
      forall k :: i0 < k < |arc| && OnRaster(look, i0, k) ==> !Rejoins(arc, look, clear, k)
  }

  /** What spoils `k` spoils every sample between `k` and itself too: the scan may jump past it. */
  lemma SpoilsBetween(arc: seq<real>, look: seq<Look>, clear: real, k: int, j: int)
    requires |arc| == |look| && NonDecreasing(arc) && Spoils(arc, look, clear, k, j)
    ensures forall m :: k <= m <= j ==> !Rejoins(arc, look, clear, m)
  {
    forall m | k <= m <= j ensures !Rejoins(arc, look, clear, m) {
      if m < j {
        assert arc[k] <= arc[m];
        assert Spoils(arc, look, clear, m, j);
      }
    }
  }

  /** The inner loop: how far the path after `k` stays clear; the obstruction found, if any. */
  method ClearAfter(arc: seq<real>, look: seq<Look>, k: nat, clear: real) returns (ok: bool, j: nat)
    requires |arc| == |look| && k < |arc| && NonDecreasing(arc) && look[k] == Some(false)
    ensures k <= j < |arc|
    ensures ok ==> Rejoins(arc, look, clear, k)
    ensures !ok ==> Spoils(arc, look, clear, k, j)
  {
    j := k;
    while j + 1 < |arc| && arc[j + 1] - arc[k] <= clear
      invariant k <= j < |arc|
      invariant forall m :: k <= m <= j ==> look[m] == Some(false)
    {
      j := j + 1;
      if look[j].None? {
        return true, j;
      }
      if look[j].value {
        return false, j;
      }
    }
    assert j + 1 < |arc| ==> forall m :: j < m < |arc| ==> arc[j + 1] <= arc[m];
    assert forall m :: !Spoils(arc, look, clear, k, m);
    return true, j;
  }

  /**
   `rejoin_index`: although it jumps past every sample before a found
   obstruction, it answers as the plain scan does.
   */
  method RejoinIndex(arc: seq<real>, look: seq<Look>, i0: nat, clear: real) returns (r: Option<nat>)
    requires |arc| == |look| && NonDecreasing(arc)
    ensures IsFirstRejoin(arc, look, i0, clear, r)
  {
    var k := i0 + 1;
    while k < |arc|
      invariant k > i0
      invariant forall m :: i0 < m < k && m < |arc| ==> look[m].Some? && !Rejoins(arc, look, clear, m)
    {
      if look[k].None? {
        return None;
      }
      if !look[k].value {
        var ok, j := ClearAfter(arc, look, k, clear);
        if ok {
          return Some(k);
        }
        SpoilsBetween(arc, look, clear, k, j);
        k := j + 1;
      } else {
        k := k + 1;
      }
    }
    return None;
  }
}
