/** The pure steering pieces of body/lib/local_drive_core.py and body/lib/tier3_controller.py. */
module Steering {
  import opened Numbers
  import opened Options

  const PI: real := 3.141592653589793

  datatype Params = Params(vMax: real, omegaMax: real, vMin: real, rotateEnter: real, rotateExit: real,
                           kOmega: real, slowdown: real, headingTol: real)

  /** `_clip` */
  function Clip(x: real, lo: real, hi: real): real {
    if x < lo then lo else if x > hi then hi else x
  }

  /** `goal_params`: per-goal caps can only slow the robot. */
  function GoalParams(base: Params, vCap: Option<real>, omegaCap: Option<real>): Params {
    var v := if vCap.Some? then MaxReal(base.vMin, MinReal(base.vMax, vCap.value)) else base.vMax;
    var w := if omegaCap.Some? && omegaCap.value > 0.0 then MinReal(base.omegaMax, omegaCap.value) else base.omegaMax;
    base.(vMax := v, omegaMax := w)
  }

  function SlowFactor(dist: real, p: Params): (f: real)
    ensures 0.0 <= f <= 1.0
  {
    Clip(dist / MaxReal(p.slowdown, 0.000001), 0.0, 1.0)
  }

  /** Cruise speed, slowed near the point. */
  function Cruise(dist: real, p: Params): real {
    p.vMax * SlowFactor(dist, p)
  }

  /** `steer_to_body_point` from the distance and bearing of the point: speed, turn rate, rotate-in-place next. */
  function Steer(dist: real, bearing: real, p: Params, rotating: bool): (real, real, bool) {
    var omega := Clip(p.kOmega * bearing, -p.omegaMax, p.omegaMax);
    if AbsReal(bearing) > (if rotating then p.rotateExit else p.rotateEnter) then (0.0, omega, true)
    else
      var v := Cruise(dist, p);
      (if 0.0 < v < p.vMin then p.vMin else v, omega, false)
  }

  /** `rotate_to_heading` from the wrapped heading error: turn rate, aligned. */
  function RotateToHeading(err: real, p: Params): (real, bool) {
    if AbsReal(err) <= p.headingTol then (0.0, true)
    else ((if err >= 0.0 then 1.0 else -1.0) * MinReal(p.omegaMax, p.kOmega * AbsReal(err)), false)
  }

  /** How fast a latched turn goes, by the angle still to turn. */
  function LatchRate(err: real, p: Params, minOmega: real): real {
    MinReal(p.omegaMax, MaxReal(p.kOmega * err, minOmega))
  }

  /** In proportion to the angle, at least the minimum, and at most the limit. */
  lemma LatchRateIs(err: real, p: Params, minOmega: real)
    ensures LatchRate(err, p, minOmega) <= p.omegaMax
    ensures minOmega <= p.omegaMax ==> LatchRate(err, p, minOmega) >= minOmega
    ensures minOmega <= p.kOmega * err <= p.omegaMax ==> LatchRate(err, p, minOmega) == p.kOmega * err
  {
  }

  /** `latched_rotate_omega`: turn rate and the new latched direction. */
  function LatchedRotate(bearing: real, latch: int, p: Params, flipBand: real, minOmega: real): (real, int) {
    var sign := if bearing >= 0.0 then 1 else -1;
    var (d, err) :=
      if latch == 0 || sign == latch then (sign, AbsReal(bearing))
      else if AbsReal(bearing) > PI - flipBand then (latch, 2.0 * PI - AbsReal(bearing))
      else (sign, AbsReal(bearing));
    ((d as real) * LatchRate(err, p, minOmega), d)
  }

  /** `swept_block_response`: the turn rate of a re-aim, or None to block. */
  function SweptResponse(bearing: real, elapsed: real, thresh: real, timeout: real, p: Params): Option<real> {
    if AbsReal(bearing) > thresh && elapsed <= timeout then Some(Clip(p.kOmega * bearing, -p.omegaMax, p.omegaMax)) else None
  }

  /** The turn rate that follows the curvature `k` at speed `v`, as far as the limit allows. */
  function Arc(v: real, k: real, p: Params): real {
    Clip(v * k, -p.omegaMax, p.omegaMax)
  }

  /** The turn rate of the same arc at the speed `vmin`. */
  function SlowerTurn(v: real, omega: real, vmin: real, p: Params): real
    requires v != 0.0
  {
    Clip(omega * vmin / v, -p.omegaMax, p.omegaMax)
  }

  /** `_candidates`, from the curvatures of the lookahead and of the half lookahead (None: not ahead). */
  function Candidates(v: real, omega: real, k1: Option<real>, k2: Option<real>, p: Params): seq<(real, real)> {
    var vmin := MinReal(v, p.vMin);
    var slow := vmin < v - 0.000001;
    [(v, omega)]
    + (if k1.Some? then [(v, Arc(v, k1.value, p))]
                        + (if slow then [(vmin, Arc(vmin, k1.value, p))] else [])
       else if slow && v != 0.0 then [(vmin, SlowerTurn(v, omega, vmin, p))] else [])
    + (if k2.Some? then [(vmin, Arc(vmin, k2.value, p))] else [])
  }

  /** The first candidate the swept veto lets through. */
  function Pick(cands: seq<(real, real)>, veto: (real, real) -> bool): Option<(real, real)> {
    if cands == [] then None
    else if !veto(cands[0].0, cands[0].1) then Some(cands[0])
    else Pick(cands[1..], veto)
  }

  /** A parameter set that can drive: non-negative speeds, gains and limits, and a cruise speed above the minimum. */
  predicate Sane(p: Params) {
    0.0 <= p.vMin <= p.vMax && p.omegaMax >= 0.0 && p.kOmega >= 0.0
  }

  /** Capped parameters are sane again and never faster than the configured ones. */
  lemma CapsOnlySlow(base: Params, vCap: Option<real>, omegaCap: Option<real>)
    requires Sane(base)
    ensures var p := GoalParams(base, vCap, omegaCap);
            Sane(p) && p.vMax <= base.vMax && p.omegaMax <= base.omegaMax && p.vMin == base.vMin
  {
  }

  /** Without a cap the configured limits stand; a cap within their range is the limit, but never below the minimum speed. */
  lemma CapsAre(base: Params, vCap: Option<real>, omegaCap: Option<real>)
    requires Sane(base)
    ensures var p := GoalParams(base, vCap, omegaCap);
      && p == base.(vMax := p.vMax, omegaMax := p.omegaMax)
      && (vCap.None? ==> p.vMax == base.vMax)
      && (vCap.Some? ==> (base.vMin <= vCap.value <= base.vMax ==> p.vMax == vCap.value)
                         && (vCap.value < base.vMin ==> p.vMax == base.vMin) && (vCap.value > base.vMax ==> p.vMax == base.vMax))
      && (omegaCap.None? || omegaCap.value <= 0.0 || omegaCap.value >= base.omegaMax ==> p.omegaMax == base.omegaMax)
      && (omegaCap.Some? && 0.0 < omegaCap.value <= base.omegaMax ==> p.omegaMax == omegaCap.value)
  {
  }

  lemma CruiseBounds(dist: real, p: Params)
    requires p.vMax >= 0.0
    ensures 0.0 <= Cruise(dist, p) <= p.vMax
  {
    hide SlowFactor;
    ScaleUnit(p.vMax, SlowFactor(dist, p));
  }

  lemma SteerBounds(dist: real, bearing: real, p: Params, rotating: bool)
    requires Sane(p)
    ensures var (v, omega, next) := Steer(dist, bearing, p, rotating);
            0.0 <= v <= p.vMax && AbsReal(omega) <= p.omegaMax && (next ==> v == 0.0)
  {
    CruiseBounds(dist, p);
    hide Cruise;
  }

  lemma NonNegProduct(x: real, y: real)
    requires x >= 0.0 && y >= 0.0
    ensures x * y >= 0.0
  {
  }

  /** A turn towards `angle`: the way it points, in proportion to it, as far as the limit allows. */
  predicate TurnsTo(omega: real, angle: real, p: Params) {
    && (omega > 0.0 ==> angle > 0.0) && (omega < 0.0 ==> angle < 0.0)
    && AbsReal(omega) == MinReal(p.omegaMax, p.kOmega * AbsReal(angle))
  }

  lemma ClippedGain(angle: real, p: Params)
    requires Sane(p)
    ensures TurnsTo(Clip(p.kOmega * angle, -p.omegaMax, p.omegaMax), angle, p)
  {
    if angle >= 0.0 {
      NonNegProduct(p.kOmega, angle);
    } else {
      NonNegProduct(p.kOmega, -angle);
      assert p.kOmega * -angle == -(p.kOmega * angle);
    }
  }

  lemma ResponseTurns(bearing: real, elapsed: real, thresh: real, timeout: real, p: Params)
    requires Sane(p)
    ensures var w := SweptResponse(bearing, elapsed, thresh, timeout, p); w.Some? ==> TurnsTo(w.value, bearing, p)
  {
    ClippedGain(bearing, p);
    hide TurnsTo;
  }

  /** Full speed from the slowdown distance on, in proportion to the distance before it. */
  lemma CruiseIs(dist: real, p: Params)
    requires p.slowdown >= 0.000001 && dist >= 0.0
    ensures Cruise(dist, p) * p.slowdown == p.vMax * MinReal(dist, p.slowdown)
  {
    assert (dist / p.slowdown) * p.slowdown == dist;
    assert dist / p.slowdown >= 0.0;
    TimesMonotone(dist / p.slowdown, 1.0, p.slowdown);
    var f := SlowFactor(dist, p);
    assert f * p.slowdown == MinReal(dist, p.slowdown);
    assert (p.vMax * f) * p.slowdown == p.vMax * (f * p.slowdown);
  }

  /**
   Steering turns towards the point; it turns in place exactly while the bearing is
   above a threshold, a lower one once it has begun, and otherwise drives at the
   cruise speed, short of nothing at least at the minimum.
   */
  lemma SteersTo(dist: real, bearing: real, p: Params, rotating: bool)
    requires Sane(p)
    ensures var (v, omega, next) := Steer(dist, bearing, p, rotating);
      && TurnsTo(omega, bearing, p)
      && (next <==> AbsReal(bearing) > (if rotating then p.rotateExit else p.rotateEnter))
      && (!next ==> v == if Cruise(dist, p) == 0.0 then 0.0 else MaxReal(p.vMin, Cruise(dist, p)))
  {
    ClippedGain(bearing, p);
    CruiseBounds(dist, p);
    hide Cruise, Clip;
  }

  /** The final turn: towards the heading until within the tolerance. */
  lemma RotatesTo(err: real, p: Params)
    requires Sane(p) && p.headingTol >= 0.0
    ensures var (omega, aligned) := RotateToHeading(err, p);
      (aligned <==> AbsReal(err) <= p.headingTol) && (if aligned then omega == 0.0 else TurnsTo(omega, err, p))
  {
    NonNegProduct(p.kOmega, AbsReal(err));
  }

  /** The latched direction turns the way it says, within the limit, and is given up only clear of the flip band. */
  lemma LatchHolds(bearing: real, latch: int, p: Params, flipBand: real, minOmega: real)
    requires Sane(p) && latch in {-1, 0, 1} && -PI <= bearing <= PI && minOmega >= 0.0
    ensures var (omega, d) := LatchedRotate(bearing, latch, p, flipBand, minOmega);
            && (d == 1 || d == -1) && AbsReal(omega) <= p.omegaMax && (d == 1 ==> omega >= 0.0) && (d == -1 ==> omega <= 0.0)
            && (latch != 0 && d != latch ==> AbsReal(bearing) <= PI - flipBand)
  {
    var err := if latch == 0 || (if bearing >= 0.0 then 1 else -1) == latch then AbsReal(bearing)
               else if AbsReal(bearing) > PI - flipBand then 2.0 * PI - AbsReal(bearing) else AbsReal(bearing);
    assert err >= 0.0;
    NonNegProduct(p.kOmega, err);
  }

  lemma Signed(d: int, m: real)
    requires (d == 1 || d == -1) && m >= 0.0
    ensures AbsReal((d as real) * m) == m
  {
  }

  /**
   The latched turn: with nothing latched, or clear of the flip band, towards the
   bearing; inside it the way it started. Its rate is that for the angle still to
   turn that way, at least the minimum and at most the limit.
   */
  lemma LatchTurns(bearing: real, latch: int, p: Params, flipBand: real, minOmega: real)
    requires Sane(p) && latch in {-1, 0, 1} && -PI <= bearing <= PI && minOmega >= 0.0
    ensures var (omega, d) := LatchedRotate(bearing, latch, p, flipBand, minOmega);
      var towards := if bearing >= 0.0 then 1 else -1;
      && d == (if latch != 0 && AbsReal(bearing) > PI - flipBand then latch else towards)
      && AbsReal(omega) == LatchRate(if d == towards then AbsReal(bearing) else 2.0 * PI - AbsReal(bearing), p, minOmega)
  {
    var towards := if bearing >= 0.0 then 1 else -1;
    var d := if latch != 0 && AbsReal(bearing) > PI - flipBand then latch else towards;
    var err := if d == towards then AbsReal(bearing) else 2.0 * PI - AbsReal(bearing);
    assert err >= 0.0;
    NonNegProduct(p.kOmega, err);
    Signed(d, LatchRate(err, p, minOmega));
    hide LatchRate;
  }

  lemma ArcIs(v: real, k: real, p: Params)
    requires Sane(p)
    ensures Arc(v, k, p) == MaxReal(-p.omegaMax, MinReal(p.omegaMax, v * k))
  {
  }

  lemma MulDiv(x: real, y: real, z: real)
    requires z != 0.0
    ensures x * y / z == y * (x / z)
  {
    assert (x * y / z) * z == x * y;
    assert (y * (x / z)) * z == y * x;
  }

  lemma SlowerIs(v: real, omega: real, vmin: real, p: Params)
    requires v != 0.0
    ensures SlowerTurn(v, omega, vmin, p) == Arc(vmin, omega / v, p)
  {
    MulDiv(omega, vmin, v);
  }

  /**
   What is tried, in order: the command itself, the arc through the lookahead, the
   same at the minimum speed where that is slower, and the arc through the half
   lookahead at that speed; with no lookahead ahead, the command's own arc, slower.
   */
  lemma CandidatesAre(v: real, omega: real, k1: Option<real>, k2: Option<real>, p: Params)
    ensures var cands, vmin := Candidates(v, omega, k1, k2, p), MinReal(v, p.vMin);
      var slow := if vmin < v - 0.000001 && (k1.Some? || v != 0.0) then 1 else 0;
      var first := if k1.Some? then 1 else 0;
      && cands[0] == (v, omega) && |cands| == 1 + first + slow + (if k2.Some? then 1 else 0)
      && (k1.Some? ==> cands[1] == (v, Arc(v, k1.value, p)))
      && (slow == 1 ==> cands[1 + first] == (vmin, if k1.Some? then Arc(vmin, k1.value, p) else SlowerTurn(v, omega, vmin, p)))
      && (k2.Some? ==> cands[|cands| - 1] == (vmin, Arc(vmin, k2.value, p)))
  {
    hide Clip, Arc, SlowerTurn, MinReal;
  }

  /** Everything on offer is refused. */
  ghost predicate AllRefused(cands: seq<(real, real)>, veto: (real, real) -> bool) {
    forall k :: 0 <= k < |cands| ==> veto(cands[k].0, cands[k].1)
  }

  /** `c` is on offer and not refused, and everything offered before it is. */
  ghost predicate FirstLet(cands: seq<(real, real)>, veto: (real, real) -> bool, c: (real, real)) {
    exists k :: 0 <= k < |cands| && cands[k] == c && !veto(c.0, c.1) && AllRefused(cands[..k], veto)
  }

  lemma {:induction false} PickIsFirst(cands: seq<(real, real)>, veto: (real, real) -> bool)
    ensures Pick(cands, veto).None? <==> AllRefused(cands, veto)
    ensures Pick(cands, veto).Some? ==> FirstLet(cands, veto, Pick(cands, veto).value)
  {
    if cands == [] {
    } else if !veto(cands[0].0, cands[0].1) {
      assert AllRefused(cands[..0], veto);
      assert FirstLet(cands, veto, cands[0]);
    } else {
      PickIsFirst(cands[1..], veto);
      var p := Pick(cands[1..], veto);
      if p.Some? {
        var k :| 0 <= k < |cands[1..]| && cands[1..][k] == p.value && AllRefused(cands[1..][..k], veto);
        assert cands[..k + 1] == [cands[0]] + cands[1..][..k];
        assert AllRefused(cands[..k + 1], veto);
        assert cands[k + 1] == p.value;
      } else {
        assert cands == [cands[0]] + cands[1..];
      }
    }
  }

  /** Every retry stays within the speed it replaces and the turn limit. */
  lemma CandidateBounds(v: real, omega: real, k1: Option<real>, k2: Option<real>, p: Params, c: (real, real))
    requires Sane(p) && v >= 0.0 && AbsReal(omega) <= p.omegaMax && c in Candidates(v, omega, k1, k2, p)
    ensures 0.0 <= c.0 <= v && AbsReal(c.1) <= p.omegaMax
  {
  }
}
