/** One cell of the depth memory of body/lib/depth_memory.py, and what its whole history of frames makes of it. */
module DepthEvidence {
  import opened Numbers
  import opened Options

  /** `_CellState` */
  datatype CellState = CellState(hitStreak: nat, freeStreak: nat, confirmed: bool, lastHitTs: real)

  /**
   What befalls a cell: an integrated frame with enough obstacle points in it,
   one that shows floor there, one that shows neither, or being dropped by age,
   distance, crowding or a reset.
   */
  datatype Signal = Hit(ts: real) | Free | Silent | Dropped

  /** How many consecutive frames confirm a cell, and how many clear it. */
  datatype Frames = Frames(confirm: int, clear: int) {
    function Confirm(): (n: nat)
      ensures n == Max(1, confirm)
    {
      if confirm < 1 then 1 else confirm
    }

    function Clear(): (n: nat)
      ensures n == Max(1, clear)
    {
      if clear < 1 then 1 else clear
    }
  }

  const FRESH := CellState(0, 0, false, 0.0)

  /** One signal's effect on a cell that is known or not. */
  function Next(f: Frames, st: Option<CellState>, s: Signal): Option<CellState> {
    match s
    case Hit(ts) =>
      var old_ := if st.Some? then st.value else FRESH;
      var streak := old_.hitStreak + 1;
      if streak >= f.Confirm() then Some(CellState(streak, 0, true, ts))
      else Some(old_.(hitStreak := streak, freeStreak := 0))
    case Dropped => None
    case Free =>
      if st.None? || !st.value.confirmed || st.value.freeStreak + 1 >= f.Clear() then None
      else Some(st.value.(hitStreak := 0, freeStreak := st.value.freeStreak + 1))
    case Silent =>
      if st.None? || !st.value.confirmed then None else Some(st.value.(hitStreak := 0, freeStreak := 0))
  }

  /** A cell after its whole history, oldest signal first. */
  function After(f: Frames, h: seq<Signal>): Option<CellState> {
    if h == [] then None else Next(f, After(f, h[..|h| - 1]), h[|h| - 1])
  }

  predicate Known(st: Option<CellState>) {
    st.Some? && st.value.confirmed
  }

  // ── the history, read without any state ──

  predicate AllHit(h: seq<Signal>, i: int, n: nat) {
    0 <= i && i + n <= |h| && forall j :: i <= j < i + n ==> h[j].Hit?
  }

  predicate AllFree(h: seq<Signal>, i: int, n: nat) {
    0 <= i && i + n <= |h| && forall j :: i <= j < i + n ==> h[j].Free?
  }

  /** Confirmed from signal `i` on, and neither cleared nor dropped since. */
  ghost predicate Standing(f: Frames, h: seq<Signal>, i: nat) {
    && AllHit(h, i, f.Confirm())
    && (forall j :: i <= j < |h| ==> !h[j].Dropped?)
    && (forall j :: i + f.Confirm() <= j ==> !AllFree(h, j, f.Clear()))
  }

  /** Enough consecutive hits since the last drop, and not enough consecutive floor since those hits. */
  ghost predicate Remembered(f: Frames, h: seq<Signal>) {
    exists i: nat :: Standing(f, h, i)
  }

  function TrailingHits(h: seq<Signal>): nat {
    if h == [] || !h[|h| - 1].Hit? then 0 else TrailingHits(h[..|h| - 1]) + 1
  }

  function TrailingFree(h: seq<Signal>): nat {
    if h == [] || !h[|h| - 1].Free? then 0 else TrailingFree(h[..|h| - 1]) + 1
  }

  lemma {:induction false} TrailingHitsMean(h: seq<Signal>, n: nat)
    ensures TrailingHits(h) >= n <==> AllHit(h, |h| - n, n)
    ensures TrailingHits(h) <= |h|
  {
    if h != [] {
      var front := h[..|h| - 1];
      TrailingHitsMean(front, if n == 0 then 0 else n - 1);
      if n > 0 && AllHit(h, |h| - n, n) {
        assert h[|h| - 1].Hit?;
        assert AllHit(front, |front| - (n - 1), n - 1);
      }
    }
  }

  lemma {:induction false} TrailingFreeMean(h: seq<Signal>, n: nat)
    ensures TrailingFree(h) >= n <==> AllFree(h, |h| - n, n)
    ensures TrailingFree(h) <= |h|
  {
    if h != [] {
      var front := h[..|h| - 1];
      TrailingFreeMean(front, if n == 0 then 0 else n - 1);
      if n > 0 && AllFree(h, |h| - n, n) {
        assert h[|h| - 1].Free?;
        assert AllFree(front, |front| - (n - 1), n - 1);
      }
    }
  }

  /** The stored streaks are the runs the history ends in. */
  lemma {:induction false} StreaksAreTrailing(f: Frames, h: seq<Signal>)
    ensures var st := After(f, h);
      && TrailingHits(h) == (if st.Some? then st.value.hitStreak else 0)
      && (st.Some? ==> TrailingFree(h) == st.value.freeStreak)
      && (st.Some? && !st.value.confirmed ==> h != [] && h[|h| - 1].Hit?)
  {
    if h != [] {
      StreaksAreTrailing(f, h[..|h| - 1]);
    }
  }

  /** A window that stands over a longer history stands over the shorter one. */
  lemma StandsBefore(f: Frames, h: seq<Signal>, s: Signal, i: nat)
    requires Standing(f, h + [s], i) && i + f.Confirm() <= |h|
    ensures Standing(f, h, i)
  {
    var h' := h + [s];
    assert forall j :: 0 <= j < |h| ==> h'[j] == h[j];
    forall j | i + f.Confirm() <= j ensures !AllFree(h, j, f.Clear()) {
      assert AllFree(h, j, f.Clear()) ==> AllFree(h', j, f.Clear());
    }
  }

  /** It stands on unless the new signal drops the cell or completes a run of floor. */
  lemma StandsOn(f: Frames, h: seq<Signal>, s: Signal, i: nat)
    requires Standing(f, h, i) && !s.Dropped?
    requires TrailingFree(h + [s]) < f.Clear()
    ensures Standing(f, h + [s], i)
  {
    var h' := h + [s];
    assert forall j :: 0 <= j < |h| ==> h'[j] == h[j];
    TrailingFreeMean(h', f.Clear());
    forall j | i + f.Confirm() <= j ensures !AllFree(h', j, f.Clear()) {
      assert j + f.Clear() <= |h| && AllFree(h', j, f.Clear()) ==> AllFree(h, j, f.Clear());
    }
  }

  lemma FreshRunStands(f: Frames, h: seq<Signal>)
    requires TrailingHits(h) >= f.Confirm()
    ensures |h| >= f.Confirm() && Standing(f, h, |h| - f.Confirm())
  {
    TrailingHitsMean(h, f.Confirm());
  }

  /** A completed run of floor ends any standing window. */
  lemma FloorEndsIt(f: Frames, h: seq<Signal>, i: nat)
    requires Standing(f, h, i)
    ensures TrailingFree(h) < f.Clear()
  {
    assert h[i + f.Confirm() - 1].Hit?;
    TrailingFreeMean(h, f.Clear());
  }

  lemma ForgottenStays(f: Frames, h: seq<Signal>, s: Signal, i: nat)
    requires Standing(f, h + [s], i)
    ensures !s.Dropped? && TrailingFree(h + [s]) < f.Clear()
    ensures i + f.Confirm() <= |h| || TrailingHits(h + [s]) >= f.Confirm()
  {
    var h' := h + [s];
    FloorEndsIt(f, h', i);
    assert h'[|h|] == s;
    if i + f.Confirm() == |h'| {
      TrailingHitsMean(h', f.Confirm());
    }
  }

  lemma NothingStands(f: Frames)
    ensures !Remembered(f, [])
  {
  }

  /**
   The stored flag says exactly what the history says: a cell is remembered if
   and only if enough consecutive frames hit it since it was last dropped and no
   run of floor long enough came after them.
   */
  lemma {:induction false} RememberedIff(f: Frames, h: seq<Signal>)
    ensures Known(After(f, h)) <==> Remembered(f, h)
    decreases |h|
  {
    if h != [] {
      hide Standing;
      var front, s := h[..|h| - 1], h[|h| - 1];
      assert h == front + [s];
      RememberedIff(f, front);
      StreaksAreTrailing(f, h);
      StreaksAreTrailing(f, front);
      if Remembered(f, h) {
        var i: nat :| Standing(f, h, i);
        ForgottenStays(f, front, s, i);
        if i + f.Confirm() <= |front| {
          StandsBefore(f, front, s, i);
        }
      }
      if Known(After(f, h)) {
        if TrailingHits(h) >= f.Confirm() {
          FreshRunStands(f, h);
        } else {
          var i: nat :| Standing(f, front, i);
          StandsOn(f, front, s, i);
        }
      }
    } else {
      NothingStands(f);
    }
  }

  /** A frame that forgets a cell completes a run of clear frames; one that says nothing about it never forgets it. */
  lemma ForgettingNeedsFloor(f: Frames, h: seq<Signal>, s: Signal)
    requires Known(After(f, h)) && !Known(After(f, h + [s])) && !s.Dropped?
    ensures AllFree(h + [s], |h| + 1 - f.Clear(), f.Clear())
  {
    assert (h + [s])[..|h|] == h;
    StreaksAreTrailing(f, h);
    TrailingFreeMean(h + [s], f.Clear());
  }

  /** When the history last completed, or went on with, a confirming run. */
  function LastConfirming(f: Frames, h: seq<Signal>): Option<real> {
    if h == [] then None
    else if TrailingHits(h) >= f.Confirm() then
      assert h[|h| - 1].Hit?;
      Some(h[|h| - 1].ts)
    else LastConfirming(f, h[..|h| - 1])
  }

  /** Age is counted from the last confirming frame, not from the last hit. */
  lemma {:induction false} AgeFromLastConfirming(f: Frames, h: seq<Signal>)
    requires Known(After(f, h))
    ensures Some(After(f, h).value.lastHitTs) == LastConfirming(f, h)
    decreases |h|
  {
    var front := h[..|h| - 1];
    StreaksAreTrailing(f, h);
    StreaksAreTrailing(f, front);
    if TrailingHits(h) < f.Confirm() {
      AgeFromLastConfirming(f, front);
    }
  }
}
