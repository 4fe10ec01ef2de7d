/** `_downsample` of body/lib/local_planner.py, and what it leaves of a path's clearance. */
module Downsampling {
  import opened Grid
  import opened Numbers
  import opened Clearance
  import opened Chords

  /** `cells[::step]` */
  function Stride(cells: seq<Cell>, step: nat): seq<Cell>
    requires step > 0
  {
    if cells == [] then [] else [cells[0]] + (if |cells| <= step then [] else Stride(cells[step..], step))
  }

  /** `_downsample` */
  function Downsample(cells: seq<Cell>, step: int): seq<Cell> {
    if step <= 1 || |cells| <= 2 then cells
    else
      var out := Stride(cells, step);
      if out[|out| - 1] != cells[|cells| - 1] then out + [cells[|cells| - 1]] else out
  }

  lemma {:induction false} StrideKeeps(cells: seq<Cell>, step: nat)
    requires step > 0 && cells != []
    ensures Stride(cells, step) != [] && Stride(cells, step)[0] == cells[0]
    ensures forall c :: c in Stride(cells, step) ==> c in cells
  {
    if |cells| > step {
      StrideKeeps(cells[step..], step);
    }
  }

  /** The downsampled path keeps both ends and visits only cells of the path. */
  lemma DownsampleKeeps(cells: seq<Cell>, step: int)
    requires cells != []
    ensures var out := Downsample(cells, step);
            out != [] && out[0] == cells[0] && out[|out| - 1] == cells[|cells| - 1] && forall c :: c in out ==> c in cells
  {
    if step > 1 {
      StrideKeeps(cells, step);
    }
  }

  predicate Gap(cells: seq<Cell>, step: nat, a: Cell, b: Cell, i: nat, j: nat) {
    i < j <= i + step && j < |cells| && cells[i] == a && cells[j] == b
  }

  /** The next kept cell is at most `step` moves on. */
  ghost predicate NextKept(cells: seq<Cell>, step: nat, a: Cell, b: Cell) {
    exists i: nat, j: nat :: Gap(cells, step, a, b, i, j)
  }

  lemma {:induction false} StrideGaps(cells: seq<Cell>, step: nat, k: nat)
    requires step > 0 && 0 < k < |Stride(cells, step)|
    ensures NextKept(cells, step, Stride(cells, step)[k - 1], Stride(cells, step)[k])
    decreases |cells|
  {
    var rest := cells[step..];
    if k == 1 {
      assert Gap(cells, step, cells[0], rest[0], 0, step);
    } else {
      StrideGaps(rest, step, k - 1);
      var i: nat, j: nat :| Gap(rest, step, Stride(rest, step)[k - 2], Stride(rest, step)[k - 1], i, j);
      assert Gap(cells, step, Stride(cells, step)[k - 1], Stride(cells, step)[k], i + step, j + step);
    }
  }

  lemma {:induction false} StrideLast(cells: seq<Cell>, step: nat) returns (i: nat)
    requires step > 0 && cells != []
    ensures i < |cells| <= i + step && Stride(cells, step) != []
    ensures Stride(cells, step)[|Stride(cells, step)| - 1] == cells[i]
    decreases |cells|
  {
    if |cells| <= step {
      i := 0;
    } else {
      var j := StrideLast(cells[step..], step);
      i := j + step;
    }
  }

  lemma DownsampleGaps(cells: seq<Cell>, step: nat, k: nat)
    requires step >= 2 && 0 < k < |Downsample(cells, step)|
    ensures NextKept(cells, step, Downsample(cells, step)[k - 1], Downsample(cells, step)[k])
  {
    var out, all := Downsample(cells, step), Stride(cells, step);
    if |cells| <= 2 {
      assert Gap(cells, step, out[k - 1], out[k], k - 1, k);
    } else if k < |all| {
      StrideGaps(cells, step, k);
    } else {
      var i := StrideLast(cells, step);
      assert Gap(cells, step, out[k - 1], out[k], i, |cells| - 1);
    }
  }

  // ── the same in offsets from a hit ──

  function Offset(c: Cell, o: Cell): Cell {
    Cell(c.i - o.i, c.j - o.j)
  }

  function Offsets(cells: seq<Cell>, o: Cell): seq<Cell> {
    seq(|cells|, k requires 0 <= k < |cells| => Offset(cells[k], o))
  }

  lemma {:induction false} StrideOffsets(cells: seq<Cell>, o: Cell, step: nat)
    requires step > 0
    ensures Stride(Offsets(cells, o), step) == Offsets(Stride(cells, step), o)
    decreases |cells|
  {
    if |cells| > step {
      assert Offsets(cells, o)[step..] == Offsets(cells[step..], o);
      StrideOffsets(cells[step..], o, step);
    }
  }

  /** Downsampling the offsets is offsetting the downsampled path. */
  lemma DownsampleOffsets(cells: seq<Cell>, o: Cell, step: int)
    ensures Downsample(Offsets(cells, o), step) == Offsets(Downsample(cells, step), o)
  {
    if step > 1 && |cells| > 2 {
      StrideOffsets(cells, o, step);
      StrideKeeps(cells, step);
      var out := Stride(cells, step);
      assert Offsets(out, o)[|out| - 1] == Offset(out[|out| - 1], o);
      assert Offsets(out + [cells[|cells| - 1]], o) == Offsets(out, o) + [Offset(cells[|cells| - 1], o)];
    }
  }

  // ── for which radius and step the clearance carries over ──

  /** A path of king's moves, every cell at least `m` square cells from the hit. */
  ghost predicate CellsFar(m: int, cells: seq<Cell>) {
    && (forall k :: 0 <= k < |cells| ==> Far(cells[k]) >= m)
    && (forall k :: 0 < k < |cells| ==> Adjacent(cells[k - 1], cells[k]))
  }

  lemma FewerNeeded(m: int, n: int, cells: seq<Cell>)
    requires CellsFar(m, cells) && n <= m
    ensures CellsFar(n, cells)
  {
    hide Far, Adjacent;
  }

  lemma Walk(m: int, cells: seq<Cell>, i: nat)
    requires CellsFar(m, cells) && i + 1 < |cells|
    ensures Far(cells[i]) >= m && Far(cells[i + 1]) >= m && Adjacent(cells[i], cells[i + 1])
  {
    hide Far, Adjacent;
    assert Adjacent(cells[i + 1 - 1], cells[i + 1]);
  }

  /** What a step leaves of `m` square cells. */
  function Left(m: int, step: int): real {
    if step <= 1 then m as real - 0.5 else if step == 2 then m as real - 1.25 else Left3(m)
  }

  /** Between two cells one, two or three moves of the path apart. */
  lemma GapPoint(m: int, cells: seq<Cell>, step: nat, a: Cell, b: Cell, i: nat, j: nat, t: real)
    requires CellsFar(m, cells) && Gap(cells, step, a, b, i, j) && 0.0 <= t <= 1.0 && step <= 3
    ensures PointSquare(a, b, t) >= Left(m, step)
  {
    hide Far, Adjacent, CellsFar, PointSquare;
    Walk(m, cells, i);
    PointNonNegative(a, b, t);
    if j == i + 1 {
      UnitPoint(a, b, t, m);
    } else {
      Walk(m, cells, i + 1);
      if j == i + 2 {
        TwoMoves(a, cells[i + 1], b, t, m);
      } else {
        Walk(m, cells, i + 2);
        ThreeMoves(a, cells[i + 1], cells[i + 2], b, t, m);
      }
    }
  }

  /** On a chord of the downsampled path. */
  lemma KeptPoint(m: int, cells: seq<Cell>, step: int, k: nat, t: real)
    requires CellsFar(m, cells) && 0 < k < |Downsample(cells, step)| && 0.0 <= t <= 1.0 && step <= 3
    ensures PointSquare(Downsample(cells, step)[k - 1], Downsample(cells, step)[k], t) >= Left(m, step)
  {
    hide CellsFar, PointSquare;
    var out := Downsample(cells, step);
    if step <= 1 {
      assert Gap(cells, 1, out[k - 1], out[k], k - 1, k);
      GapPoint(m, cells, 1, out[k - 1], out[k], k - 1, k, t);
    } else {
      DownsampleGaps(cells, step, k);
      var i: nat, j: nat :| Gap(cells, step, out[k - 1], out[k], i, j);
      GapPoint(m, cells, step, out[k - 1], out[k], i, j, t);
    }
  }

  /** The least whole number of square cells outside the padded radius. */
  function Need(phi: real): int {
    -((-Square(phi + PAD)).Floor)
  }

  lemma NeedIs(phi: real, n: int)
    ensures n as real >= Square(phi + PAD) <==> n >= Need(phi)
  {
    hide Square;
  }

  predicate PointClear(phi: real, points: seq<Cell>, k: int, t: real)
    requires 0 < k < |points|
  {
    PointSquare(points[k - 1], points[k], t) >= Square(phi)
  }

  /** No point of the polyline through these offsets is inside the bare radius. */
  ghost predicate ChordsClear(phi: real, points: seq<Cell>) {
    forall k, t :: 0 < k < |points| && 0.0 <= t <= 1.0 ==> PointClear(phi, points, k, t)
  }

  /**
   At a footprint of `phi` cells, wherever the hit, the downsampled polyline keeps
   the clearance of every path whose cells are outside the padded radius.
   */
  ghost predicate KeepsAt(phi: real, step: int) {
    forall cells :: CellsFar(Need(phi), cells) ==> ChordsClear(phi, Downsample(cells, step))
  }

  lemma SquareOfSum(x: real, y: real)
    ensures Square(x + y) == Square(x) + 2.0 * (x * y) + Square(y)
  {
  }

  lemma Spare2(phi: real, m: int)
    requires phi > 1.0 - PAD && m as real >= Square(phi + PAD)
    ensures m as real - 1.25 >= Square(phi)
  {
    PadValue();
    StrictSquare(1.0, phi + PAD);
    SquareOfSum(phi, PAD);
    ProductLower(PAD, PAD, 0.7, 0.7);
    if phi >= 0.6 {
      ProductLower(phi, PAD, 0.6, 0.7071);
    } else {
      ProductLower(0.6, 0.6, phi, phi);
    }
  }

  /** The radii at which three moves at a time keep the clearance. */
  predicate Roomy(phi: real) {
    phi > 1.0 - PAD && (Square(phi) <= 0.4 || Square(phi + PAD) > 2.0)
  }

  lemma SpareWide(phi: real, m: int)
    requires phi > 1.0 - PAD && m as real >= Square(phi) + 2.0 * (phi * PAD) + Square(PAD) && m >= 3 && Square(PAD) >= 0.49
    requires phi + PAD > 2.0 ==> m >= 5
    ensures Left3(m) >= Square(phi)
  {
    PadValue();
    if phi >= 1.95 {
      ProductLower(phi, PAD, 1.95, 0.7071);
      ProductLower(phi, phi, 1.95, 1.95);
    } else if phi >= 1.55 {
      ProductLower(1.95, 1.95, phi, phi);
      ProductLower(phi, PAD, 1.55, 0.7071);
      ProductLower(phi, phi, 1.55, 1.55);
    } else if phi > 2.0 - PAD {
      ProductLower(1.55, 1.55, phi, phi);
    } else {
      ProductLower(1.3, 1.3, phi, phi);
    }
  }

  lemma Spare3(phi: real, m: int)
    requires Roomy(phi) && m as real >= Square(phi + PAD)
    ensures Left3(m) >= Square(phi)
  {
    PadValue();
    StrictSquare(1.0, phi + PAD);
    SquareOfSum(phi, PAD);
    ProductLower(PAD, PAD, 0.7, 0.7);
    if Square(phi) > 0.4 {
      if phi + PAD > 2.0 {
        StrictSquare(2.0, phi + PAD);
      }
      SpareWide(phi, m);
    }
  }

  /** What is left at these radii is enough. */
  lemma Enough(phi: real, step: int)
    requires step <= 3 && phi >= 0.0 && (step == 2 ==> phi > 1.0 - PAD) && (step == 3 ==> Roomy(phi))
    ensures Left(Need(phi), step) >= Square(phi)
  {
    NeedIs(phi, Need(phi));
    hide Need;
    if step <= 1 {
      PadSuffices(phi, Need(phi));
    } else if step == 2 {
      Spare2(phi, Need(phi));
    } else {
      Spare3(phi, Need(phi));
    }
  }

  /** Enough is kept on every chord of every path. */
  lemma StepKeeps(phi: real, step: int)
    requires step <= 3 && phi >= 0.0 && (step == 2 ==> phi > 1.0 - PAD) && (step == 3 ==> Roomy(phi))
    ensures KeepsAt(phi, step)
  {
    Enough(phi, step);
    hide Downsample, CellsFar, Need, Left, PointSquare, Roomy;
    forall cells, k, t | CellsFar(Need(phi), cells) && 0 < k < |Downsample(cells, step)| && 0.0 <= t <= 1.0
      ensures PointClear(phi, Downsample(cells, step), k, t)
    {
      KeptPoint(Need(phi), cells, step, k, t);
    }
  }

  lemma PointFootprintKeeps(step: int)
    ensures KeepsAt(0.0, step)
  {
    hide Downsample, CellsFar, Need, PointSquare;
    forall cells, k, t | CellsFar(Need(0.0), cells) && 0 < k < |Downsample(cells, step)| && 0.0 <= t <= 1.0
      ensures PointClear(0.0, Downsample(cells, step), k, t)
    {
      PointNonNegative(Downsample(cells, step)[k - 1], Downsample(cells, step)[k], t);
    }
  }

  /** Around the hit, in three cells. */
  const BYPASS: seq<Cell> := [Cell(-1, 0), Cell(0, 1), Cell(1, 0)]

  lemma BypassEnds(step: nat)
    requires step >= 2
    ensures Downsample(BYPASS, step) == [Cell(-1, 0), Cell(1, 0)]
  {
    if step == 2 { assert BYPASS[2..] == [Cell(1, 0)]; }
  }

  lemma BypassFar()
    ensures CellsFar(1, BYPASS)
  {
  }

  /** From two moves at a time on, the ends of the bypass stay, and the chord runs through the hit. */
  lemma SmallFootprintFails(phi: real, step: int)
    requires step >= 2 && 0.0 < phi <= 1.0 - PAD
    ensures !KeepsAt(phi, step)
  {
    PadValue();
    NeedIs(phi, 1);
    ProductLower(1.0, 1.0, phi + PAD, phi + PAD);
    StrictSquare(0.0, phi);
    hide Need, Downsample, CellsFar;
    BypassFar();
    FewerNeeded(1, Need(phi), BYPASS);
    BypassEnds(step);
    assert !PointClear(phi, Downsample(BYPASS, step), 1, 0.5);
  }

  /** Around the hit and its four neighbours. */
  const BEND: seq<Cell> := [Cell(-2, 0), Cell(-1, -1), Cell(0, -2), Cell(1, -1)]

  /** Three moves at a time cut the bend. */
  lemma MiddleFootprintFails(phi: real)
    requires Square(phi) > 0.4 && Square(phi + PAD) <= 2.0
    ensures !KeepsAt(phi, 3)
  {
    NeedIs(phi, 2);
    hide Need;
    assert CellsFar(Need(phi), BEND);
    assert Downsample(BEND, 3) == [Cell(-2, 0), Cell(1, -1)];
    assert !PointClear(phi, Downsample(BEND, 3), 1, 0.6);
  }

  /**
   For which footprint, in cells, and which step up to the default of three the
   downsampled path keeps every path's clearance: always at one; at two outside a
   narrow band of small footprints; at three outside a second band as well.
   */
  lemma DownsampleClearIff(phi: real, step: int)
    requires phi >= 0.0 && step <= 3
    ensures KeepsAt(phi, step) <==>
      step <= 1 || phi == 0.0 || (phi > 1.0 - PAD && (step == 2 || Square(phi) <= 0.4 || Square(phi + PAD) > 2.0))
  {
    hide KeepsAt, Square;
    if phi == 0.0 {
      PointFootprintKeeps(step);
    } else if step >= 2 && phi <= 1.0 - PAD {
      SmallFootprintFails(phi, step);
    } else if step == 3 && !Roomy(phi) {
      MiddleFootprintFails(phi);
    } else {
      StepKeeps(phi, step);
    }
  }

  /** The default footprint of 0.11 m, in cells of 0.08 m. */
  const DEFAULT_FOOTPRINT: real := 0.11 / 0.08

  /** Around a hit the default footprint keeps two cells from. */
  const ARCH: seq<Cell> := [Cell(-2, -1), Cell(-1, -2), Cell(0, -3), Cell(1, -2), Cell(2, -1)]

  lemma ArchEnds(step: nat)
    requires step >= 4
    ensures Downsample(ARCH, step) == [Cell(-2, -1), Cell(2, -1)]
  {
    if step == 4 { assert ARCH[4..] == [Cell(2, -1)]; }
  }

  lemma ArchFar()
    ensures CellsFar(5, ARCH)
  {
  }

  /** Three is the largest step that keeps the default footprint's clearance. */
  lemma DefaultStepIsLargest(step: int)
    ensures KeepsAt(DEFAULT_FOOTPRINT, step) <==> step <= 3
  {
    PadValue();
    ProductLower(1.375 + PAD, 1.375 + PAD, 2.08, 2.08);
    if step <= 3 {
      DownsampleClearIff(DEFAULT_FOOTPRINT, step);
    } else {
      ProductLower(2.09, 2.09, 1.375 + PAD, 1.375 + PAD);
      NeedIs(DEFAULT_FOOTPRINT, 5);
      hide Need, Downsample, CellsFar;
      ArchFar();
      FewerNeeded(5, Need(DEFAULT_FOOTPRINT), ARCH);
      ArchEnds(step);
      assert !PointClear(DEFAULT_FOOTPRINT, Downsample(ARCH, step), 1, 0.5);
    }
  }
}
