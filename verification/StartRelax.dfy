/** `nearest_non_lethal` and `_segment_hits` of body/lib/astar.py: stepping out of a lethal start. */
module StartRelax {
  import opened Options
  import opened Grid
  import opened Numbers
  import opened Rasters

  /** Python's `round`: to nearest, halves to even. */
  function Round(x: real): int {
    var lo := x.Floor;
    var frac := x - lo as real;
    if frac < 0.5 then lo else if frac > 0.5 then lo + 1 else if lo % 2 == 0 then lo else lo + 1
  }

  /** Two for every cell of the longer side. */
  function Samples(a: Cell, b: Cell): (n: nat)
    ensures n == 2 * Max(Abs(b.i - a.i), Abs(b.j - a.j))
  {
    Chebyshev(a, b) * 2
  }

  function Fraction(k: int, n: nat): real {
    if n == 0 then 0.0 else k as real / n as real
  }

  function Between(u: int, v: int, t: real): real {
    u as real + t * (v - u) as real
  }

  /** The cell under the `k`-th of the evenly spaced samples from `a` to `b`. */
  function Sample(a: Cell, b: Cell, k: int): Cell {
    var t := Fraction(k, Samples(a, b));
    Cell(Round(Between(a.i, b.i, t)), Round(Between(a.j, b.j, t)))
  }

  /** A whole number is rounded to exactly if it is at most a half away, at exactly a half if it is even. */
  lemma RoundIs(x: real, k: int)
    ensures Round(x) == k <==> -0.5 < x - k as real < 0.5 || (AbsReal(x - k as real) == 0.5 && k % 2 == 0)
  {
  }

  lemma RoundWithin(x: real, lo: int, hi: int)
    requires lo as real <= x <= hi as real
    ensures lo <= Round(x) <= hi
  {
  }

  lemma Reflected(u: int, v: int, t: real)
    ensures Between(u, v, t) == if v >= u then u as real + t * Abs(v - u) as real else u as real - t * Abs(v - u) as real
  {
  }

  lemma Mixed(u: int, v: int, t: real)
    requires 0.0 <= t <= 1.0
    ensures Min(u, v) as real <= Between(u, v, t) <= Max(u, v) as real
  {
    hide Between;
    Reflected(u, v, t);
    ScaleUnit(Abs(v - u) as real, t);
    var d := Abs(v - u) as real * t;
    assert t * Abs(v - u) as real == d;
  }

  lemma Fractions(k: int, n: nat)
    requires 0 <= k <= n
    ensures 0.0 <= Fraction(k, n) <= 1.0
    ensures n > 0 ==> Fraction(k, n) * n as real == k as real
  {
    if n > 0 {
      TimesMonotone(0.0, Fraction(k, n), n as real);
      TimesMonotone(Fraction(k, n), 1.0, n as real);
    }
  }

  lemma QuotientBounds(x: int, d: int)
    requires d > 0
    ensures d * (x / d) <= x < d * (x / d) + d
  {
  }

  lemma ProductGrows(w: int, d: int, n: int)
    requires w <= d && n >= 0
    ensures w * n <= d * n
  {
  }

  lemma SmallerFactor(d: int, k: int, m: int)
    requires d > 0 && d * k < d * m
    ensures k < m
  {
    if k >= m { ProductGrows(m, k, d); }
  }

  /** Of `n` even steps over a stretch of `d` cells, at most half a cell each, one comes within a quarter of the `w`-th. */
  lemma StepNear(d: nat, n: nat, w: nat) returns (k: nat)
    requires d > 0 && w <= d
    ensures k <= n && 2 * (d * k) - d <= 2 * (w * n) <= 2 * (d * k) + d
  {
    var wn, dn := w * n, d * n;
    ProductGrows(w, d, n);
    var x := 2 * wn + d;
    QuotientBounds(x, 2 * d);
    k := x / (2 * d);
    assert 2 * d * k == 2 * (d * k) && 2 * d * (n + 1) == 2 * dn + 2 * d;
    SmallerFactor(2 * d, k, n + 1);
  }

  lemma Swapped(q: real, d: real, n: real)
    ensures (q * d) * n == (q * n) * d
  {
  }

  lemma WithinHalf(off: real, n: real, e: real)
    requires n > 0.0 && off * n == e && -n <= 4.0 * e <= n
    ensures -0.5 < off < 0.5
  {
    TimesMonotone(off, -0.5, n);
    TimesMonotone(0.5, off, n);
  }

  lemma NearShare(d: nat, n: nat, w: nat, k: nat)
    requires d > 0 && n >= 2 * d && k <= n && 2 * (d * k) - d <= 2 * (w * n) <= 2 * (d * k) + d
    ensures -0.5 < Fraction(k, n) * d as real - w as real < 0.5
  {
    Fractions(k, n);
    var q := Fraction(k, n);
    Swapped(q, d as real, n as real);
    var e := (d * k - w * n) as real;
    assert (q * d as real) * n as real == k as real * d as real == (d * k) as real;
    assert (q * d as real - w as real) * n as real == e;
    WithinHalf(q * d as real - w as real, n as real, e);
  }

  lemma Landed(u: int, v: int, m: int, off: real, x: real)
    requires Min(u, v) <= m <= Max(u, v) && -0.5 < off - Abs(m - u) as real < 0.5
    requires x == if v >= u then u as real + off else u as real - off
    ensures -0.5 < x - m as real < 0.5
  {
  }

  /** In whichever direction: some sample's coordinate is `m` when `m` lies between the ends'. */
  lemma SampleAt(u: int, v: int, n: nat, m: int) returns (k: nat)
    requires u != v && Min(u, v) <= m <= Max(u, v) && n >= 2 * Abs(v - u)
    ensures k <= n && Round(Between(u, v, Fraction(k, n))) == m
  {
    k := StepNear(Abs(v - u), n, Abs(m - u));
    hide Round, Between, Fraction;
    NearShare(Abs(v - u), n, Abs(m - u), k);
    Reflected(u, v, Fraction(k, n));
    Landed(u, v, m, Fraction(k, n) * Abs(v - u) as real, Between(u, v, Fraction(k, n)));
    RoundIs(Between(u, v, Fraction(k, n)), m);
  }

  ghost predicate Crosses(mask: Raster<bool>, a: Cell, b: Cell) {
    exists k :: 0 <= k <= Samples(a, b) && SetAt(mask, Sample(a, b, k))
  }

  lemma SampleBetween(a: Cell, b: Cell, k: nat)
    requires k <= Samples(a, b)
    ensures Min(a.i, b.i) <= Sample(a, b, k).i <= Max(a.i, b.i) && Min(a.j, b.j) <= Sample(a, b, k).j <= Max(a.j, b.j)
  {
    var t := Fraction(k, Samples(a, b));
    Fractions(k, Samples(a, b));
    Mixed(a.i, b.i, t);
    Mixed(a.j, b.j, t);
    RoundWithin(Between(a.i, b.i, t), Min(a.i, b.i), Max(a.i, b.i));
    RoundWithin(Between(a.j, b.j, t), Min(a.j, b.j), Max(a.j, b.j));
    hide Round, Between, Fraction;
  }

  /** Column `m` lies between the ends, and is set as far as the segment is wide. */
  ghost predicate ColumnBetween(mask: Raster<bool>, a: Cell, b: Cell, m: int) {
    && a.i != b.i && Min(a.i, b.i) <= m <= Max(a.i, b.i)
    && forall j :: Min(a.j, b.j) <= j <= Max(a.j, b.j) ==> SetAt(mask, Cell(m, j))
  }

  ghost predicate RowBetween(mask: Raster<bool>, a: Cell, b: Cell, m: int) {
    && a.j != b.j && Min(a.j, b.j) <= m <= Max(a.j, b.j)
    && forall i :: Min(a.i, b.i) <= i <= Max(a.i, b.i) ==> SetAt(mask, Cell(i, m))
  }

  /**
   A wall stops the segment: a column of set cells between the ends, or a row, as
   long as the segment is wide, is never jumped over.
   */
  lemma WallStops(mask: Raster<bool>, a: Cell, b: Cell, m: int)
    requires ColumnBetween(mask, a, b, m) || RowBetween(mask, a, b, m)
    ensures Crosses(mask, a, b)
  {
    var n := Samples(a, b);
    var k: nat;
    if ColumnBetween(mask, a, b, m) {
      k := SampleAt(a.i, b.i, n, m);
      SampleBetween(a, b, k);
      assert Sample(a, b, k).i == m;
      assert Sample(a, b, k) == Cell(m, Sample(a, b, k).j);
    } else {
      k := SampleAt(a.j, b.j, n, m);
      SampleBetween(a, b, k);
      assert Sample(a, b, k).j == m;
      assert Sample(a, b, k) == Cell(Sample(a, b, k).i, m);
    }
    hide Sample;
    assert SetAt(mask, Sample(a, b, k));
  }

  /** `_segment_hits` */
  method SegmentHits(mask: Raster<bool>, a: Cell, b: Cell) returns (hit: bool)
    ensures hit <==> Crosses(mask, a, b)
  {
    hide Sample, Samples;
    for k := 0 to Samples(a, b) + 1
      invariant forall m :: 0 <= m < k ==> !SetAt(mask, Sample(a, b, m))
    {
      if SetAt(mask, Sample(a, b, k)) {
        return true;
      }
    }
    return false;
  }

  /** A candidate: its distance from the start, its rank in scan order, its cell. */
  datatype Candidate = Candidate(d: real, n: nat, cell: Cell)

  predicate Before(a: Candidate, b: Candidate) {
    a.d < b.d || (a.d == b.d && a.n <= b.n)
  }

  function Insert(x: Candidate, s: seq<Candidate>): seq<Candidate> {
    if s == [] || Before(x, s[0]) then [x] + s else [s[0]] + Insert(x, s[1..])
  }

  /** `cands.sort()` */
  function Sort(s: seq<Candidate>): seq<Candidate> {
    if s == [] then [] else Insert(s[0], Sort(s[1..]))
  }

  ghost predicate Sorted(s: seq<Candidate>) {
    forall i, j :: 0 <= i < j < |s| ==> Before(s[i], s[j])
  }

  lemma {:induction false} InsertSorts(x: Candidate, s: seq<Candidate>)
    requires Sorted(s)
    ensures Sorted(Insert(x, s)) && multiset(Insert(x, s)) == multiset(s) + multiset{x}
  {
    if s == [] || Before(x, s[0]) {
    } else {
      InsertSorts(x, s[1..]);
      assert s == [s[0]] + s[1..];
      var r := Insert(x, s[1..]);
      forall j | 0 <= j < |r| ensures Before(s[0], r[j]) {
        assert r[j] in multiset(r);
        assert r[j] in s[1..] || r[j] == x;
      }
    }
  }

  lemma {:induction false} SortSorts(s: seq<Candidate>)
    ensures Sorted(Sort(s)) && multiset(Sort(s)) == multiset(s)
  {
    if s != [] {
      SortSorts(s[1..]);
      InsertSorts(s[0], Sort(s[1..]));
      assert s == [s[0]] + s[1..];
    }
  }

  /** A non-lethal cell other than the start, within the ring radius. */
  predicate Eligible(lethal: Raster<bool>, at: Cell, radius: int, c: Cell) {
    lethal.Has(c) && !lethal.Get(c) && c != at && Abs(c.i - at.i) <= radius && Abs(c.j - at.j) <= radius
  }

  predicate ScanOrder(a: Cell, b: Cell) {
    a.i < b.i || (a.i == b.i && a.j < b.j)
  }

  predicate Measured(norm: (int, int) -> real, at: Cell, x: Candidate) {
    x.d == norm(x.cell.i - at.i, x.cell.j - at.j)
  }

  /** `x` is an honest entry for an eligible cell scanned before `stop`. */
  ghost predicate Honest(norm: (int, int) -> real, lethal: Raster<bool>, at: Cell, radius: int, stop: Cell, x: Candidate) {
    Eligible(lethal, at, radius, x.cell) && Measured(norm, at, x) && ScanOrder(x.cell, stop)
  }

  ghost predicate Listed(cands: seq<Candidate>, c: Cell) {
    exists k :: 0 <= k < |cands| && cands[k].cell == c
  }

  /** `cands` lists, in scan order, exactly the eligible cells before `stop`. */
  ghost predicate ListsEligible(norm: (int, int) -> real, lethal: Raster<bool>, at: Cell, radius: int, cands: seq<Candidate>,
                                stop: Cell) {
    && (forall k :: 0 <= k < |cands| ==> Honest(norm, lethal, at, radius, stop, cands[k]) && cands[k].n == k)
    && (forall k, m :: 0 <= k < m < |cands| ==> ScanOrder(cands[k].cell, cands[m].cell))
    && (forall c :: Eligible(lethal, at, radius, c) && ScanOrder(c, stop) ==> Listed(cands, c))
  }

  lemma ListSkip(norm: (int, int) -> real, lethal: Raster<bool>, at: Cell, radius: int, cands: seq<Candidate>, stop: Cell, next: Cell)
    requires ListsEligible(norm, lethal, at, radius, cands, stop)
    requires forall c :: ScanOrder(c, stop) ==> ScanOrder(c, next)
    requires forall c :: Eligible(lethal, at, radius, c) && ScanOrder(c, next) ==> ScanOrder(c, stop)
    ensures ListsEligible(norm, lethal, at, radius, cands, next)
  {
    hide Eligible, Measured, Listed;
  }

  lemma ListAdd(norm: (int, int) -> real, lethal: Raster<bool>, at: Cell, radius: int, cands: seq<Candidate>, c: Cell)
    requires ListsEligible(norm, lethal, at, radius, cands, c) && Eligible(lethal, at, radius, c)
    ensures ListsEligible(norm, lethal, at, radius, cands + [Candidate(norm(c.i - at.i, c.j - at.j), |cands|, c)],
                          Cell(c.i, c.j + 1))
  {
    hide Eligible;
    var next := cands + [Candidate(norm(c.i - at.i, c.j - at.j), |cands|, c)];
    forall x | Eligible(lethal, at, radius, x) && ScanOrder(x, Cell(c.i, c.j + 1)) ensures Listed(next, x) {
      if x == c {
        assert next[|cands|].cell == c;
      } else {
        assert Listed(cands, x);
        var k :| 0 <= k < |cands| && cands[k].cell == x;
        assert next[k].cell == x;
      }
    }
  }

  lemma ListNothing(norm: (int, int) -> real, lethal: Raster<bool>, at: Cell, radius: int, stop: Cell)
    requires radius < 0 || stop == Cell(at.i - radius, at.j - radius)
    ensures ListsEligible(norm, lethal, at, radius, [], stop)
  {
  }

  lemma ListCellSkip(norm: (int, int) -> real, lethal: Raster<bool>, at: Cell, radius: int, cands: seq<Candidate>, c: Cell)
    requires ListsEligible(norm, lethal, at, radius, cands, c) && !Eligible(lethal, at, radius, c)
    ensures ListsEligible(norm, lethal, at, radius, cands, Cell(c.i, c.j + 1))
  {
    hide ListsEligible, Eligible;
    forall x | Eligible(lethal, at, radius, x) && ScanOrder(x, Cell(c.i, c.j + 1)) ensures ScanOrder(x, c) {
      assert x != c;
    }
    ListSkip(norm, lethal, at, radius, cands, c, Cell(c.i, c.j + 1));
  }

  lemma ListRowEnd(norm: (int, int) -> real, lethal: Raster<bool>, at: Cell, radius: int, cands: seq<Candidate>, i: int)
    requires ListsEligible(norm, lethal, at, radius, cands, Cell(i, at.j + radius + 1))
    ensures ListsEligible(norm, lethal, at, radius, cands, Cell(i + 1, at.j - radius))
  {
    hide ListsEligible;
    ListSkip(norm, lethal, at, radius, cands, Cell(i, at.j + radius + 1), Cell(i + 1, at.j - radius));
  }

  /** The double loop that lists the candidates in scan order. */
  method ListCandidates(norm: (int, int) -> real, lethal: Raster<bool>, at: Cell, radius: int) returns (cands: seq<Candidate>)
    ensures ListsEligible(norm, lethal, at, radius, cands, Cell(at.i + radius + 1, at.j - radius))
  {
    hide ListsEligible;
    cands := [];
    if radius < 0 {
      ListNothing(norm, lethal, at, radius, Cell(at.i + radius + 1, at.j - radius));
      return;
    }
    ListNothing(norm, lethal, at, radius, Cell(at.i - radius, at.j - radius));
    for di := -radius to radius + 1
      invariant ListsEligible(norm, lethal, at, radius, cands, Cell(at.i + di, at.j - radius))
    {
      for dj := -radius to radius + 1
        invariant ListsEligible(norm, lethal, at, radius, cands, Cell(at.i + di, at.j + dj))
      {
        var c := Cell(at.i + di, at.j + dj);
        if (di == 0 && dj == 0) || !lethal.Has(c) || lethal.Get(c) {
          ListCellSkip(norm, lethal, at, radius, cands, c);
          continue;
        }
        ListAdd(norm, lethal, at, radius, cands, c);
        cands := cands + [Candidate(norm(di, dj), |cands|, c)];
      }
      ListRowEnd(norm, lethal, at, radius, cands, at.i + di);
    }
  }

  /** Nearer, or as near and earlier in scan order, or the same cell. */
  predicate Preferred(norm: (int, int) -> real, at: Cell, a: Cell, b: Cell) {
    var da, db := norm(a.i - at.i, a.j - at.j), norm(b.i - at.i, b.j - at.j);
    da < db || (da == db && (ScanOrder(a, b) || a == b))
  }

  /** Eligible are the free cells of the map in the rings around the start. */
  lemma EligibleIs(lethal: Raster<bool>, at: Cell, radius: int, c: Cell)
    ensures Eligible(lethal, at, radius, c) <==> lethal.Has(c) && !lethal.Get(c) && 0 < Chebyshev(at, c) <= radius
  {
  }

  /** The preferred cell is no farther, and no two cells are each preferred to the other. */
  lemma PreferredIs(norm: (int, int) -> real, at: Cell, a: Cell, b: Cell)
    ensures Preferred(norm, at, a, b) ==> norm(a.i - at.i, a.j - at.j) <= norm(b.i - at.i, b.j - at.j)
    ensures Preferred(norm, at, a, b) && Preferred(norm, at, b, a) ==> a == b
    ensures Preferred(norm, at, a, b) || Preferred(norm, at, b, a)
  {
  }

  /** What `nearest_non_lethal` promises about its result. */
  ghost predicate IsNearest(norm: (int, int) -> real, lethal: Raster<bool>, at: Cell, radius: int, blocked: Raster<bool>,
                            r: Option<Cell>) {
    if r.None? then forall c :: Eligible(lethal, at, radius, c) ==> Crosses(blocked, at, c)
    else Eligible(lethal, at, radius, r.value) && !Crosses(blocked, at, r.value)
         && forall c :: Eligible(lethal, at, radius, c) && !Crosses(blocked, at, c) ==> Preferred(norm, at, r.value, c)
  }

  lemma SameEntries(cands: seq<Candidate>)
    ensures Sorted(Sort(cands))
    ensures forall x :: x in Sort(cands) <==> x in cands
  {
    SortSorts(cands);
    forall x ensures x in Sort(cands) <==> x in cands {
      assert x in Sort(cands) <==> x in multiset(Sort(cands));
      assert x in cands <==> x in multiset(cands);
    }
  }

  lemma OrderedPreferred(norm: (int, int) -> real, lethal: Raster<bool>, at: Cell, radius: int, cands: seq<Candidate>, stop: Cell,
                         x: Candidate, y: Candidate)
    requires ListsEligible(norm, lethal, at, radius, cands, stop) && x in cands && y in cands && Before(x, y)
    ensures Preferred(norm, at, x.cell, y.cell)
  {
    hide Eligible;
    assert Honest(norm, lethal, at, radius, stop, x) && Honest(norm, lethal, at, radius, stop, y);
    assert cands[x.n] == x && cands[y.n] == y;
  }

  /** The sorted list: the same cells, the preferred ones first. */
  lemma SortedKeeps(norm: (int, int) -> real, lethal: Raster<bool>, at: Cell, radius: int, cands: seq<Candidate>)
    requires ListsEligible(norm, lethal, at, radius, cands, Cell(at.i + radius + 1, at.j - radius))
    ensures forall k :: 0 <= k < |Sort(cands)| ==> Eligible(lethal, at, radius, Sort(cands)[k].cell)
    ensures forall c :: Eligible(lethal, at, radius, c) ==> Listed(Sort(cands), c)
    ensures forall i, j :: 0 <= i < j < |Sort(cands)| ==> Preferred(norm, at, Sort(cands)[i].cell, Sort(cands)[j].cell)
  {
    var s, stop := Sort(cands), Cell(at.i + radius + 1, at.j - radius);
    SameEntries(cands);
    forall k | 0 <= k < |s| ensures Eligible(lethal, at, radius, s[k].cell) {
      assert s[k] in cands;
    }
    forall c | Eligible(lethal, at, radius, c) ensures Listed(s, c) {
      assert Listed(cands, c);
      var k :| 0 <= k < |cands| && cands[k].cell == c;
      assert cands[k] in s;
    }
    forall i, j | 0 <= i < j < |s| ensures Preferred(norm, at, s[i].cell, s[j].cell) {
      assert s[i] in cands && s[j] in cands;
      OrderedPreferred(norm, lethal, at, radius, cands, stop, s[i], s[j]);
    }
  }

  lemma PreferredSelf(norm: (int, int) -> real, at: Cell, c: Cell)
    ensures Preferred(norm, at, c, c)
  {
  }

  /** The first sorted entry that is not behind a hit is the nearest such cell. */
  lemma FirstIsNearest(norm: (int, int) -> real, lethal: Raster<bool>, at: Cell, radius: int, blocked: Raster<bool>,
                       s: seq<Candidate>, k: nat)
    requires forall m :: 0 <= m < |s| ==> Eligible(lethal, at, radius, s[m].cell)
    requires forall c :: Eligible(lethal, at, radius, c) ==> Listed(s, c)
    requires forall i, j :: 0 <= i < j < |s| ==> Preferred(norm, at, s[i].cell, s[j].cell)
    requires k <= |s| && forall m :: 0 <= m < k ==> Crosses(blocked, at, s[m].cell)
    requires k < |s| ==> !Crosses(blocked, at, s[k].cell)
    ensures IsNearest(norm, lethal, at, radius, blocked, if k < |s| then Some(s[k].cell) else None)
  {
    hide Crosses, Eligible, Preferred;
    forall c | Eligible(lethal, at, radius, c) && !Crosses(blocked, at, c)
      ensures k < |s| && Preferred(norm, at, s[k].cell, c)
    {
      assert Listed(s, c);
      var m :| 0 <= m < |s| && s[m].cell == c;
      PreferredSelf(norm, at, c);
    }
  }

  /** `nearest_non_lethal` for a lethal start: the nearest eligible cell not behind a hit, ties in scan order. */
  method NearestNonLethal(norm: (int, int) -> real, lethal: Raster<bool>, at: Cell, radius: int, blocked: Raster<bool>)
    returns (r: Option<Cell>)
    ensures lethal.Has(at) && !lethal.Get(at) ==> r == Some(at)
    ensures !(lethal.Has(at) && !lethal.Get(at)) ==> IsNearest(norm, lethal, at, radius, blocked, r)
  {
    if lethal.Has(at) && !lethal.Get(at) {
      return Some(at);
    }
    hide Crosses, Eligible, Preferred, IsNearest, ListsEligible, Sort, Listed;
    var cands := ListCandidates(norm, lethal, at, radius);
    SortedKeeps(norm, lethal, at, radius, cands);
    cands := Sort(cands);
    for k := 0 to |cands|
      invariant forall m :: 0 <= m < k ==> Crosses(blocked, at, cands[m].cell)
    {
      var hit := SegmentHits(blocked, at, cands[k].cell);
      if !hit {
        FirstIsNearest(norm, lethal, at, radius, blocked, cands, k);
        return Some(cands[k].cell);
      }
    }
    FirstIsNearest(norm, lethal, at, radius, blocked, cands, |cands|);
    return None;
  }
}
