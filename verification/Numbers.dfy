/** Arithmetic the modules share. */
module Numbers {
  function Abs(x: int): nat {
    if x < 0 then -x else x
  }

  function Min(x: int, y: int): int {
    if x < y then x else y
  }

  function Max(x: int, y: int): int {
    if x < y then y else x
  }

  function MinReal(a: real, b: real): real {
    if b < a then b else a
  }

  function MaxReal(a: real, b: real): real {
    if b > a then b else a
  }

  function AbsReal(x: real): real {
    if x < 0.0 then -x else x
  }

  function Square(x: real): real {
    x * x
  }

  lemma StrictSquare(x: real, y: real)
    requires 0.0 <= x < y
    ensures Square(x) < Square(y)
  {
    var s, d := y + x, y - x;
    assert s * d > 0.0;
    assert s * d == y * y - x * x;
  }

  lemma ScaleUnit(m: real, f: real)
    requires m >= 0.0 && 0.0 <= f <= 1.0
    ensures 0.0 <= m * f <= m
  {
  }

  lemma TimesMonotone(a: real, b: real, res: real)
    requires res > 0.0
    ensures a <= b <==> a * res <= b * res
  {
    assert (b - a) * res == b * res - a * res;
  }

  /** `math.ceil` */
  function Ceil(x: real): int {
    -((-x).Floor)
  }

  lemma CeilIs(q: real)
    ensures (Ceil(q) - 1) as real < q <= Ceil(q) as real
  {
  }

  lemma Scaled(low: real, q: real, high: real, d: real)
    requires d > 0.0 && low < q <= high
    ensures low * d < q * d <= high * d
  {
    TimesMonotone(q, high, d);
    TimesMonotone(q, low, d);
  }

  /** `ceil(x / d)` is the least number of lengths `d` that cover `x`. */
  lemma CeilCovers(x: real, d: real) returns (n: int)
    requires d > 0.0
    ensures n == Ceil(x / d) && (n - 1) as real * d < x <= n as real * d
  {
    hide Ceil;
    n := Ceil(x / d);
    CeilIs(x / d);
    Scaled((n - 1) as real, x / d, n as real, d);
    assert (x / d) * d == x;
  }

  lemma {:induction false} SubsetSize<T>(a: set<T>, b: set<T>)
    requires a <= b
    ensures |a| <= |b|
  {
    if a != {} {
      var x :| x in a;
      SubsetSize(a - {x}, b - {x});
    }
  }
}
