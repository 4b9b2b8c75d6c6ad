/**
 The small part of JavaScript number semantics the calculator relies on,
 stated over exact reals: finiteness, `Math.min`/`Math.max`, the local
 `clamp` helper, `Math.round` and `Number.prototype.toFixed`.
 */
module JsNumber {

  /** A JavaScript number, seen only through `isFinite`: either a finite
      value or one of Infinity, -Infinity and NaN. */
  datatype Num = Finite(value: real) | NonFinite

  /** `a + b`: any non-finite operand makes the sum non-finite. */
  function Add(a: Num, b: Num): Num {
    if a.Finite? && b.Finite? then Finite(a.value + b.value) else NonFinite
  }

  /** `a * b`: any non-finite operand makes the product non-finite
      (0 * Infinity is NaN). */
  function Mul(a: Num, b: Num): Num {
    if a.Finite? && b.Finite? then Finite(a.value * b.value) else NonFinite
  }

  function Min(a: real, b: real): real {
    if a <= b then a else b
  }

  function Max(a: real, b: real): real {
    if a >= b then a else b
  }

  /** `Math.min(hi, Math.max(lo, v))`, the clamp both calculations define. */
  function Clamp(v: real, lo: real, hi: real): (r: real)
    ensures lo <= hi ==> lo <= r <= hi
    ensures lo <= v <= hi ==> r == v
    ensures lo <= hi && v < lo ==> r == lo
    ensures lo <= hi && hi < v ==> r == hi
  {
    Min(hi, Max(lo, v))
  }

  lemma ClampMonotone(v1: real, v2: real, lo: real, hi: real)
    requires v1 <= v2
    ensures Clamp(v1, lo, hi) <= Clamp(v2, lo, hi)
  {
  }

  /** `Math.round(x)`: the integer nearest to x, halves rounded up. */
  function MathRound(x: real): (n: int)
    ensures x - 0.5 < n as real <= x + 0.5
  {
    (x + 0.5).Floor
  }

  lemma MathRoundMonotone(x: real, y: real)
    requires x <= y
    ensures MathRound(x) <= MathRound(y)
  {
  }

  /** `Math.round` of a value inside an interval with whole-number ends
      stays inside that interval. */
  lemma MathRoundWithin(x: real, lo: int, hi: int)
    requires lo as real <= x <= hi as real
    ensures lo <= MathRound(x) <= hi
  {
  }

  function Pow10(d: nat): (r: real)
    ensures r >= 1.0
  {
    if d == 0 then 1.0 else 10.0 * Pow10(d - 1)
  }

  // ---------------------------------------------------------------------
  // Rounding to a grid of step 1/scale. `toFixed(d)` is the grid with
  // scale 10^d; the lemmas are stated for any positive scale.
  // ---------------------------------------------------------------------

  /** x is a whole number of grid steps 1/scale. */
  predicate OnGrid(x: real, scale: real) {
    (x * scale).Floor as real == x * scale
  }

  /** Half up on the magnitude, the sign put back afterwards. */
  function RoundSigned(v: real): (n: int)
    ensures v >= 0.0 ==> v - 0.5 < n as real <= v + 0.5
    ensures v < 0.0 ==> v - 0.5 <= n as real < v + 0.5
  {
    if v < 0.0 then -MathRound(-v) else MathRound(v)
  }

  lemma RoundSignedMonotone(u: real, v: real)
    requires u <= v
    ensures RoundSigned(u) <= RoundSigned(v)
  {
    if u < 0.0 && v < 0.0 {
      MathRoundMonotone(-v, -u);
    } else if 0.0 <= u {
      MathRoundMonotone(u, v);
    }
  }

  function RoundToGrid(x: real, scale: real): real
    requires scale > 0.0
  {
    RoundSigned(x * scale) as real / scale
  }

  lemma DivideKeepsOrder(a: real, b: real, scale: real)
    requires scale > 0.0
    ensures a * scale < b * scale <==> a < b
    ensures a * scale <= b * scale <==> a <= b
  {
    if a < b {
      assert (b - a) * scale > 0.0;
    } else {
      assert (a - b) * scale >= 0.0;
    }
  }

  lemma QuotientMonotone(a: real, b: real, scale: real)
    requires a <= b && scale > 0.0
    ensures a / scale <= b / scale
  {
    DivideKeepsOrder(a / scale, b / scale, scale);
    assert a / scale * scale == a;
    assert b / scale * scale == b;
  }

  lemma RoundToGridSpec(x: real, scale: real)
    requires scale >= 1.0
    ensures OnGrid(RoundToGrid(x, scale), scale)
    ensures x >= 0.0 ==> x - 0.5 / scale < RoundToGrid(x, scale) <= x + 0.5 / scale
    ensures x < 0.0 ==> x - 0.5 / scale <= RoundToGrid(x, scale) < x + 0.5 / scale
  {
    var n := RoundSigned(x * scale);
    IntegerOverScaleOnGrid(n, scale);
    DivideKeepsOrder(0.0, x, scale);
    QuotientError(x, n as real, scale);
  }

  lemma IntegerOverScaleOnGrid(n: int, scale: real)
    requires scale > 0.0
    ensures OnGrid(n as real / scale, scale)
  {
    var q := n as real / scale;
    assert q * scale == n as real;
  }

  /** An error bound of half a unit on n = round(x * scale) becomes half a
      grid step on n / scale. */
  lemma QuotientError(x: real, n: real, scale: real)
    requires scale >= 1.0
    requires x * scale - 0.5 <= n <= x * scale + 0.5
    ensures x - 0.5 / scale <= n / scale <= x + 0.5 / scale
    ensures x * scale - 0.5 < n ==> x - 0.5 / scale < n / scale
    ensures n < x * scale + 0.5 ==> n / scale < x + 0.5 / scale
  {
    var q := n / scale;
    assert q * scale == n;
    assert (x - 0.5 / scale) * scale == x * scale - 0.5;
    assert (x + 0.5 / scale) * scale == x * scale + 0.5;
    DivideKeepsOrder(x - 0.5 / scale, q, scale);
    DivideKeepsOrder(q, x + 0.5 / scale, scale);
  }

  lemma RoundToGridMonotone(x: real, y: real, scale: real)
    requires x <= y && scale > 0.0
    ensures RoundToGrid(x, scale) <= RoundToGrid(y, scale)
  {
    assert x * scale <= y * scale by {
      assert (y - x) * scale >= 0.0;
    }
    RoundSignedMonotone(x * scale, y * scale);
    QuotientMonotone(RoundSigned(x * scale) as real, RoundSigned(y * scale) as real, scale);
  }

  lemma RoundToGridOfGridPoint(x: real, scale: real)
    requires scale > 0.0 && OnGrid(x, scale)
    ensures RoundToGrid(x, scale) == x
  {
    var k := (x * scale).Floor;
    assert RoundSigned(k as real) == k;
    assert k as real / scale * scale == x * scale;
    DivideKeepsOrder(k as real / scale, x, scale);
  }

  lemma OnGridAddSubtract(a: real, b: real, scale: real)
    requires OnGrid(a, scale) && OnGrid(b, scale)
    ensures OnGrid(a + b, scale) && OnGrid(a - b, scale)
  {
    var ka, kb := (a * scale).Floor, (b * scale).Floor;
    assert ka as real == a * scale && kb as real == b * scale;
    assert (a + b) * scale == a * scale + b * scale;
    assert (a - b) * scale == a * scale - b * scale;
    assert ((a + b) * scale).Floor == ka + kb;
    assert ((a - b) * scale).Floor == ka - kb;
  }

  // ---------------------------------------------------------------------
  // toFixed
  // ---------------------------------------------------------------------

  /** x is a whole number of units 10^-d. */
  predicate IsMultiple(x: real, d: nat) {
    OnGrid(x, Pow10(d))
  }

  /** `Number(x.toFixed(d))`: x rounded to d decimals. For non-negative x
      the nearest multiple of 10^-d with ties going to the larger one; a
      negative x is rounded as -x and negated. The decimal string toFixed
      produces is read back exactly by `Number`. */
  function ToFixed(x: real, d: nat): real {
    RoundToGrid(x, Pow10(d))
  }

  /** What `toFixed` promises: the result is on the 10^-d grid and within
      half a grid step of x, ties going away from zero. Exactly one grid
      point satisfies each pair of bounds. */
  lemma ToFixedSpec(x: real, d: nat)
    ensures IsMultiple(ToFixed(x, d), d)
    ensures x >= 0.0 ==> x - 0.5 / Pow10(d) < ToFixed(x, d) <= x + 0.5 / Pow10(d)
    ensures x < 0.0 ==> x - 0.5 / Pow10(d) <= ToFixed(x, d) < x + 0.5 / Pow10(d)
  {
    RoundToGridSpec(x, Pow10(d));
  }

  lemma ToFixedMonotone(x: real, y: real, d: nat)
    requires x <= y
    ensures ToFixed(x, d) <= ToFixed(y, d)
  {
    RoundToGridMonotone(x, y, Pow10(d));
  }

  /** Rounding leaves a value that is already on the 10^-d grid alone. */
  lemma ToFixedOfMultiple(x: real, d: nat)
    requires IsMultiple(x, d)
    ensures ToFixed(x, d) == x
  {
    RoundToGridOfGridPoint(x, Pow10(d));
  }

  /** A value between two grid points rounds to a value between them. */
  lemma ToFixedWithin(x: real, lo: real, hi: real, d: nat)
    requires lo <= x <= hi
    requires IsMultiple(lo, d) && IsMultiple(hi, d)
    ensures lo <= ToFixed(x, d) <= hi
  {
    ToFixedMonotone(lo, x, d);
    ToFixedMonotone(x, hi, d);
    ToFixedOfMultiple(lo, d);
    ToFixedOfMultiple(hi, d);
  }
}
