/**
 The yeast estimator: a two-stage fermentation profile (a cold stage and a
 warm stage, each a duration in hours and a temperature in °C) is turned
 into a yeast dose in baker's percent of the flour weight.

 Each stage is rescaled to effective hours at 22 °C with a Q10 factor of 2
 (the rate doubles per 10 °C); the dose for instant yeast is 0.8 divided by
 the effective hours, clamped to [0.01, 1.0]; the form of yeast multiplies
 it; the result is rounded to three decimals.

 `Math.pow` is not modelled exactly: it is a parameter of the estimator,
 and the lemmas that need particular values of it take them as hypotheses.
 */
module Yeast {
  import opened JsNumber

  /** The three forms the yeast selector offers. */
  datatype YeastForm = Instant | Dry | Fresh

  /** `Math.pow(base, exponent)` as a JavaScript number. */
  type Pow = (real, real) -> Num

  const Q10: real := 2.0
  const BaseTemp: real := 22.0
  /** Effective hours assumed when the profile gives none. */
  const FallbackHours: real := 4.0
  /** Percent-hours of instant yeast: the dose times the effective hours. */
  const DoseHours: real := 0.8
  const MinInstantPct: real := 0.01
  const MaxInstantPct: real := 1.0

  /** Potency of a form relative to instant yeast. */
  function FormFactor(form: YeastForm): real {
    match form
    case Instant => 1.0
    case Dry => 1.5
    case Fresh => 3.0
  }

  /** One stage's duration as hours at the reference temperature. */
  function StageEquivalent(hours: real, temp: real, pow: Pow): Num {
    Mul(Finite(hours), pow(Q10, (temp - BaseTemp) / 10.0))
  }

  /** The warm and the cold stage's equivalents added up. */
  function EffectiveHours(tkHours: real, toHours: real, tkTemp: real, toTemp: real, pow: Pow): Num {
    Add(StageEquivalent(toHours, toTemp, pow), StageEquivalent(tkHours, tkTemp, pow))
  }

  /** The effective hours after the guard: a sum that is not a finite
      positive number is replaced by the fallback. */
  function GuardedHours(e: Num): (h: real)
    ensures h > 0.0
    ensures e.Finite? && e.value > 0.0 ==> h == e.value
    ensures !(e.Finite? && e.value > 0.0) ==> h == FallbackHours
  {
    if !e.Finite? || e.value <= 0.0 then FallbackHours else e.value
  }

  /** The dose of instant yeast for a positive number of effective hours. */
  function InstantPct(hours: real): (p: real)
    requires hours > 0.0
    ensures MinInstantPct <= p <= MaxInstantPct
    ensures MinInstantPct <= DoseHours / hours <= MaxInstantPct ==> p == DoseHours / hours
  {
    Clamp(DoseHours / hours, MinInstantPct, MaxInstantPct)
  }

  /** `computeYeastPct`: the instant dose for the guarded effective hours,
      times the form's factor, rounded to the nearest thousandth (halves
      up). The dose stays within the clamp range scaled by the factor. */
  function ComputeYeastPct(tkHours: real, toHours: real, tkTemp: real, toTemp: real,
                           form: YeastForm, pow: Pow): (r: real)
    ensures var x := InstantPct(GuardedHours(EffectiveHours(tkHours, toHours, tkTemp, toTemp, pow))) * FormFactor(form);
            x - 0.0005 < r <= x + 0.0005
    ensures MinInstantPct * FormFactor(form) <= r <= MaxInstantPct * FormFactor(form)
    ensures IsMultiple(r, 3)
  {
    var instantPct := InstantPct(GuardedHours(EffectiveHours(tkHours, toHours, tkTemp, toTemp, pow)));
    DoseBoundsOnGrid(form);
    ToFixedWithin(instantPct * FormFactor(form), MinInstantPct * FormFactor(form),
                  MaxInstantPct * FormFactor(form), 3);
    ToFixedSpec(instantPct * FormFactor(form), 3);
    HalfThousandth();
    ToFixed(instantPct * FormFactor(form), 3)
  }

  lemma DoseBoundsOnGrid(form: YeastForm)
    ensures IsMultiple(MinInstantPct * FormFactor(form), 3)
    ensures IsMultiple(MaxInstantPct * FormFactor(form), 3)
  {
    assert Pow10(3) == 1000.0;
  }

  /** Half a unit of the third decimal. */
  lemma HalfThousandth()
    ensures Pow10(3) == 1000.0 && 0.5 / Pow10(3) == 0.0005
  {
    assert Pow10(3) == 1000.0;
  }

  // ---------------------------------------------------------------------
  // The fallback
  // ---------------------------------------------------------------------

  /** When the effective hours are not a finite positive number the dose is
      the fallback's 0.8 / 4 = 0.2 % of instant yeast times the form's
      factor, exactly: 0.2, 0.3 or 0.6. */
  lemma FallbackDose(tkHours: real, toHours: real, tkTemp: real, toTemp: real,
                     form: YeastForm, pow: Pow)
    requires var e := EffectiveHours(tkHours, toHours, tkTemp, toTemp, pow); !(e.Finite? && e.value > 0.0)
    ensures ComputeYeastPct(tkHours, toHours, tkTemp, toTemp, form, pow) == 0.2 * FormFactor(form)
    ensures form == Instant ==> ComputeYeastPct(tkHours, toHours, tkTemp, toTemp, form, pow) == 0.2
    ensures form == Dry ==> ComputeYeastPct(tkHours, toHours, tkTemp, toTemp, form, pow) == 0.3
    ensures form == Fresh ==> ComputeYeastPct(tkHours, toHours, tkTemp, toTemp, form, pow) == 0.6
  {
    var e := EffectiveHours(tkHours, toHours, tkTemp, toTemp, pow);
    assert GuardedHours(e) == 4.0;
    assert InstantPct(4.0) == 0.2;
    assert Pow10(3) == 1000.0;
    assert IsMultiple(0.2 * FormFactor(form), 3);
    ToFixedOfMultiple(0.2 * FormFactor(form), 3);
  }

  /** Both durations zero: whatever the temperatures and whatever
      `Math.pow` returns, the fallback applies. */
  lemma NoFermentationFallback(tkTemp: real, toTemp: real, form: YeastForm, pow: Pow)
    ensures ComputeYeastPct(0.0, 0.0, tkTemp, toTemp, form, pow) == 0.2 * FormFactor(form)
  {
    var e := EffectiveHours(0.0, 0.0, tkTemp, toTemp, pow);
    assert e == Finite(0.0) || e == NonFinite;
    FallbackDose(0.0, 0.0, tkTemp, toTemp, form, pow);
  }

  // ---------------------------------------------------------------------
  // Monotonicity
  // ---------------------------------------------------------------------

  lemma DoseQuotientOrder(h1: real, h2: real)
    requires 0.0 < h1 <= h2
    ensures DoseHours / h2 <= DoseHours / h1
    ensures h1 < h2 ==> DoseHours / h2 < DoseHours / h1
  {
    var q1, q2 := DoseHours / h1, DoseHours / h2;
    assert q1 * h1 == DoseHours;
    assert q2 * h2 == DoseHours;
    assert q2 * h1 <= q2 * h2;
    if h1 < h2 {
      assert q2 * h1 < q2 * h2;
    }
  }

  /** More effective hours never call for more instant yeast. */
  lemma InstantPctNonIncreasing(h1: real, h2: real)
    requires 0.0 < h1 <= h2
    ensures InstantPct(h2) <= InstantPct(h1)
  {
    DoseQuotientOrder(h1, h2);
    ClampMonotone(DoseHours / h2, DoseHours / h1, MinInstantPct, MaxInstantPct);
  }

  /** While either dose lies strictly inside the clamp range, more
      effective hours call for strictly less instant yeast. */
  lemma InstantPctStrictlyDecreasing(h1: real, h2: real)
    requires 0.0 < h1 < h2
    requires MinInstantPct < InstantPct(h1) < MaxInstantPct || MinInstantPct < InstantPct(h2) < MaxInstantPct
    ensures InstantPct(h2) < InstantPct(h1)
  {
    DoseQuotientOrder(h1, h2);
  }

  lemma ScaleOrder(x1: real, x2: real, f: real)
    requires x1 <= x2 && f >= 0.0
    ensures x1 * f <= x2 * f
  {
    assert (x2 - x1) * f >= 0.0;
  }

  /** With finite non-negative `Math.pow` factors, the effective hours grow
      with each stage's duration. */
  lemma EffectiveHoursGrow(tk1: real, to1: real, tk2: real, to2: real,
                           tkTemp: real, toTemp: real, pow: Pow)
    requires tk1 <= tk2 && to1 <= to2
    requires pow(Q10, (tkTemp - BaseTemp) / 10.0).Finite? && pow(Q10, (tkTemp - BaseTemp) / 10.0).value >= 0.0
    requires pow(Q10, (toTemp - BaseTemp) / 10.0).Finite? && pow(Q10, (toTemp - BaseTemp) / 10.0).value >= 0.0
    ensures EffectiveHours(tk1, to1, tkTemp, toTemp, pow).Finite?
    ensures EffectiveHours(tk2, to2, tkTemp, toTemp, pow).Finite?
    ensures EffectiveHours(tk1, to1, tkTemp, toTemp, pow).value <= EffectiveHours(tk2, to2, tkTemp, toTemp, pow).value
  {
    var a := pow(Q10, (tkTemp - BaseTemp) / 10.0).value;
    var b := pow(Q10, (toTemp - BaseTemp) / 10.0).value;
    ScaleOrder(tk1, tk2, a);
    ScaleOrder(to1, to2, b);
    assert StageEquivalent(tk1, tkTemp, pow) == Finite(tk1 * a);
    assert StageEquivalent(tk2, tkTemp, pow) == Finite(tk2 * a);
    assert StageEquivalent(to1, toTemp, pow) == Finite(to1 * b);
    assert StageEquivalent(to2, toTemp, pow) == Finite(to2 * b);
    var c1, c2, w1, w2 := tk1 * a, tk2 * a, to1 * b, to2 * b;
    assert EffectiveHours(tk1, to1, tkTemp, toTemp, pow) == Finite(w1 + c1);
    assert EffectiveHours(tk2, to2, tkTemp, toTemp, pow) == Finite(w2 + c2);
    assert c1 <= c2;
    assert w1 <= w2;
    assert w1 + c1 <= w2 + c2;
  }

  /** Lengthening either stage never raises the dose, provided the shorter
      profile already has finite positive effective hours and `Math.pow`
      gives finite non-negative factors at both temperatures. */
  lemma LongerProfileNeverMoreYeast(tk1: real, to1: real, tk2: real, to2: real,
                                    tkTemp: real, toTemp: real, form: YeastForm, pow: Pow)
    requires tk1 <= tk2 && to1 <= to2
    requires pow(Q10, (tkTemp - BaseTemp) / 10.0).Finite? && pow(Q10, (tkTemp - BaseTemp) / 10.0).value >= 0.0
    requires pow(Q10, (toTemp - BaseTemp) / 10.0).Finite? && pow(Q10, (toTemp - BaseTemp) / 10.0).value >= 0.0
    requires var e := EffectiveHours(tk1, to1, tkTemp, toTemp, pow); e.Finite? && e.value > 0.0
    ensures ComputeYeastPct(tk2, to2, tkTemp, toTemp, form, pow) <= ComputeYeastPct(tk1, to1, tkTemp, toTemp, form, pow)
  {
    var e1 := EffectiveHours(tk1, to1, tkTemp, toTemp, pow);
    var e2 := EffectiveHours(tk2, to2, tkTemp, toTemp, pow);
    EffectiveHoursGrow(tk1, to1, tk2, to2, tkTemp, toTemp, pow);
    var h1, h2 := e1.value, e2.value;
    InstantPctNonIncreasing(h1, h2);
    var p1, p2 := InstantPct(h1), InstantPct(h2);
    ScaleOrder(p2, p1, FormFactor(form));
    ToFixedMonotone(p2 * FormFactor(form), p1 * FormFactor(form), 3);
    DoseIsRounded(tk1, to1, tkTemp, toTemp, form, pow, h1);
    DoseIsRounded(tk2, to2, tkTemp, toTemp, form, pow, h2);
  }

  /** For one profile the forms are ordered instant <= dry <= fresh. */
  lemma FormsOrdered(tkHours: real, toHours: real, tkTemp: real, toTemp: real, pow: Pow)
    ensures ComputeYeastPct(tkHours, toHours, tkTemp, toTemp, Instant, pow)
            <= ComputeYeastPct(tkHours, toHours, tkTemp, toTemp, Dry, pow)
            <= ComputeYeastPct(tkHours, toHours, tkTemp, toTemp, Fresh, pow)
  {
    var p := InstantPct(GuardedHours(EffectiveHours(tkHours, toHours, tkTemp, toTemp, pow)));
    ToFixedMonotone(p * 1.0, p * 1.5, 3);
    ToFixedMonotone(p * 1.5, p * 3.0, 3);
  }

  // ---------------------------------------------------------------------
  // Consequences of the code, shown on concrete profiles
  // ---------------------------------------------------------------------

  /** The fallback makes the dose jump: no fermentation at all gives 0.2 %,
      one hour at the reference temperature gives 0.8 %. The dose is not
      monotone across the guard. */
  lemma FallbackIsNotMonotone(pow: Pow)
    requires pow(Q10, 0.0) == Finite(1.0)
    ensures ComputeYeastPct(0.0, 0.0, BaseTemp, BaseTemp, Instant, pow) == 0.2
    ensures ComputeYeastPct(0.0, 1.0, BaseTemp, BaseTemp, Instant, pow) == 0.8
  {
    NoFermentationFallback(BaseTemp, BaseTemp, Instant, pow);
    OneHourAtReference(pow);
  }

  /** One hour at the reference temperature, instant yeast: 0.8 %. */
  lemma OneHourAtReference(pow: Pow)
    requires pow(Q10, 0.0) == Finite(1.0)
    ensures ComputeYeastPct(0.0, 1.0, BaseTemp, BaseTemp, Instant, pow) == 0.8
  {
    ReferenceHours(1.0, pow);
    assert InstantPct(1.0) == 0.8;
    Thousandths(800);
    DoseOnGrid(0.0, 1.0, BaseTemp, BaseTemp, Instant, pow, 1.0);
  }

  /** A warm stage at the reference temperature counts hour for hour. */
  lemma ReferenceHours(hours: real, pow: Pow)
    requires pow(Q10, 0.0) == Finite(1.0)
    ensures EffectiveHours(0.0, hours, BaseTemp, BaseTemp, pow) == Finite(hours)
  {
    assert (BaseTemp - BaseTemp) / 10.0 == 0.0;
  }

  /** The clamp acts before the form's factor, so fresh yeast reaches
      3 % on a short warm profile. */
  lemma FreshReachesThreePercent(pow: Pow)
    requires pow(Q10, 0.0) == Finite(1.0)
    ensures ComputeYeastPct(0.0, 0.5, BaseTemp, BaseTemp, Fresh, pow) == 3.0
  {
    ReferenceHours(0.5, pow);
    assert InstantPct(0.5) * FormFactor(Fresh) == 3.0;
    Thousandths(3000);
    DoseOnGrid(0.0, 0.5, BaseTemp, BaseTemp, Fresh, pow, 0.5);
  }

  // ---------------------------------------------------------------------
  // The development console's three sample profiles
  // ---------------------------------------------------------------------

  /** A dose for h that is already a whole number of thousandths is
      returned as it is. */
  lemma DoseOnGrid(tkHours: real, toHours: real, tkTemp: real, toTemp: real,
                   form: YeastForm, pow: Pow, h: real)
    requires EffectiveHours(tkHours, toHours, tkTemp, toTemp, pow) == Finite(h) && h > 0.0
    requires IsMultiple(InstantPct(h) * FormFactor(form), 3)
    ensures ComputeYeastPct(tkHours, toHours, tkTemp, toTemp, form, pow) == InstantPct(h) * FormFactor(form)
  {
    DoseIsRounded(tkHours, toHours, tkTemp, toTemp, form, pow, h);
    ToFixedOfMultiple(InstantPct(h) * FormFactor(form), 3);
  }

  /** n thousandths are a whole number of thousandths. */
  lemma Thousandths(n: int)
    ensures IsMultiple(n as real / 1000.0, 3)
  {
    HalfThousandth();
    assert n as real / 1000.0 * 1000.0 == n as real;
  }

  /** A whole number of thousandths within half a thousandth of x is
      n / 1000 when x * 1000 lies strictly between n - 0.5 and n + 0.5. */
  lemma ThousandthsDetermined(r: real, x: real, n: int)
    requires IsMultiple(r, 3)
    requires x - 0.0005 < r <= x + 0.0005
    requires n as real - 0.5 < x * 1000.0 < n as real + 0.5
    ensures r == n as real / 1000.0
  {
    HalfThousandth();
    var k := (r * 1000.0).Floor;
    assert k as real == r * 1000.0;
    assert n - 1 < k < n + 1;
  }

  /** The estimator on a profile whose effective hours are the finite
      positive h is `toFixed(3)` of the dose for h. */
  lemma DoseIsRounded(tkHours: real, toHours: real, tkTemp: real, toTemp: real,
                      form: YeastForm, pow: Pow, h: real)
    requires EffectiveHours(tkHours, toHours, tkTemp, toTemp, pow) == Finite(h) && h > 0.0
    ensures ComputeYeastPct(tkHours, toHours, tkTemp, toTemp, form, pow) == ToFixed(InstantPct(h) * FormFactor(form), 3)
  {
  }

  /** The estimator on a profile whose effective hours are the finite
      positive h: the rounded dose for 0.8 / h. */
  lemma DoseForHours(tkHours: real, toHours: real, tkTemp: real, toTemp: real,
                     form: YeastForm, pow: Pow, h: real)
    requires EffectiveHours(tkHours, toHours, tkTemp, toTemp, pow) == Finite(h) && h > 0.0
    ensures var x := InstantPct(h) * FormFactor(form);
            var r := ComputeYeastPct(tkHours, toHours, tkTemp, toTemp, form, pow);
            IsMultiple(r, 3) && x - 0.0005 < r <= x + 0.0005
  {
  }

  /** Eight hours at the reference temperature, instant yeast: 0.1 %. */
  lemma RoomTemperatureSample(pow: Pow)
    requires pow(Q10, 0.0) == Finite(1.0)
    requires pow(Q10, -1.8).Finite?
    ensures ComputeYeastPct(0.0, 8.0, 4.0, 22.0, Instant, pow) == 0.1
  {
    assert (4.0 - BaseTemp) / 10.0 == -1.8;
    assert (22.0 - BaseTemp) / 10.0 == 0.0;
    assert EffectiveHours(0.0, 8.0, 4.0, 22.0, pow) == Finite(8.0);
    assert InstantPct(8.0) == 0.1;
    DoseForHours(0.0, 8.0, 4.0, 22.0, Instant, pow, 8.0);
    ThousandthsDetermined(ComputeYeastPct(0.0, 8.0, 4.0, 22.0, Instant, pow), 0.1 * 1.0, 100);
  }

  /** 24 hours at 4 °C and 2 hours at 22 °C, instant yeast. With 2^-1.8
      between 0.2871 and 0.2872 the effective hours are about 8.89 and the
      dose rounds to 0.090 %. */
  lemma FridgeSample(pow: Pow, p: real)
    requires pow(Q10, 0.0) == Finite(1.0)
    requires pow(Q10, -1.8) == Finite(p) && 0.2871 <= p <= 0.2872
    ensures ComputeYeastPct(24.0, 2.0, 4.0, 22.0, Instant, pow) == 0.09
  {
    var h := 2.0 + 24.0 * p;
    assert EffectiveHours(24.0, 2.0, 4.0, 22.0, pow) == Finite(h) by {
      assert (4.0 - BaseTemp) / 10.0 == -1.8;
      assert (22.0 - BaseTemp) / 10.0 == 0.0;
    }
    var x := DoseHours / h;
    assert 0.0899 <= x <= 0.09 by {
      assert 8.8904 <= h <= 8.8928;
      DoseQuotientOrder(8.8904, h);
      DoseQuotientOrder(h, 8.8928);
    }
    assert InstantPct(h) == x;
    DoseForHours(24.0, 2.0, 4.0, 22.0, Instant, pow, h);
    ThousandthsDetermined(ComputeYeastPct(24.0, 2.0, 4.0, 22.0, Instant, pow), x * 1.0, 90);
  }

  /** Five hours at 24 °C, fresh yeast. With 2^0.2 between 1.1486 and
      1.1487 the dose rounds to 0.418 %. */
  lemma WarmFreshSample(pow: Pow, p: real)
    requires pow(Q10, -1.8).Finite?
    requires pow(Q10, 0.2) == Finite(p) && 1.1486 <= p <= 1.1487
    ensures ComputeYeastPct(0.0, 5.0, 4.0, 24.0, Fresh, pow) == 0.418
  {
    var h := 5.0 * p;
    assert EffectiveHours(0.0, 5.0, 4.0, 24.0, pow) == Finite(h) by {
      assert (4.0 - BaseTemp) / 10.0 == -1.8;
      assert (24.0 - BaseTemp) / 10.0 == 0.2;
    }
    var x := DoseHours / h;
    assert 0.13928 <= x <= 0.13931 by {
      assert 5.743 <= h <= 5.7435;
      DoseQuotientOrder(5.743, h);
      DoseQuotientOrder(h, 5.7435);
    }
    assert InstantPct(h) == x;
    DoseForHours(0.0, 5.0, 4.0, 24.0, Fresh, pow, h);
    ThousandthsDetermined(ComputeYeastPct(0.0, 5.0, 4.0, 24.0, Fresh, pow), x * 3.0, 418);
  }
}
