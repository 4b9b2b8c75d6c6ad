/**
 The dough calculator as a whole: the form's current texts and selections
 go in, every derived value comes out. The form recomputes all of them on
 each change; here they are one function of the form's state.
 */
module Calculator {
  import opened JsNumber
  import opened Yeast
  import opened Recipe
  import opened Kneading
  import opened Flour
  import opened NumericInput

  /** What the form holds: the selected flour and yeast form, and the text
      of each numeric field. */
  datatype FormState = FormState(
    flourType: string,
    balls: string,
    hydration: string,
    saltPct: string,
    oilPct: string,
    yeast: YeastForm,
    tkHours: string,
    toHours: string,
    tkTemp: string,
    toTemp: string)

  /** Everything the form shows. */
  datatype Derived = Derived(
    totalDoughWeight: real,
    yeastPct: real,
    percentages: Percentages,
    weights: Weights,
    plan: KneadingPlan,
    proteinBarWidth: real)

  /** The derivation. The flour is one of the presets, as the flour
      selector only offers those. The percentages read from the fields are
      non-negative, so the recipe is well defined: its weights add up to the
      dough mass of at least one 250 g ball, no weight is negative, there is
      always some yeast, and the flour is at most the whole mass. */
  function Derive(form: FormState, pow: Pow, parse: Parse): (d: Derived)
    requires form.flourType in FlourPresets
    ensures d.totalDoughWeight >= BallWeight
    ensures d.percentages.NonNegative() && d.percentages.yeast == d.yeastPct
    ensures MinInstantPct * FormFactor(form.yeast) <= d.yeastPct <= MaxInstantPct * FormFactor(form.yeast)
    ensures d.weights.Total() == d.totalDoughWeight
    ensures 0.0 < d.weights.flour <= d.totalDoughWeight
    ensures d.weights.water >= 0.0 && d.weights.salt >= 0.0 && d.weights.oil >= 0.0 && d.weights.yeast > 0.0
    ensures 0.0 <= d.proteinBarWidth <= 100.0
  {
    var balls := ToNumberValue(form.balls, 1.0, parse);
    var hydration := ToNumberValue(form.hydration, 0.0, parse);
    var saltPct := ToNumberValue(form.saltPct, 0.0, parse);
    var oilPct := ToNumberValue(form.oilPct, 0.0, parse);
    var tkHours := ToNumberValue(form.tkHours, 0.0, parse);
    var toHours := ToNumberValue(form.toHours, 0.0, parse);
    var tkTemp := ToNumberValue(form.tkTemp, 0.0, parse);
    var toTemp := ToNumberValue(form.toTemp, 0.0, parse);
    var total := TotalDoughWeight(balls);
    var yeastPct := ComputeYeastPct(tkHours, toHours, tkTemp, toTemp, form.yeast, pow);
    var percentages := Percentages(hydration, saltPct, oilPct, yeastPct);
    var weights := Resolve(total, percentages);
    var protein := FlourPresets[form.flourType].protein;
    PositiveFlourAndYeast(total, percentages, weights);
    Derived(total, yeastPct, percentages, weights, Plan(hydration, protein), ProteinBarWidth(protein))
  }

  lemma PositiveFlourAndYeast(total: real, p: Percentages, w: Weights)
    requires total > 0.0 && p.NonNegative() && p.yeast > 0.0
    requires w == Resolve(total, p)
    ensures w.flour > 0.0 && w.yeast > 0.0
  {
    assert w.Total() == total;
    assert w.flour * p.yeast / 100.0 == w.yeast;
  }

  /** The percentages the form shows come back out of its weights: the
      weights are the baker's-percentage recipe of the mass. */
  lemma DerivedWeightsRealisePercentages(form: FormState, pow: Pow, parse: Parse)
    requires form.flourType in FlourPresets
    ensures var d := Derive(form, pow, parse);
            d.weights.flour != 0.0 && PercentagesOf(d.weights) == d.percentages
  {
    var d := Derive(form, pow, parse);
    ResolveThenPercentages(d.totalDoughWeight, d.percentages);
  }
}
