/**
 The flour presets: for each flour on offer a suggested hydration and an
 average protein content, both in percent, and the width of the protein
 bar the form draws for the selected flour.
 */
module Flour {
  import opened JsNumber

  datatype FlourPreset = FlourPreset(hydration: real, protein: real)

  /** The read-only preset table. */
  const FlourPresets: map<string, FlourPreset> := map[
    // Italian specialist flours
    "Caputo Pizzeria (00)" := FlourPreset(62.0, 12.5),
    "Caputo Manitoba Oro" := FlourPreset(65.0, 14.5),
    "Caputo Nuvola" := FlourPreset(68.0, 13.0),
    "Inna włoska 00 (pizza)" := FlourPreset(60.0, 12.0),
    // Household and supermarket flours
    "Zwykła typ 00 (marketowa)" := FlourPreset(58.0, 11.0),
    "Typ 450 (tortowa)" := FlourPreset(56.0, 9.0),
    "Typ 500/550 (uniwersalna)" := FlourPreset(60.0, 10.5),
    "Typ 650 (chlebowa/uniwersalna)" := FlourPreset(62.0, 12.0),
    "Typ 750 (mocniejsza chlebowa)" := FlourPreset(64.0, 12.5),
    "Mieszanka \"mąka do pizzy\" (marketowa)" := FlourPreset(61.0, 11.5)
  ]

  /** The flour the form starts with. */
  const DefaultFlour: string := "Caputo Pizzeria (00)"

  /** The bar's width in percent: 12 points per point of protein above 8,
      kept within [0, 100]. */
  function ProteinBarWidth(protein: real): (w: real)
    ensures 0.0 <= w <= 100.0
    ensures 0.0 <= (protein - 8.0) * 12.0 <= 100.0 ==> w == (protein - 8.0) * 12.0
    ensures protein <= 8.0 ==> w == 0.0
    ensures (protein - 8.0) * 12.0 >= 100.0 ==> w == 100.0
  {
    Max(0.0, Min(100.0, (protein - 8.0) * 12.0))
  }

  lemma ProteinBarMonotone(p1: real, p2: real)
    requires p1 <= p2
    ensures ProteinBarWidth(p1) <= ProteinBarWidth(p2)
  {
  }

  /** The default flour is in the table with 62 % suggested hydration;
      every suggested hydration lies in [56, 68] and every protein content
      in [9, 14.5]. */
  lemma PresetRanges()
    ensures DefaultFlour in FlourPresets && FlourPresets[DefaultFlour].hydration == 62.0
    ensures forall name :: name in FlourPresets ==>
              56.0 <= FlourPresets[name].hydration <= 68.0 && 9.0 <= FlourPresets[name].protein <= 14.5
  {
  }

  /** No preset's protein reaches either end of the bar's clamp, so every
      preset's bar is 12 points per point of protein above 8. */
  lemma PresetBarsUnclamped()
    ensures forall name :: name in FlourPresets ==>
              0.0 < ProteinBarWidth(FlourPresets[name].protein) < 100.0
              && ProteinBarWidth(FlourPresets[name].protein) == (FlourPresets[name].protein - 8.0) * 12.0
  {
    PresetRanges();
  }
}
