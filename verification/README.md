# Papa Pietro pizza dough calculator — a Dafny model of its derivation engine

Papa Pietro is a single-page pizza dough calculator. The user picks a flour,
a number of 250 g dough balls, a hydration, salt and oil percentages, a form
of yeast, and a two-stage fermentation schedule. The stages are a cold stage
("TK") and a warm stage ("TO"), each with hours and °C. The page shows
ingredient weights and a kneading recommendation. All of that arithmetic is
in `src/App.tsx`. This project models it as pure Dafny functions over `real`
and proves what the code promises.

- `js_number.dfy` (`JsNumber`): the JavaScript number behaviour the code relies on.
  `Num` tells finite numbers from Infinity/NaN, which is all that `isFinite`
  sees. It also has `Math.min`/`Math.max`, the `clamp` helper, `Math.round`
  and `toFixed`. `toFixed(d)` is modelled exactly over reals, following
  ECMAScript: the nearest multiple of 10^-d, ties to the larger one, negative
  values rounded by magnitude.
- `yeast.dfy` (`Yeast`): `computeYeastPct`. The Q10 = 2 rescaling to 22 °C,
  the 4-hour fallback, the [0.01, 1.0] clamp, the 1 / 1.5 / 3 form factor and
  rounding to three decimals.
- `recipe.dfy` (`Recipe`): the total dough mass and the baker's-percentage
  resolver.
- `kneading.dfy` (`Kneading`): the kneading plan.
- `flour.dfy` (`Flour`): the preset table and the protein bar width.
- `numeric_input.dfy` (`NumericInput`): `toNumberValue`, `normalizeInputValue`
  and the arrow buttons' `adjustValue`.
- `calculator.dfy` (`Calculator`): the whole derivation, from the form's texts
  to everything the page shows.

Two foreign pieces are parameters instead of definitions:

- `Math.pow` is a function `pow: (real, real) -> Num`.
- `Number(text)` is a function `parse: string -> Num`.

A lemma that needs a particular value of one of them takes it as a
hypothesis. An example is `pow(2, 0) = 1` at the reference temperature.

Consequences of the code that the proofs bring out:

- The 4-hour fallback breaks monotonicity. With no fermentation at all the
  dose is 0.2 %, but one hour at 22 °C gives 0.8 % (`Yeast.FallbackIsNotMonotone`).
  More fermentation calls for less yeast only once the effective hours are
  positive (`Yeast.LongerProfileNeverMoreYeast`).
- The clamp acts before the form factor, so fresh yeast reaches 3 % on a
  short warm profile (`Yeast.FreshReachesThreePercent`).
- The mixers' upper clamps (15 and 18 minutes) never act. The kneading time
  is at most 22 minutes, so the planetary mixer gets at most 12.1 and the hand
  mixer at most 16.5 (`Kneading.MixerCeilingsUnreached`).
- The development console's second sample (24 h at 4 °C plus 2 h at 22 °C,
  instant yeast) has 2^-1.8 ≈ 0.2872. That gives ≈ 8.89 effective hours and
  a dose of 0.090 % (`Yeast.FridgeSample`).
- The form reads temperatures through `toNumberValue` with minimum 0, so
  below-zero temperatures never reach the estimator from the page. The
  estimator itself accepts any temperature.

## Model

| member | source | states |
|---|---|---|
| JsNumber.Clamp | src/App.tsx:39-40 | with lo <= hi the result lies in [lo, hi]; a value already inside is returned unchanged, one below gives lo, one above gives hi |
| JsNumber.MathRound | src/App.tsx:288-290 | `Math.round` gives the unique integer n with x - 0.5 < n <= x + 0.5 |
| JsNumber.MathRoundWithin | src/App.tsx:288-290 | rounding a value between two whole numbers stays between them |
| JsNumber.ToFixedSpec | src/App.tsx:60 | `Number(x.toFixed(d))` is a multiple of 10^-d within half a step of x, ties away from zero |
| JsNumber.ToFixedMonotone | src/App.tsx:60 | rounding to d decimals preserves order |
| JsNumber.ToFixedOfMultiple | src/App.tsx:60 | a value already on the 10^-d grid is unchanged by rounding |
| JsNumber.ToFixedWithin | src/App.tsx:60 | a value between two grid points rounds to a value between them |
| Yeast.InstantPct | src/App.tsx:53-54 | the instant-yeast dose lies in [0.01, 1.0] and equals 0.8 / hours whenever that is inside the range |
| Yeast.ComputeYeastPct | src/App.tsx:32-61 | the returned dose is a whole number of thousandths within half a thousandth (halves up) of m times the clamped 0.8 / hours for the guarded effective hours, where m in {1, 1.5, 3} is the form's factor; it lies in [0.01·m, 1.0·m] |
| Yeast.GuardedHours | src/App.tsx:50 | the guarded hours are positive: the sum when it is a finite positive number, 4 otherwise |
| Yeast.FallbackDose | src/App.tsx:49-60 | when the effective hours are not a finite positive number the dose is exactly 0.2, 0.3 or 0.6 for instant, dry or fresh yeast |
| Yeast.NoFermentationFallback | src/App.tsx:46-58 | with both stage durations zero the fallback applies for every temperature and every `Math.pow` result, giving 0.2 times the factor |
| Yeast.InstantPctNonIncreasing | src/App.tsx:53-54 | more effective hours never give a larger instant dose |
| Yeast.InstantPctStrictlyDecreasing | src/App.tsx:53-54 | while either dose lies strictly inside (0.01, 1.0), more effective hours give a strictly smaller dose |
| Yeast.EffectiveHoursGrow | src/App.tsx:46-49 | with finite non-negative Q10 factors, longer stages give at least as many effective hours |
| Yeast.LongerProfileNeverMoreYeast | src/App.tsx:46-60 | lengthening either stage never raises the returned dose once the shorter profile has positive effective hours |
| Yeast.FormsOrdered | src/App.tsx:56-60 | for one profile the dose of instant <= dry <= fresh yeast |
| Yeast.FallbackIsNotMonotone | src/App.tsx:49-54 | no fermentation gives 0.2 % while one hour at 22 °C gives 0.8 %: the dose is not monotone across the guard |
| Yeast.FreshReachesThreePercent | src/App.tsx:53-60 | clamping before the factor lets fresh yeast reach 3 % (half an hour at 22 °C) |
| Yeast.RoomTemperatureSample | src/App.tsx:197-198 | 8 h at 22 °C with instant yeast gives 0.1 % |
| Yeast.FridgeSample | src/App.tsx:201-202 | 24 h at 4 °C plus 2 h at 22 °C with instant yeast gives 0.090 % when 2^-1.8 lies in [0.2871, 0.2872] |
| Yeast.WarmFreshSample | src/App.tsx:205-206 | 5 h at 24 °C with fresh yeast gives 0.418 % when 2^0.2 lies in [1.1486, 1.1487] |
| Recipe.TotalDoughWeight | src/App.tsx:246 | at least one ball gives at least 250 g, and the mass divided by 250 is the ball count |
| Recipe.Resolve | src/App.tsx:253-264 | the five weights add up to the total exactly; each non-flour weight is flour·pct/100; with non-negative inputs no weight is negative and 0 <= flour <= total |
| Recipe.ResolveThenPercentages | src/App.tsx:254-263 | reading the percentages back from the resolved weights gives the requested percentages |
| Recipe.PercentagesThenResolve | src/App.tsx:254-263 | any recipe with non-zero flour and total is what the resolver produces from its own total and percentages |
| Recipe.SampleRecipe | src/App.tsx:253-264 | 1000 g at 62 / 2.8 / 2 / 0.2 % has factor 1.67, about 598.8 g of flour and 371.26 g of water, and adds up to 1000 g |
| Kneading.RawTimes | src/App.tsx:276-282 | kneading is 6 + 0.35·max(0, h − 60) + 0.8·max(0, p − 11) minutes, capped at 22 (so 6 when neither exceeds its threshold); the planetary mixer gets 0.55 and the hand mixer 0.75 of it, raised to 4 and 5 minutes when below; all three lie in [6, 22], [4, 15] and [5, 18] |
| Kneading.Plan | src/App.tsx:275-296 | each rounded time is within half a minute (halves up) of its unrounded time and keeps its bounds; wet dough iff hydration >= 67; wet gives 3 folds every 12 min (24 in all), otherwise 2 every 15 min (15 in all) |
| Kneading.KneadingNonDecreasing | src/App.tsx:278-290 | more hydration or protein never shortens kneading or either mixer time, before or after rounding |
| Kneading.KneadingStrictInHydration | src/App.tsx:278-280 | above 60 % hydration and below the 22-minute ceiling, more water strictly lengthens kneading |
| Kneading.MixerCeilingsUnreached | src/App.tsx:280-282 | the planetary mixer never exceeds 12.1 minutes (12 rounded) and the hand mixer never exceeds 16.5 (17 rounded) |
| Kneading.BaselinePlan | src/App.tsx:275-296 | 60 % hydration and 11 % protein give 6 / 4 / 5 minutes, a dry dough and 2 folds 15 minutes apart |
| Kneading.WetBoundary | src/App.tsx:283-285 | 67 % selects the three-fold branch and 66.999 % selects the two-fold one |
| Flour.ProteinBarWidth | src/App.tsx:269-272 | the bar width lies in [0, 100], is 12·(protein - 8) when that is in range, 0 for protein <= 8 and 100 at the top |
| Flour.ProteinBarMonotone | src/App.tsx:269-272 | more protein never gives a narrower bar |
| Flour.PresetRanges | src/App.tsx:10-24 | the default flour is a preset with 62 % hydration; every preset's hydration is in [56, 68] and its protein in [9, 14.5] |
| Flour.PresetBarsUnclamped | src/App.tsx:10-24 | no preset's bar is clamped: each is 12·(protein - 8), strictly between 0 and 100 |
| NumericInput.ReplaceFirstComma | src/App.tsx:75 | `replace(",", ".")` keeps the length, leaves comma-free text alone and turns only the first comma into a point |
| NumericInput.ToNumberValue | src/App.tsx:74-78 | the value is never below the minimum, is either the minimum or the parsed number, is the minimum for non-finite text, and is the parsed number when that reaches the minimum |
| NumericInput.NormalizeInputValue | src/App.tsx:63-72 | blank text stays blank; a number left in the field is at least the minimum; non-blank text leaves a number iff it parses as a finite number |
| NumericInput.NormalizeAgreesWithRead | src/App.tsx:63-78 | when typing leaves a number in the field, reading the same text gives that number |
| NumericInput.AdjustValue | src/App.tsx:97-102 | an arrow press starts from the field's number, or 0 when the text is not a finite number, and moves it by ±step; the result is never below the minimum, and it is either the minimum or a whole number of hundredths within 0.005 of the moved value, the latter whenever the moved value is at least 0.005 above the minimum |
| NumericInput.AdjustUpNotBelowDown | src/App.tsx:97-102 | with a non-negative step the up arrow gives at least what the down arrow gives |
| NumericInput.AdjustExactOnGrid | src/App.tsx:97-102 | from a value in hundredths, a step in hundredths lands exactly on value ± step when that is at least the minimum |
| Calculator.Derive | src/App.tsx:234-272 | for any form with a preset flour: the weights add up to a mass of at least 250 g, no weight is negative, flour and yeast are positive, flour is at most the mass, the dose is within its bounds and the bar within [0, 100] |
| Calculator.DerivedWeightsRealisePercentages | src/App.tsx:253-264 | the weights the page shows realise exactly the percentages read from the form |

## Left out

- Rendering: the JSX, `CircularTitle`, the hero image and its error handling, and the option lists of the two selects. They are presentation only.
- The wheel and touch handlers of the numeric inputs and their `useRef` state (src/App.tsx:104-122). They are DOM event plumbing. The step they trigger is `AdjustValue`.
- The input's rejection of any text containing "-" (src/App.tsx:134). It is an event handler guard: a keystroke that would leave a "-" in the text is dropped and the field keeps its previous text, so neither a negative sign nor an exponent form such as "1e-3" can be typed. The clamp to the minimum does not depend on it; `NormalizeInputValue` and `ToNumberValue` apply that to any text.
- `useState`/`useMemo` reactivity. Every derived value is a function of the form's state (`Calculator.Derive`).
- The development console samples (src/App.tsx:190-214). They print to the console. Their three profiles are the lemmas `RoomTemperatureSample`, `FridgeSample` and `WarmFreshSample`.
- Exact values of `Math.pow`. `pow` is a parameter, and lemmas take the values they need as hypotheses.
- JavaScript's `Number(text)` grammar. `parse` is a parameter.
- Number-to-text conversion (`toString` and `toFixed(1)` for display). The model returns numbers, not their text. For the same reason, the flour selector's reset of the hydration field to the preset value (src/App.tsx:348-351) is not modelled.
- IEEE-754 arithmetic. Reals are exact and unbounded. A finite sum or product that would overflow a double to Infinity stays finite here. Rounding errors in the divisions are absent, so the recipe adds up exactly rather than within a tolerance.
- Yeast.LongerProfileNeverMoreYeast: requires the Q10 factors at both temperatures to be finite and non-negative, and the shorter profile to have positive effective hours. Without the second condition the claim is false (see `FallbackIsNotMonotone`).
- Yeast.FridgeSample: assumes 2^-1.8 in [0.2871, 0.2872] instead of computing it. Yeast.WarmFreshSample: assumes 2^0.2 in [1.1486, 1.1487] in the same way.
- `toFixed` at magnitudes of 10^21 and above: JavaScript then prints the number unrounded in exponent form, while `ToFixed` still rounds it. Every double that large is already an integer, so the two agree on every value a double can hold.
- Recipe.Resolve: requires a non-zero baker factor. In JavaScript a zero factor would give Infinity or NaN weights. The page can never produce one, because its percentages are at least 0.
- `tailwind.config.cjs` and `vite.config.ts`. They are build and style configuration.
