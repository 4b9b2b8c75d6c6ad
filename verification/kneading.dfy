/**
 The kneading planner: from the hydration and the flour's protein content
 it recommends a hand-kneading time, times for a planetary mixer and a
 hand mixer, and a schedule of stretch-and-fold rounds.
 */
module Kneading {
  import opened JsNumber

  /** The three times before `Math.round`, in minutes. */
  datatype KneadTimes = KneadTimes(knead: real, planetary: real, handMixer: real)

  /** What the planner returns. */
  datatype KneadingPlan = KneadingPlan(
    kneadMinutes: int,
    planetary: int,
    handMixer: int,
    folds: int,
    foldInterval: int,
    totalFoldTime: int,
    wetDough: bool)

  /** Hydration at and above which a dough counts as wet. */
  const WetHydration: real := 67.0

  /** Minutes added per point of hydration above 60. */
  function HydrationFactor(hydration: real): real {
    Max(0.0, hydration - 60.0) * 0.35
  }

  /** Minutes added per point of protein above 11. */
  function ProteinFactor(protein: real): real {
    Max(0.0, protein - 11.0) * 0.8
  }

  /** The unrounded times: hand kneading within [6, 22], the planetary
      mixer within [4, 15] and the hand mixer within [5, 18]. Below the
      ceiling, kneading is 6 minutes plus 0.35 per point of hydration above
      60 and 0.8 per point of protein above 11; each mixer gets its share
      of the kneading time (0.55 and 0.75) once that clears its floor. */
  function RawTimes(hydration: real, protein: real): (t: KneadTimes)
    ensures 6.0 <= t.knead <= 22.0
    ensures 4.0 <= t.planetary <= 15.0
    ensures 5.0 <= t.handMixer <= 18.0
    ensures hydration <= 60.0 && protein <= 11.0 ==> t.knead == 6.0
    ensures var k := 6.0 + (hydration - 60.0) * 0.35 + (protein - 11.0) * 0.8;
            hydration >= 60.0 && protein >= 11.0 && k <= 22.0 ==> t.knead == k
    ensures var k := 6.0 + Max(0.0, hydration - 60.0) * 0.35 + Max(0.0, protein - 11.0) * 0.8;
            (k <= 22.0 ==> t.knead == k) && (k >= 22.0 ==> t.knead == 22.0)
    ensures 4.0 <= t.knead * 0.55 ==> t.planetary == t.knead * 0.55
    ensures t.knead * 0.55 < 4.0 ==> t.planetary == 4.0
    ensures 5.0 <= t.knead * 0.75 ==> t.handMixer == t.knead * 0.75
    ensures t.knead * 0.75 < 5.0 ==> t.handMixer == 5.0
  {
    var knead := Clamp(6.0 + HydrationFactor(hydration) + ProteinFactor(protein), 6.0, 22.0);
    KneadTimes(knead, Clamp(knead * 0.55, 4.0, 15.0), Clamp(knead * 0.75, 5.0, 18.0))
  }

  /** The `kneadingPlan` computation. Each time is its unrounded time
      rounded to the nearest minute, halves up, and keeps that time's
      bounds; the dough is wet exactly when the hydration is at least 67,
      and then gets three folds twelve minutes apart, otherwise two folds
      fifteen minutes apart; the folding takes the interval times one less
      than the number of folds. */
  function Plan(hydration: real, protein: real): (p: KneadingPlan)
    ensures var t := RawTimes(hydration, protein);
            t.knead - 0.5 < p.kneadMinutes as real <= t.knead + 0.5
            && t.planetary - 0.5 < p.planetary as real <= t.planetary + 0.5
            && t.handMixer - 0.5 < p.handMixer as real <= t.handMixer + 0.5
    ensures 6 <= p.kneadMinutes <= 22
    ensures 4 <= p.planetary <= 15
    ensures 5 <= p.handMixer <= 18
    ensures p.wetDough <==> hydration >= WetHydration
    ensures p.wetDough ==> p.folds == 3 && p.foldInterval == 12 && p.totalFoldTime == 24
    ensures !p.wetDough ==> p.folds == 2 && p.foldInterval == 15 && p.totalFoldTime == 15
    ensures p.totalFoldTime == (p.folds - 1) * p.foldInterval
  {
    var t := RawTimes(hydration, protein);
    var wetDough := hydration >= WetHydration;
    var folds := if wetDough then 3 else 2;
    var foldInterval := if wetDough then 12 else 15;
    MathRoundWithin(t.knead, 6, 22);
    MathRoundWithin(t.planetary, 4, 15);
    MathRoundWithin(t.handMixer, 5, 18);
    KneadingPlan(MathRound(t.knead), MathRound(t.planetary), MathRound(t.handMixer),
                 folds, foldInterval, (folds - 1) * foldInterval, wetDough)
  }

  /** More water or more protein never shortens the kneading, before or
      after rounding, and neither do the mixer times. */
  lemma KneadingNonDecreasing(h1: real, p1: real, h2: real, p2: real)
    requires h1 <= h2 && p1 <= p2
    ensures RawTimes(h1, p1).knead <= RawTimes(h2, p2).knead
    ensures RawTimes(h1, p1).planetary <= RawTimes(h2, p2).planetary
    ensures RawTimes(h1, p1).handMixer <= RawTimes(h2, p2).handMixer
    ensures Plan(h1, p1).kneadMinutes <= Plan(h2, p2).kneadMinutes
    ensures Plan(h1, p1).planetary <= Plan(h2, p2).planetary
    ensures Plan(h1, p1).handMixer <= Plan(h2, p2).handMixer
  {
    var t1, t2 := RawTimes(h1, p1), RawTimes(h2, p2);
    var s1 := 6.0 + HydrationFactor(h1) + ProteinFactor(p1);
    var s2 := 6.0 + HydrationFactor(h2) + ProteinFactor(p2);
    assert s1 <= s2;
    ClampMonotone(s1, s2, 6.0, 22.0);
    ClampMonotone(t1.knead * 0.55, t2.knead * 0.55, 4.0, 15.0);
    ClampMonotone(t1.knead * 0.75, t2.knead * 0.75, 5.0, 18.0);
    MathRoundMonotone(t1.knead, t2.knead);
    MathRoundMonotone(t1.planetary, t2.planetary);
    MathRoundMonotone(t1.handMixer, t2.handMixer);
  }

  /** Above 60 % hydration every extra point of water lengthens the
      kneading strictly, until the 22-minute ceiling. */
  lemma KneadingStrictInHydration(h1: real, h2: real, protein: real)
    requires 60.0 <= h1 < h2
    requires RawTimes(h1, protein).knead < 22.0
    ensures RawTimes(h1, protein).knead < RawTimes(h2, protein).knead
  {
  }

  /** The mixers' upper clamps never act: the kneading time is at most 22,
      so the planetary mixer gets at most 12.1 minutes (12 after rounding)
      and the hand mixer at most 16.5 (17 after rounding). */
  lemma MixerCeilingsUnreached(hydration: real, protein: real)
    ensures RawTimes(hydration, protein).planetary <= 12.1
    ensures RawTimes(hydration, protein).handMixer <= 16.5
    ensures Plan(hydration, protein).planetary <= 12
    ensures Plan(hydration, protein).handMixer <= 17
  {
    var t := RawTimes(hydration, protein);
    MathRoundMonotone(t.planetary, 12.1);
    MathRoundMonotone(t.handMixer, 16.5);
  }

  /** 60 % hydration and 11 % protein add nothing: every time sits on its
      floor (6 * 0.55 = 3.3 is raised to 4, 6 * 0.75 = 4.5 to 5) and the
      dough is dry. */
  lemma BaselinePlan()
    ensures Plan(60.0, 11.0) == KneadingPlan(6, 4, 5, 2, 15, 15, false)
  {
  }

  /** The wet branch starts exactly at 67 %. */
  lemma WetBoundary(protein: real)
    ensures Plan(67.0, protein).wetDough && Plan(67.0, protein).folds == 3
    ensures !Plan(66.999, protein).wetDough && Plan(66.999, protein).folds == 2
  {
  }
}
