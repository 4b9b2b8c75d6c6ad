/**
 The recipe resolver: the total dough mass (a fixed 250 g per ball) and
 four baker's percentages, each relative to the flour weight, are turned
 into absolute weights. Flour is solved for from
 total = flour * (1 + (hydration + salt + oil + yeast) / 100)
 and every other ingredient is its percentage of the flour.
 */
module Recipe {

  /** Grams of dough per ball. */
  const BallWeight: real := 250.0

  /** Baker's percentages: each ingredient as a percentage of the flour. */
  datatype Percentages = Percentages(hydration: real, salt: real, oil: real, yeast: real) {
    predicate NonNegative() {
      hydration >= 0.0 && salt >= 0.0 && oil >= 0.0 && yeast >= 0.0
    }
  }

  /** Absolute weights in grams. */
  datatype Weights = Weights(flour: real, water: real, salt: real, oil: real, yeast: real) {
    function Total(): real {
      flour + water + salt + oil + yeast
    }
  }

  /** `balls * 250`: at least one ball (the input's minimum) makes at least
      250 g, and the mass is proportional to the ball count. */
  function TotalDoughWeight(balls: real): (t: real)
    ensures balls >= 1.0 ==> t >= BallWeight
    ensures t / BallWeight == balls
  {
    balls * BallWeight
  }

  /** The divisor: the dough's weight per unit of flour. */
  function BakerFactor(p: Percentages): real {
    1.0 + p.hydration / 100.0 + p.salt / 100.0 + p.oil / 100.0 + p.yeast / 100.0
  }

  /** The weights of a recipe of the given total mass with the given
      percentages: they add up to the total exactly, every ingredient but
      flour is its percentage of the flour, and with non-negative inputs no
      weight is negative and the flour is at most the total. */
  function Resolve(total: real, p: Percentages): (w: Weights)
    requires BakerFactor(p) != 0.0
    ensures w.Total() == total
    ensures w.water == w.flour * p.hydration / 100.0
    ensures w.salt == w.flour * p.salt / 100.0
    ensures w.oil == w.flour * p.oil / 100.0
    ensures w.yeast == w.flour * p.yeast / 100.0
    ensures p.NonNegative() && total >= 0.0 ==>
              0.0 <= w.flour <= total && w.water >= 0.0 && w.salt >= 0.0 && w.oil >= 0.0 && w.yeast >= 0.0
  {
    var flour := total / BakerFactor(p);
    var w := Weights(flour, flour * p.hydration / 100.0, flour * p.salt / 100.0,
                     flour * p.oil / 100.0, flour * p.yeast / 100.0);
    ResolveAddsUp(total, p, flour);
    ResolveNonNegative(total, p, flour);
    w
  }

  lemma ResolveAddsUp(total: real, p: Percentages, flour: real)
    requires BakerFactor(p) != 0.0 && flour == total / BakerFactor(p)
    ensures flour + flour * p.hydration / 100.0 + flour * p.salt / 100.0
            + flour * p.oil / 100.0 + flour * p.yeast / 100.0 == total
  {
    var f := BakerFactor(p);
    assert flour * f == total;
    assert flour + flour * p.hydration / 100.0 + flour * p.salt / 100.0
           + flour * p.oil / 100.0 + flour * p.yeast / 100.0 == flour * f;
  }

  lemma ResolveNonNegative(total: real, p: Percentages, flour: real)
    requires BakerFactor(p) != 0.0 && flour == total / BakerFactor(p)
    ensures p.NonNegative() && total >= 0.0 ==>
              0.0 <= flour <= total && flour * p.hydration / 100.0 >= 0.0 && flour * p.salt / 100.0 >= 0.0
              && flour * p.oil / 100.0 >= 0.0 && flour * p.yeast / 100.0 >= 0.0
  {
    if p.NonNegative() && total >= 0.0 {
      var f := BakerFactor(p);
      assert f >= 1.0;
      assert flour * f == total;
      assert flour * 1.0 <= flour * f;
    }
  }

  /** The percentages a recipe realises, each ingredient over the flour. */
  function PercentagesOf(w: Weights): Percentages
    requires w.flour != 0.0
  {
    Percentages(w.water * 100.0 / w.flour, w.salt * 100.0 / w.flour,
                w.oil * 100.0 / w.flour, w.yeast * 100.0 / w.flour)
  }

  /** Resolving then reading the percentages back gives the percentages
      that were asked for: the resolver inverts the baker's convention. */
  lemma {:induction false} ResolveThenPercentages(total: real, p: Percentages)
    requires BakerFactor(p) != 0.0 && total != 0.0
    ensures Resolve(total, p).flour != 0.0
    ensures PercentagesOf(Resolve(total, p)) == p
  {
    var w := Resolve(total, p);
    FlourOfNonZeroTotal(w, p, total);
    ReadBack(w, p);
  }

  /** Weights in which every ingredient is its percentage of the flour
      and which add up to a non-zero total have some flour. */
  lemma FlourOfNonZeroTotal(w: Weights, p: Percentages, total: real)
    requires w.Total() == total && total != 0.0
    requires w.water == w.flour * p.hydration / 100.0 && w.salt == w.flour * p.salt / 100.0
    requires w.oil == w.flour * p.oil / 100.0 && w.yeast == w.flour * p.yeast / 100.0
    ensures w.flour != 0.0
  {
  }

  /** Reading the percentages of weights built from p gives p. */
  lemma ReadBack(w: Weights, p: Percentages)
    requires w.flour != 0.0
    requires w.water == w.flour * p.hydration / 100.0 && w.salt == w.flour * p.salt / 100.0
    requires w.oil == w.flour * p.oil / 100.0 && w.yeast == w.flour * p.yeast / 100.0
    ensures PercentagesOf(w) == p
  {
    RatioBack(w.flour, p.hydration);
    RatioBack(w.flour, p.salt);
    RatioBack(w.flour, p.oil);
    RatioBack(w.flour, p.yeast);
  }

  lemma RatioBack(flour: real, pct: real)
    requires flour != 0.0
    ensures flour * pct / 100.0 * 100.0 / flour == pct
  {
    assert flour * pct / 100.0 * 100.0 == flour * pct;
  }

  /** Conversely, any recipe with flour in it and a non-zero total is the
      one the resolver produces from its own total and percentages. */
  lemma {:induction false} PercentagesThenResolve(w: Weights)
    requires w.flour != 0.0 && w.Total() != 0.0
    ensures BakerFactor(PercentagesOf(w)) != 0.0
    ensures Resolve(w.Total(), PercentagesOf(w)) == w
  {
    var p := PercentagesOf(w);
    FlourFromTotal(w);
    ResolveFromFlour(w.Total(), p, w.flour);
    RebuildFromPercentages(w);
  }

  /** The total over the factor of its own percentages is the flour. */
  lemma FlourFromTotal(w: Weights)
    requires w.flour != 0.0 && w.Total() != 0.0
    ensures BakerFactor(PercentagesOf(w)) != 0.0
    ensures w.Total() / BakerFactor(PercentagesOf(w)) == w.flour
  {
    FactorTimesFlour(w);
    QuotientOfProduct(w.flour, BakerFactor(PercentagesOf(w)), w.Total());
  }

  /** The resolver's weights once its flour is known. */
  lemma ResolveFromFlour(total: real, p: Percentages, flour: real)
    requires BakerFactor(p) != 0.0 && total / BakerFactor(p) == flour
    ensures Resolve(total, p) == Weights(flour, flour * p.hydration / 100.0, flour * p.salt / 100.0,
                                         flour * p.oil / 100.0, flour * p.yeast / 100.0)
  {
  }

  /** Each ingredient recomputed from the flour and its own percentage is
      the ingredient. */
  lemma RebuildFromPercentages(w: Weights)
    requires w.flour != 0.0
    ensures var p := PercentagesOf(w);
            Weights(w.flour, w.flour * p.hydration / 100.0, w.flour * p.salt / 100.0,
                    w.flour * p.oil / 100.0, w.flour * p.yeast / 100.0) == w
  {
    RatioForth(w.flour, w.water);
    RatioForth(w.flour, w.salt);
    RatioForth(w.flour, w.oil);
    RatioForth(w.flour, w.yeast);
  }

  /** A non-zero total that is flour times f gives back the flour when
      divided by f, and f is not zero. */
  lemma QuotientOfProduct(flour: real, f: real, total: real)
    requires flour * f == total && total != 0.0
    ensures f != 0.0 && total / f == flour
  {
  }

  /** The flour times the factor of its own percentages is the total. */
  lemma FactorTimesFlour(w: Weights)
    requires w.flour != 0.0
    ensures w.flour * BakerFactor(PercentagesOf(w)) == w.Total()
  {
    var p := PercentagesOf(w);
    RatioForth(w.flour, w.water);
    RatioForth(w.flour, w.salt);
    RatioForth(w.flour, w.oil);
    RatioForth(w.flour, w.yeast);
    assert w.flour * (p.hydration / 100.0) == w.water;
    assert w.flour * (p.salt / 100.0) == w.salt;
    assert w.flour * (p.oil / 100.0) == w.oil;
    assert w.flour * (p.yeast / 100.0) == w.yeast;
  }

  lemma RatioForth(flour: real, part: real)
    requires flour != 0.0
    ensures flour * (part * 100.0 / flour) / 100.0 == part
  {
    assert part * 100.0 / flour * flour == part * 100.0;
  }

  /** The default form: 1000 g of dough at 62 % water, 2.8 % salt, 2 % oil
      and 0.2 % yeast. The factor is 1.67 and the flour about 598.8 g. */
  lemma SampleRecipe()
    ensures BakerFactor(Percentages(62.0, 2.8, 2.0, 0.2)) == 1.67
    ensures var w := Resolve(1000.0, Percentages(62.0, 2.8, 2.0, 0.2));
            598.80 < w.flour < 598.81 && 371.25 < w.water < 371.26 && w.Total() == 1000.0
  {
    var w := Resolve(1000.0, Percentages(62.0, 2.8, 2.0, 0.2));
    assert w.flour * 1.67 == 1000.0;
  }
}
