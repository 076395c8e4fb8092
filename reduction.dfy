/** Reduction factors: the mean over 2020..2050 of overlap divided by
    downstream adoption, times an impact coefficient hard-coded for each
    pair of technologies. */
module Reduction {
  import opened Series
  import opened Overlap
  import opened Scalars

  // Impact coefficients hard-coded in the integration workbook.
  const InsulationReducesCoolRoofsHeatingPenalty: real := 0.75
  const InsulationReducesCoolRoofsElectricityImpact: real := 0.5
  const InsulationReducesGreenRoofsHeatingPenalty: real := 0.5
  const InsulationReducesGreenRoofsElectricityImpact: real := 0.5
  const InsulationReducesGlassElectricityImpact: real := 0.5
  const InsulationReducesGlassFuelImpact: real := 0.5
  const RoofGlassElectricityImpact: real := 0.5
  const RoofGlassFuelImpact: real := 0.5

  /** Overlap divided by adoption, for the window years both hold. */
  function WindowRatio(overlap: Series, adoption: Series): (ratio: Series)
    requires NonZeroInWindow(adoption)
    ensures forall y :: InWindow(y) && y in overlap && y in adoption ==> y in ratio
    ensures forall y :: y in ratio ==> && InWindow(y) && y in overlap && y in adoption
                                       && ratio[y] * adoption[y] == overlap[y]
  {
    map y | y in overlap && y in adoption && InWindow(y) :: overlap[y] / adoption[y]
  }

  /** The ratio can be averaged: no adoption of the window is zero and the
      window holds at least one year of both series. */
  predicate CanAverage(overlap: Series, adoption: Series) {
    && NonZeroInWindow(adoption)
    && exists y :: InWindow(y) && y in overlap && y in adoption
  }

  /** Mean over the window of overlap / adoption, times the coefficient: an
      overlap equal to the adoption in every window year gives the whole
      coefficient, an overlap of zero gives zero. */
  function AverageReduction(overlap: Series, adoption: Series, coefficient: real): (x: real)
    requires CanAverage(overlap, adoption)
    ensures (forall y :: InWindow(y) && y in overlap && y in adoption ==> overlap[y] == adoption[y])
            ==> x == coefficient
    ensures (forall y :: InWindow(y) && y in overlap && y in adoption ==> overlap[y] == 0.0)
            ==> x == 0.0
  {
    var ratio := WindowRatio(overlap, adoption);
    assert HasWindowYear(ratio) by {
      var y :| InWindow(y) && y in overlap && y in adoption;
      assert y in ratio;
    }
    ConstantRatioMean(overlap, adoption);
    WindowMean(ratio) * coefficient
  }

  /** A ratio that is 1 (or 0) in every window year has mean 1 (or 0). */
  lemma ConstantRatioMean(overlap: Series, adoption: Series)
    requires CanAverage(overlap, adoption)
    ensures var ratio := WindowRatio(overlap, adoption);
            && HasWindowYear(ratio)
            && ((forall y :: InWindow(y) && y in overlap && y in adoption ==> overlap[y] == adoption[y])
                ==> WindowMean(ratio) == 1.0)
            && ((forall y :: InWindow(y) && y in overlap && y in adoption ==> overlap[y] == 0.0)
                ==> WindowMean(ratio) == 0.0)
  {
    var ratio := WindowRatio(overlap, adoption);
    var y0 :| InWindow(y0) && y0 in overlap && y0 in adoption;
    assert y0 in ratio;
    if forall y :: InWindow(y) && y in overlap && y in adoption ==> overlap[y] == adoption[y] {
      forall y | y in ratio && InWindow(y)
        ensures ratio[y] == 1.0
      {
        assert ratio[y] == adoption[y] / adoption[y];
      }
      RatioMeanIs(ratio, 1.0);
    }
    if forall y :: InWindow(y) && y in overlap && y in adoption ==> overlap[y] == 0.0 {
      forall y | y in ratio && InWindow(y)
        ensures ratio[y] == 0.0
      {
        assert ratio[y] == 0.0 / adoption[y];
      }
      RatioMeanIs(ratio, 0.0);
    }
  }

  lemma RatioMeanIs(ratio: Series, k: real)
    requires HasWindowYear(ratio)
    requires forall y :: y in ratio && InWindow(y) ==> ratio[y] == k
    ensures WindowMean(ratio) == k
  {
    WindowMeanBounds(ratio, k, k);
  }

  // ---------------------------------------------------------------------
  // Properties

  /** The reduction is linear in the coefficient: scaling the coefficient by
      k scales the reduction by k, for the same overlap. */
  lemma ReductionLinear(overlap: Series, adoption: Series, coefficient: real, k: real)
    requires CanAverage(overlap, adoption)
    ensures AverageReduction(overlap, adoption, k * coefficient) == k * AverageReduction(overlap, adoption, coefficient)
  {
    var m := AverageReduction(overlap, adoption, 1.0);
    assert AverageReduction(overlap, adoption, k * coefficient) == m * (k * coefficient);
    assert AverageReduction(overlap, adoption, coefficient) == m * coefficient;
  }

  /** The cool-roofs fuel and electricity reductions come from the same mean
      ratio and stand in the proportion 0.75 : 0.5. */
  lemma CoolRoofsReductionProportion(overlap: Series, adoption: Series)
    requires CanAverage(overlap, adoption)
    ensures var fuel := AverageReduction(overlap, adoption, InsulationReducesCoolRoofsHeatingPenalty);
            var electricity := AverageReduction(overlap, adoption, InsulationReducesCoolRoofsElectricityImpact);
            2.0 * fuel == 3.0 * electricity
  {
    ReductionLinear(overlap, adoption, InsulationReducesCoolRoofsElectricityImpact, 1.5);
  }

  /** When the overlap never exceeds a positive adoption and is never
      negative, the mean ratio lies between 0 and 1. */
  lemma RatioMeanBounds(overlap: Series, adoption: Series)
    requires CanAverage(overlap, adoption)
    requires forall y :: InWindow(y) && y in overlap && y in adoption ==>
               0.0 < adoption[y] && 0.0 <= overlap[y] <= adoption[y]
    ensures var ratio := WindowRatio(overlap, adoption);
            HasWindowYear(ratio) && 0.0 <= WindowMean(ratio) <= 1.0
  {
    var ratio := WindowRatio(overlap, adoption);
    var y0 :| InWindow(y0) && y0 in overlap && y0 in adoption;
    assert y0 in ratio;
    forall y | y in ratio && InWindow(y)
      ensures 0.0 <= ratio[y] <= 1.0
    {
      FractionBounds(overlap[y], adoption[y]);
    }
    WindowMeanBounds(ratio, 0.0, 1.0);
  }

  /** Under the same conditions the reduction lies between 0 and the
      coefficient. */
  lemma ReductionBounds(overlap: Series, adoption: Series, coefficient: real)
    requires CanAverage(overlap, adoption)
    requires 0.0 <= coefficient
    requires forall y :: InWindow(y) && y in overlap && y in adoption ==>
               0.0 < adoption[y] && 0.0 <= overlap[y] <= adoption[y]
    ensures 0.0 <= AverageReduction(overlap, adoption, coefficient) <= coefficient
  {
    RatioMeanBounds(overlap, adoption);
    var m := WindowMean(WindowRatio(overlap, adoption));
    assert 0.0 <= m <= 1.0;
    FractionOfCoefficient(m, coefficient);
    assert AverageReduction(overlap, adoption, coefficient) == m * coefficient;
  }

  lemma FractionOfCoefficient(m: real, coefficient: real)
    requires 0.0 <= m <= 1.0 && 0.0 <= coefficient
    ensures 0.0 <= m * coefficient <= coefficient
  {
    ScaleByFraction(coefficient, m);
  }

  /** An overlap proportional to its adoption, year by year, with a share
      that does not depend on the adoption. */
  ghost predicate Proportional(overlap: Series, adoption: Series, share: Series) {
    forall y :: InWindow(y) ==>
      && (y in overlap <==> y in adoption && y in share)
      && (y in overlap ==> overlap[y] == adoption[y] * share[y])
  }

  lemma Cancel(x: real, s: real)
    requires x != 0.0
    ensures x * s / x == s
  {
  }

  /** Two adoptions holding the same window years, each with an overlap
      proportional to it through the same share, give the same reduction:
      the reduction does not depend on the downstream adoption figures. */
  lemma ProportionalReductionsAgree(overlap1: Series, adoption1: Series,
                                    overlap2: Series, adoption2: Series,
                                    share: Series, coefficient: real)
    requires CanAverage(overlap1, adoption1) && NonZeroInWindow(adoption2)
    requires Proportional(overlap1, adoption1, share) && Proportional(overlap2, adoption2, share)
    requires forall y :: InWindow(y) ==> (y in adoption1 <==> y in adoption2)
    ensures CanAverage(overlap2, adoption2)
    ensures AverageReduction(overlap1, adoption1, coefficient) == AverageReduction(overlap2, adoption2, coefficient)
  {
    var r1 := WindowRatio(overlap1, adoption1);
    var r2 := WindowRatio(overlap2, adoption2);
    assert CanAverage(overlap2, adoption2) by {
      var y0 :| InWindow(y0) && y0 in overlap1 && y0 in adoption1;
      assert y0 in overlap2 && y0 in adoption2;
    }
    assert HasWindowYear(r1) by {
      var y0 :| InWindow(y0) && y0 in overlap1 && y0 in adoption1;
      assert y0 in r1;
    }
    assert forall y :: InWindow(y) ==> (y in r1 <==> y in r2);
    forall y | y in r1 && InWindow(y)
      ensures r1[y] == r2[y]
    {
      RatioIsShare(overlap1, adoption1, share, y);
      RatioIsShare(overlap2, adoption2, share, y);
    }
    assert r1 == r2;
  }

  /** For a proportional overlap, the ratio at a window year is the share. */
  lemma RatioIsShare(overlap: Series, adoption: Series, share: Series, y: int)
    requires NonZeroInWindow(adoption) && Proportional(overlap, adoption, share)
    requires InWindow(y) && y in overlap
    ensures var r := WindowRatio(overlap, adoption);
            y in r && y in share && r[y] == share[y]
  {
    var r := WindowRatio(overlap, adoption);
    assert y in adoption && y in share;
    var a, o, sh := adoption[y], overlap[y], share[y];
    assert o == a * sh;
    assert y in r && r[y] == o / a;
    Cancel(a, sh);
  }

  /** The roof overlap is proportional to the roof adoption through the roof
      share. */
  lemma RoofOverlapProportional(roofs: Series, roofRes: Series, roofTotal: Series,
                                insulation: Series, floorRes: Series)
    requires NonZero(roofTotal) && NonZero(floorRes)
    ensures Proportional(RoofOverlap(roofs, roofRes, roofTotal, insulation, floorRes), roofs,
                         RoofShare(roofRes, roofTotal, insulation, floorRes))
  {
    forall y | InWindow(y) {
      RoofOverlapRatio(roofs, roofRes, roofTotal, insulation, floorRes, y);
    }
  }

  /** Roof reductions do not depend on the roof adoption: any two roof
      adoptions holding the same window years (cool roofs and green roofs,
      for one) give the same reduction for the same coefficient. */
  lemma RoofReductionIndependent(roofs1: Series, roofs2: Series, roofRes: Series, roofTotal: Series,
                                 insulation: Series, floorRes: Series, coefficient: real)
    requires NonZero(roofTotal) && NonZero(floorRes)
    requires CanAverage(RoofOverlap(roofs1, roofRes, roofTotal, insulation, floorRes), roofs1)
    requires NonZeroInWindow(roofs2)
    requires forall y :: InWindow(y) ==> (y in roofs1 <==> y in roofs2)
    ensures var o2 := RoofOverlap(roofs2, roofRes, roofTotal, insulation, floorRes);
            && CanAverage(o2, roofs2)
            && AverageReduction(RoofOverlap(roofs1, roofRes, roofTotal, insulation, floorRes), roofs1, coefficient)
               == AverageReduction(o2, roofs2, coefficient)
  {
    var share := RoofShare(roofRes, roofTotal, insulation, floorRes);
    RoofOverlapProportional(roofs1, roofRes, roofTotal, insulation, floorRes);
    RoofOverlapProportional(roofs2, roofRes, roofTotal, insulation, floorRes);
    ProportionalReductionsAgree(RoofOverlap(roofs1, roofRes, roofTotal, insulation, floorRes), roofs1,
                                RoofOverlap(roofs2, roofRes, roofTotal, insulation, floorRes), roofs2,
                                share, coefficient);
  }

  /** The floor-share overlap is proportional to the adoption through the
      upstream share of residential floor area. */
  lemma FloorShareOverlapProportional(upstream: Series, floorRes: Series, adoption: Series)
    requires NonZero(floorRes)
    ensures Proportional(FloorShareOverlap(upstream, floorRes, adoption), adoption,
                         map y | y in upstream && y in floorRes :: upstream[y] / floorRes[y])
  {
    forall y | InWindow(y) {
      FloorShareOverlapRatio(upstream, floorRes, adoption, y);
    }
  }

  /** The reduction of a floor-share overlap (residential glass, building
      automation) does not depend on the adoption itself. */
  lemma FloorShareReductionIndependent(upstream: Series, floorRes: Series,
                                       adoption1: Series, adoption2: Series, coefficient: real)
    requires NonZero(floorRes)
    requires CanAverage(FloorShareOverlap(upstream, floorRes, adoption1), adoption1)
    requires NonZeroInWindow(adoption2)
    requires forall y :: InWindow(y) ==> (y in adoption1 <==> y in adoption2)
    ensures var o2 := FloorShareOverlap(upstream, floorRes, adoption2);
            && CanAverage(o2, adoption2)
            && AverageReduction(FloorShareOverlap(upstream, floorRes, adoption1), adoption1, coefficient)
               == AverageReduction(o2, adoption2, coefficient)
  {
    var share := map y | y in upstream && y in floorRes :: upstream[y] / floorRes[y];
    FloorShareOverlapProportional(upstream, floorRes, adoption1);
    FloorShareOverlapProportional(upstream, floorRes, adoption2);
    ProportionalReductionsAgree(FloorShareOverlap(upstream, floorRes, adoption1), adoption1,
                                FloorShareOverlap(upstream, floorRes, adoption2), adoption2,
                                share, coefficient);
  }
}
