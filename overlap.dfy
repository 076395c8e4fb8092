/** Per-year adoption overlap between a downstream technology and the
    technologies upstream of it in the building integration chain. */
module Overlap {
  import opened Series
  import opened Scalars

  /** Number of storeys assumed for commercial buildings. */
  const CommercialStoreys: real := 1.58

  /** Roof-area figures are scaled down by a million before they are
      compared with floor areas. */
  const RoofAreaScale: real := 1000000.0

  /** Overlap of a roof technology (cool or green roofs) with insulation:
      the roof adoption that sits on residential roofs, times the share of
      residential floor area that is insulated. */
  function RoofOverlap(roofs: Series, roofRes: Series, roofTotal: Series,
                       insulation: Series, floorRes: Series): (o: Series)
    requires NonZero(roofTotal) && NonZero(floorRes)
    ensures o.Keys == roofs.Keys * roofRes.Keys * roofTotal.Keys * insulation.Keys * floorRes.Keys
  {
    map y | y in roofs && y in roofRes && y in roofTotal && y in insulation && y in floorRes ::
      roofs[y] * roofRes[y] / roofTotal[y] * insulation[y] / floorRes[y]
  }

  /** The part of the roof overlap that does not depend on the roof adoption:
      residential share of roof area times insulated share of floor area. */
  function RoofShare(roofRes: Series, roofTotal: Series, insulation: Series, floorRes: Series): Series
    requires NonZero(roofTotal) && NonZero(floorRes)
  {
    map y | y in roofRes && y in roofTotal && y in insulation && y in floorRes ::
      roofRes[y] / roofTotal[y] * (insulation[y] / floorRes[y])
  }

  /** Overlap of a technology measured against residential floor area with
      its upstream quantity: the upstream share of residential floor area
      times the adoption. Residential glass uses it with insulation as the
      upstream quantity, building automation with its candidate. */
  function FloorShareOverlap(upstream: Series, floorRes: Series, adoption: Series): (o: Series)
    requires NonZero(floorRes)
    ensures o.Keys == upstream.Keys * floorRes.Keys * adoption.Keys
  {
    map y | y in upstream && y in floorRes && y in adoption ::
      upstream[y] / floorRes[y] * adoption[y]
  }

  /** The roof-derived overlap candidate of building automation. Its
      residential roof area is divided by itself, so the ratio is always 1. */
  function AutomationRoofCandidate(coolRoofs: Series, greenRoofs: Series, roofRes: Series): (c: Series)
    requires NonZero(roofRes)
    ensures c.Keys == coolRoofs.Keys * greenRoofs.Keys * roofRes.Keys
    ensures forall y :: y in c && 0.0 <= coolRoofs[y] && 0.0 <= greenRoofs[y] ==> 0.0 <= c[y]
  {
    map y | y in coolRoofs && y in greenRoofs && y in roofRes ::
      (coolRoofs[y] + greenRoofs[y]) / RoofAreaScale * roofRes[y] / roofRes[y] * CommercialStoreys
  }

  /** Per-year largest of the three upstream candidates of building automation. */
  function AutomationCandidate(coolRoofs: Series, greenRoofs: Series, roofRes: Series,
                               commercialGlass: Series, insulation: Series): (c: Series)
    requires NonZero(roofRes)
    ensures c.Keys == coolRoofs.Keys * greenRoofs.Keys * roofRes.Keys * commercialGlass.Keys * insulation.Keys
    ensures forall y :: y in c ==> commercialGlass[y] <= c[y] && insulation[y] <= c[y]
  {
    var roof := AutomationRoofCandidate(coolRoofs, greenRoofs, roofRes);
    map y | y in roof && y in commercialGlass && y in insulation ::
      Max3(roof[y], commercialGlass[y], insulation[y])
  }

  // ---------------------------------------------------------------------
  // Properties

  /** The roof overlap holds exactly the years all five inputs hold, and
      divided by the roof adoption it is the roof share for that year. */
  lemma RoofOverlapRatio(roofs: Series, roofRes: Series, roofTotal: Series,
                         insulation: Series, floorRes: Series, y: int)
    requires NonZero(roofTotal) && NonZero(floorRes)
    ensures var o := RoofOverlap(roofs, roofRes, roofTotal, insulation, floorRes);
            var share := RoofShare(roofRes, roofTotal, insulation, floorRes);
            && (y in o <==> y in roofs && y in share)
            && (y in o ==> o[y] == roofs[y] * share[y])
  {
    if y in roofs && y in roofRes && y in roofTotal && y in insulation && y in floorRes {
      Reassociate(roofs[y], roofRes[y], roofTotal[y], insulation[y], floorRes[y]);
    }
  }

  lemma Reassociate(x: real, a: real, b: real, c: real, d: real)
    requires b != 0.0 && d != 0.0
    ensures x * a / b * c / d == x * (a / b * (c / d))
  {
    MulDiv(x, a, b);
    MulDiv(x * (a / b), c, d);
    assert x * (a / b) * (c / d) == x * (a / b * (c / d));
  }

  /** The floor-share overlap divided by the adoption is the upstream share
      of residential floor area for that year. */
  lemma FloorShareOverlapRatio(upstream: Series, floorRes: Series, adoption: Series, y: int)
    requires NonZero(floorRes)
    ensures var o := FloorShareOverlap(upstream, floorRes, adoption);
            && (y in o <==> y in upstream && y in floorRes && y in adoption)
            && (y in o ==> o[y] == adoption[y] * (upstream[y] / floorRes[y]))
  {
  }

  /** Physical plausibility of the roof overlap: with non-negative adoptions,
      residential roof area within total roof area and insulation within
      residential floor area, the overlap lies between 0 and the roof adoption. */
  lemma RoofOverlapBound(roofs: Series, roofRes: Series, roofTotal: Series,
                         insulation: Series, floorRes: Series, y: int)
    requires NonZero(roofTotal) && NonZero(floorRes)
    requires y in roofs && y in roofRes && y in roofTotal && y in insulation && y in floorRes
    requires 0.0 <= roofs[y]
    requires 0.0 <= roofRes[y] <= roofTotal[y]
    requires 0.0 <= insulation[y] <= floorRes[y]
    ensures var o := RoofOverlap(roofs, roofRes, roofTotal, insulation, floorRes);
            y in o && 0.0 <= o[y] <= roofs[y]
  {
    var o := RoofOverlap(roofs, roofRes, roofTotal, insulation, floorRes);
    var x, a, b, c, d := roofs[y], roofRes[y], roofTotal[y], insulation[y], floorRes[y];
    assert y in o && o[y] == x * a / b * c / d;
    RoofOverlapValueBounds(x, a, b, c, d);
  }

  lemma RoofOverlapValueBounds(x: real, a: real, b: real, c: real, d: real)
    requires 0.0 <= x
    requires 0.0 <= a <= b && b != 0.0
    requires 0.0 <= c <= d && d != 0.0
    ensures 0.0 <= x * a / b * c / d <= x
  {
    assert x * a / b * c / d == x * (a / b * (c / d)) by {
      Reassociate(x, a, b, c, d);
    }
    assert 0.0 <= a / b * (c / d) <= 1.0 by {
      ShareBounds(a, b, c, d);
    }
    ScaleByFraction(x, a / b * (c / d));
  }

  lemma ShareBounds(a: real, b: real, c: real, d: real)
    requires 0.0 <= a <= b && b != 0.0
    requires 0.0 <= c <= d && d != 0.0
    ensures 0.0 <= a / b * (c / d) <= 1.0
  {
    FractionBounds(a, b);
    FractionBounds(c, d);
    ProductOfFractions(a / b, c / d);
  }

  /** Physical plausibility of the floor-share overlap: with the upstream
      quantity within residential floor area and a non-negative adoption, the
      overlap lies between 0 and the adoption; when the adoption also lies
      within residential floor area, the overlap is at most the upstream
      quantity too. */
  lemma FloorShareOverlapBound(upstream: Series, floorRes: Series, adoption: Series, y: int)
    requires NonZero(floorRes)
    requires y in upstream && y in floorRes && y in adoption
    requires 0.0 <= upstream[y] <= floorRes[y]
    requires 0.0 <= adoption[y]
    ensures var o := FloorShareOverlap(upstream, floorRes, adoption);
            && y in o && 0.0 <= o[y] <= adoption[y]
            && (adoption[y] <= floorRes[y] ==> o[y] <= upstream[y])
  {
    var o := FloorShareOverlap(upstream, floorRes, adoption);
    var u, f, a := upstream[y], floorRes[y], adoption[y];
    assert o[y] == a * (u / f) && o[y] == u * (a / f) by {
      Commute(u, f, a);
    }
    assert 0.0 <= a * (u / f) <= a by {
      FractionBounds(u, f);
      ScaleByFraction(a, u / f);
    }
    if a <= f {
      assert u * (a / f) <= u by {
        FractionBounds(a, f);
        ScaleByFraction(u, a / f);
      }
    }
  }

  lemma Commute(i: real, f: real, g: real)
    requires f != 0.0
    ensures i / f * g == g * (i / f) == i * (g / f)
  {
    MulDiv(g, i, f);
    MulDiv(i, g, f);
    assert g * i == i * g;
  }

  /** The building-automation candidate is at least each of its three
      upstream quantities and equals one of them. */
  lemma AutomationCandidateIsMax(coolRoofs: Series, greenRoofs: Series, roofRes: Series,
                                 commercialGlass: Series, insulation: Series, y: int)
    requires NonZero(roofRes)
    requires y in coolRoofs && y in greenRoofs && y in roofRes && y in commercialGlass && y in insulation
    ensures var c := AutomationCandidate(coolRoofs, greenRoofs, roofRes, commercialGlass, insulation);
            var roof := AutomationRoofCandidate(coolRoofs, greenRoofs, roofRes);
            && y in c && y in roof
            && c[y] >= roof[y] && c[y] >= commercialGlass[y] && c[y] >= insulation[y]
            && (c[y] == roof[y] || c[y] == commercialGlass[y] || c[y] == insulation[y])
  {
  }

  /** The roof-derived candidate does not depend on the residential roof
      area: it is the combined cool and green roof adoption, scaled. */
  lemma AutomationRoofRatioIsOne(coolRoofs: Series, greenRoofs: Series, roofRes: Series, y: int)
    requires NonZero(roofRes)
    requires y in coolRoofs && y in greenRoofs && y in roofRes
    ensures var roof := AutomationRoofCandidate(coolRoofs, greenRoofs, roofRes);
            y in roof && roof[y] == (coolRoofs[y] + greenRoofs[y]) / RoofAreaScale * CommercialStoreys
  {
    var r := roofRes[y];
    var x := (coolRoofs[y] + greenRoofs[y]) / RoofAreaScale;
    assert x * r / r == x;
  }

  /** An example: insulation 100 and 110, cool roofs 50 and 55 over
      residential roof area 200 of 400 and residential floor area 1000 give
      overlaps 2.5 and 3.025. */
  lemma RoofOverlapExample()
    ensures RoofOverlap(map[2020 := 50.0, 2021 := 55.0],
                        map[2020 := 200.0, 2021 := 200.0],
                        map[2020 := 400.0, 2021 := 400.0],
                        map[2020 := 100.0, 2021 := 110.0],
                        map[2020 := 1000.0, 2021 := 1000.0])
            == map[2020 := 2.5, 2021 := 3.025]
  {
    var o := RoofOverlap(map[2020 := 50.0, 2021 := 55.0],
                         map[2020 := 200.0, 2021 := 200.0],
                         map[2020 := 400.0, 2021 := 400.0],
                         map[2020 := 100.0, 2021 := 110.0],
                         map[2020 := 1000.0, 2021 := 1000.0]);
    assert o.Keys == {2020, 2021};
    assert o[2020] == 2.5;
    assert o[2021] == 3.025;
  }
}
