/** The scenario assumption record ("advanced controls") and the closed-form
    formulas the integration steps use to rewrite its fields. */
module Assumptions {
  import opened Scalars

  /** The record fields the building integration reads or writes; every
      other field of the record is an `OtherField`. */
  datatype Field =
    | ConvAnnualEnergyUsed
    | SolnAnnualEnergyUsed
    | SolnEnergyEfficiencyFactor
    | SolnFuelEfficiencyFactor
    | ConvFuelConsumedPerFunit
    | OtherField(name: string)

  /** An assumption record. A field absent from the map is unset: reading
      it is allowed, computing with it is not. */
  type Record = map<Field, real>

  /** The record with the given fields overridden (`update_ac`): overridden
      fields take the new values, every other field keeps its value. */
  function WithOverrides(ac: Record, changes: map<Field, real>): (r: Record)
    ensures r.Keys == ac.Keys + changes.Keys
    ensures forall f :: f in changes ==> r[f] == changes[f]
    ensures forall f :: f in ac && f !in changes ==> r[f] == ac[f]
  {
    ac + changes
  }

  /** Post-integration energy used: the pre-integration value moved towards
      the conventional value by the fraction r. */
  function IntegratedEnergyUsed(conv: real, pre: real, r: real): (e: real)
    ensures e == pre + (conv - pre) * r
    ensures r == 0.0 ==> e == pre
    ensures r == 1.0 ==> e == conv
  {
    conv - (conv - pre) * (1.0 - r)
  }

  /** Post-integration efficiency factor: the factor reduced by the
      fraction r. */
  function IntegratedFactor(factor: real, r: real): (g: real)
    ensures r == 0.0 ==> g == factor
    ensures factor - g == factor * r
  {
    factor * (1.0 - r)
  }

  /** For r in [0, 1] the integrated energy used lies between the
      pre-integration and the conventional value. */
  lemma EnergyUsedBetween(conv: real, pre: real, r: real)
    requires 0.0 <= r <= 1.0
    ensures var e := IntegratedEnergyUsed(conv, pre, r);
            && (pre <= conv ==> pre <= e <= conv)
            && (conv <= pre ==> conv <= e <= pre)
  {
    BetweenEnds(conv, pre, conv - pre, 1.0 - r, IntegratedEnergyUsed(conv, pre, r));
  }

  lemma BetweenEnds(conv: real, pre: real, x: real, t: real, e: real)
    requires x == conv - pre && 0.0 <= t <= 1.0
    requires e == conv - x * t
    ensures pre <= conv ==> pre <= e <= conv
    ensures conv <= pre ==> conv <= e <= pre
  {
    if 0.0 <= x {
      NonNegProduct(x, t);
      NonNegProduct(x, 1.0 - t);
      assert x * (1.0 - t) == x - x * t;
    } else {
      NonNegProduct(-x, t);
      NonNegProduct(-x, 1.0 - t);
      assert (-x) * t == -(x * t);
      assert (-x) * (1.0 - t) == x * t - x;
    }
  }

  /** For r in [0, 1] a non-negative factor stays non-negative and does not
      grow. */
  lemma FactorBetween(factor: real, r: real)
    requires 0.0 <= r <= 1.0 && 0.0 <= factor
    ensures 0.0 <= IntegratedFactor(factor, r) <= factor
  {
    ScaleByFraction(factor, r);
  }

  /** Integrating the energy used twice with the same fraction compounds it:
      the remaining gap to the conventional value is scaled by (1 - r)^2. */
  lemma EnergyUsedTwice(conv: real, pre: real, r: real)
    ensures IntegratedEnergyUsed(conv, IntegratedEnergyUsed(conv, pre, r), r)
            == conv - (conv - pre) * ((1.0 - r) * (1.0 - r))
  {
    var t := 1.0 - r;
    var once := IntegratedEnergyUsed(conv, pre, r);
    assert conv - once == (conv - pre) * t;
    assert (conv - pre) * t * t == (conv - pre) * (t * t);
  }

  /** Integrating a factor twice with the same fraction scales it by (1 - r)^2. */
  lemma FactorTwice(factor: real, r: real)
    ensures IntegratedFactor(IntegratedFactor(factor, r), r) == factor * ((1.0 - r) * (1.0 - r))
  {
    var t := 1.0 - r;
    assert factor * t * t == factor * (t * t);
  }

  // Building automation: electricity end-use shares and lighting impact.
  const HeatingCoolingShare: real := 0.296
  const LightingShare: real := 0.236
  const LightingEnergyImpact: real := 0.326

  /** Integrated electrical efficiency factor of building automation, from
      the pre-integration factor e and the heating/cooling reduction a: the
      end uses other than heating, cooling and lighting keep e, heating and
      cooling get 1 - a, lighting gets 1 - LightingEnergyImpact. */
  function AutomationElectricalFactor(e: real, a: real): (x: real)
    ensures x - e == HeatingCoolingShare * ((1.0 - a) - e)
                     + LightingShare * ((1.0 - LightingEnergyImpact) - e)
  {
    e * (1.0 - HeatingCoolingShare - LightingShare)
      + HeatingCoolingShare * (1.0 - a)
      + LightingShare * (1.0 - LightingEnergyImpact)
  }

  /** The three shares are weights summing to 1, so the factor is a weighted
      average and lies between the smallest and largest of e, 1 - a and
      1 - LightingEnergyImpact. */
  lemma AutomationFactorBetween(e: real, a: real)
    ensures var x := AutomationElectricalFactor(e, a);
            Min3(e, 1.0 - a, 1.0 - LightingEnergyImpact) <= x <= Max3(e, 1.0 - a, 1.0 - LightingEnergyImpact)
  {
  }

  /** For a fixed e, the factor decreases as the reduction grows, at the
      rate of the heating/cooling share. */
  lemma AutomationFactorDecreasing(e: real, a1: real, a2: real)
    ensures AutomationElectricalFactor(e, a1) - AutomationElectricalFactor(e, a2)
            == HeatingCoolingShare * (a2 - a1)
    ensures a1 <= a2 ==> AutomationElectricalFactor(e, a2) <= AutomationElectricalFactor(e, a1)
  {
  }

  /** With a reduction equal to the lighting impact, the factor is left
      unchanged exactly when it already equals 1 - LightingEnergyImpact. */
  lemma AutomationFactorFixedPoint(e: real)
    ensures AutomationElectricalFactor(e, LightingEnergyImpact) == e <==> e == 1.0 - LightingEnergyImpact
  {
  }
}
