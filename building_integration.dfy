/** The building integration chain: each step loads a solution scenario,
    derives reduction factors from the adoption overlap with upstream
    technologies, overrides two fields of the scenario's assumption record,
    and asks the scenario for its energy saving. `integrate` runs the
    space-conditioning steps in order and adds their savings. */
module BuildingIntegration {
  import opened Series
  import opened Scalars
  import opened Overlap
  import opened Reduction
  import opened Assumptions

  datatype Solution =
    | Insulation
    | CoolRoofs
    | GreenRoofs
    | ResidentialGlass
    | SmartGlass
    | BuildingAutomation

  /** The scenario a solution is loaded with: its default one, or a named one. */
  datatype Pathway = DefaultPathway | Named(name: string)

  datatype ScenarioKey = ScenarioKey(solution: Solution, pathway: Pathway)

  /** The scenario every step but insulation loads (`ds.pds.upper()`). */
  const Pds: string := "PDS1"

  /** The persisted assumption records, one per loadable scenario. */
  type Store = map<ScenarioKey, Record>

  datatype Error =
    | UnknownScenario(key: ScenarioKey)
    | MissingField(key: ScenarioKey, field: Field)

  datatype Result<T> = Success(value: T) | Failure(error: Error)

  datatype Option<T> = None | Some(value: T)

  /** Adoption and TAM series the integration reads. */
  datatype Inputs = Inputs(
    insulation: Series,
    coolRoofs: Series,
    greenRoofs: Series,
    residentialGlass: Series,
    commercialGlass: Series,
    buildingAutomation: Series,
    roofAreaResidential: Series,
    roofAreaTotal: Series,
    floorAreaResidential: Series)

  /** Energy saving of a scenario given its assumption record. */
  type Engine = (ScenarioKey, Record) -> Series

  datatype Step =
    | InsulationStep
    | CoolRoofsStep
    | GreenRoofsStep
    | ResidentialGlassStep
    | CommercialGlassStep
    | BuildingAutomationStep

  /** The scenario each step loads. The commercial-glass step loads the
      smart-glass solution; insulation is loaded with its default scenario. */
  function StepKey(step: Step): (key: ScenarioKey)
    ensures key.pathway == DefaultPathway <==> step == InsulationStep
    ensures key.pathway != DefaultPathway ==> key.pathway.name == Pds
    ensures key.solution == SmartGlass <==> step == CommercialGlassStep
  {
    match step
    case InsulationStep => ScenarioKey(Insulation, DefaultPathway)
    case CoolRoofsStep => ScenarioKey(CoolRoofs, Named(Pds))
    case GreenRoofsStep => ScenarioKey(GreenRoofs, Named(Pds))
    case ResidentialGlassStep => ScenarioKey(ResidentialGlass, Named(Pds))
    case CommercialGlassStep => ScenarioKey(SmartGlass, Named(Pds))
    case BuildingAutomationStep => ScenarioKey(BuildingAutomation, Named(Pds))
  }

  /** The record fields a step computes with, in the order it first computes
      with them. */
  function Reads(step: Step): seq<Field> {
    match step
    case CoolRoofsStep | GreenRoofsStep =>
      [SolnEnergyEfficiencyFactor, ConvAnnualEnergyUsed, SolnAnnualEnergyUsed]
    case ResidentialGlassStep =>
      [ConvAnnualEnergyUsed, SolnAnnualEnergyUsed, SolnFuelEfficiencyFactor]
    case BuildingAutomationStep =>
      [SolnEnergyEfficiencyFactor, SolnFuelEfficiencyFactor]
    case InsulationStep | CommercialGlassStep => []
  }

  /** The record fields a step overrides. */
  function Writes(step: Step): set<Field> {
    match step
    case CoolRoofsStep | GreenRoofsStep | ResidentialGlassStep =>
      {SolnAnnualEnergyUsed, SolnFuelEfficiencyFactor}
    case BuildingAutomationStep =>
      {SolnFuelEfficiencyFactor, SolnEnergyEfficiencyFactor}
    case InsulationStep | CommercialGlassStep => {}
  }

  // ---------------------------------------------------------------------
  // Overlaps and reduction factors of each step

  function RoofOverlapOf(d: Inputs, roofs: Series): Series
    requires NonZero(d.roofAreaTotal) && NonZero(d.floorAreaResidential)
  {
    RoofOverlap(roofs, d.roofAreaResidential, d.roofAreaTotal, d.insulation, d.floorAreaResidential)
  }

  function GlassOverlapOf(d: Inputs): Series
    requires NonZero(d.floorAreaResidential)
  {
    FloorShareOverlap(d.insulation, d.floorAreaResidential, d.residentialGlass)
  }

  function AutomationCandidateOf(d: Inputs): Series
    requires NonZero(d.roofAreaResidential)
  {
    AutomationCandidate(d.coolRoofs, d.greenRoofs, d.roofAreaResidential, d.commercialGlass, d.insulation)
  }

  function AutomationOverlapOf(d: Inputs): Series
    requires NonZero(d.roofAreaResidential) && NonZero(d.floorAreaResidential)
  {
    FloorShareOverlap(AutomationCandidateOf(d), d.floorAreaResidential, d.buildingAutomation)
  }

  /** The adoption a step averages its overlap over. */
  function StepAdoption(step: Step, d: Inputs): Series {
    match step
    case CoolRoofsStep => d.coolRoofs
    case GreenRoofsStep => d.greenRoofs
    case ResidentialGlassStep => d.residentialGlass
    case BuildingAutomationStep => d.buildingAutomation
    case InsulationStep | CommercialGlassStep => map[]
  }

  /** The TAM series a step divides by hold no zero. */
  predicate Divisible(step: Step, d: Inputs) {
    match step
    case CoolRoofsStep | GreenRoofsStep => NonZero(d.roofAreaTotal) && NonZero(d.floorAreaResidential)
    case ResidentialGlassStep => NonZero(d.floorAreaResidential)
    case BuildingAutomationStep => NonZero(d.roofAreaResidential) && NonZero(d.floorAreaResidential)
    case InsulationStep | CommercialGlassStep => true
  }

  /** The adoption overlap of a step with its upstream technologies. */
  function StepOverlap(step: Step, d: Inputs): Series
    requires Divisible(step, d)
  {
    match step
    case CoolRoofsStep | GreenRoofsStep => RoofOverlapOf(d, StepAdoption(step, d))
    case ResidentialGlassStep => GlassOverlapOf(d)
    case BuildingAutomationStep => AutomationOverlapOf(d)
    case InsulationStep | CommercialGlassStep => map[]
  }

  /** The steps that rewrite their record average an overlap ratio. */
  predicate Averages(step: Step) {
    step != InsulationStep && step != CommercialGlassStep
  }

  /** The divisions of a step are defined: its TAM divisors hold no zero,
      its adoption holds no zero in the window, and overlap and adoption
      share a window year. */
  predicate Ready(step: Step, d: Inputs) {
    && Divisible(step, d)
    && (Averages(step) ==> CanAverage(StepOverlap(step, d), StepAdoption(step, d)))
  }

  datatype Reductions = Reductions(fuel: real, electricity: real)

  /** The impact coefficients of each step, hard-coded in the workbook. */
  function Coefficients(step: Step): (c: Reductions)
    ensures 0.0 <= c.fuel <= 1.0 && 0.0 <= c.electricity <= 1.0
    ensures Averages(step) <==> c.fuel != 0.0
  {
    match step
    case CoolRoofsStep =>
      Reductions(InsulationReducesCoolRoofsHeatingPenalty, InsulationReducesCoolRoofsElectricityImpact)
    case GreenRoofsStep =>
      Reductions(InsulationReducesGreenRoofsHeatingPenalty, InsulationReducesGreenRoofsElectricityImpact)
    case ResidentialGlassStep =>
      Reductions(InsulationReducesGlassFuelImpact, InsulationReducesGlassElectricityImpact)
    case BuildingAutomationStep =>
      Reductions(RoofGlassFuelImpact, RoofGlassElectricityImpact)
    case InsulationStep | CommercialGlassStep => Reductions(0.0, 0.0)
  }

  /** The fuel and electricity reduction factors of a step. */
  function StepReductions(step: Step, d: Inputs): (r: Reductions)
    requires Ready(step, d)
    ensures !Averages(step) ==> r == Reductions(0.0, 0.0)
  {
    if !Averages(step) then Reductions(0.0, 0.0)
    else
      var o, a, c := StepOverlap(step, d), StepAdoption(step, d), Coefficients(step);
      Reductions(AverageReduction(o, a, c.fuel), AverageReduction(o, a, c.electricity))
  }

  /** The fuel and electricity reductions of a step come from one mean
      ratio: they stand in the proportion of the step's coefficients. */
  lemma ReductionsProportional(step: Step, d: Inputs)
    requires Ready(step, d)
    ensures var r, c := StepReductions(step, d), Coefficients(step);
            r.fuel * c.electricity == r.electricity * c.fuel
  {
    if Averages(step) {
      var o, a, c := StepOverlap(step, d), StepAdoption(step, d), Coefficients(step);
      var m := AverageReduction(o, a, 1.0);
      ReductionLinear(o, a, 1.0, c.fuel);
      ReductionLinear(o, a, 1.0, c.electricity);
      assert c.fuel * 1.0 == c.fuel && c.electricity * 1.0 == c.electricity;
      assert (c.fuel * m) * c.electricity == (c.electricity * m) * c.fuel;
    }
  }

  // ---------------------------------------------------------------------
  // Record rewrite

  /** The first of the fields that the record leaves unset, if any. */
  function FirstMissing(ac: Record, fields: seq<Field>): (m: Option<Field>)
    ensures m.None? <==> forall i :: 0 <= i < |fields| ==> fields[i] in ac
    ensures m.Some? ==> exists i :: && 0 <= i < |fields| && fields[i] == m.value
                                    && m.value !in ac
                                    && forall j :: 0 <= j < i ==> fields[j] in ac
  {
    if fields == [] then None
    else if fields[0] !in ac then Some(fields[0])
    else
      var m := FirstMissing(ac, fields[1..]);
      if m.Some? then
        ghost var i :| && 0 <= i < |fields[1..]| && fields[1..][i] == m.value
                       && forall j :: 0 <= j < i ==> fields[1..][j] in ac;
        assert fields[i + 1] == m.value;
        m
      else m
  }

  /** The new values of the fields a step overrides. The roof steps read the
      energy efficiency factor and write the fuel efficiency factor; the
      glass step reads and writes the fuel efficiency factor. */
  function Changes(step: Step, ac: Record, r: Reductions): (changes: map<Field, real>)
    requires forall f :: f in Reads(step) ==> f in ac
    ensures changes.Keys == Writes(step)
  {
    match step
    case CoolRoofsStep | GreenRoofsStep =>
      map[SolnAnnualEnergyUsed :=
            IntegratedEnergyUsed(ac[ConvAnnualEnergyUsed], ac[SolnAnnualEnergyUsed], r.electricity),
          SolnFuelEfficiencyFactor := IntegratedFactor(ac[SolnEnergyEfficiencyFactor], r.fuel)]
    case ResidentialGlassStep =>
      map[SolnAnnualEnergyUsed :=
            IntegratedEnergyUsed(ac[ConvAnnualEnergyUsed], ac[SolnAnnualEnergyUsed], r.electricity),
          SolnFuelEfficiencyFactor := IntegratedFactor(ac[SolnFuelEfficiencyFactor], r.fuel)]
    case BuildingAutomationStep =>
      map[SolnFuelEfficiencyFactor := IntegratedFactor(ac[SolnFuelEfficiencyFactor], r.fuel),
          SolnEnergyEfficiencyFactor := AutomationElectricalFactor(ac[SolnEnergyEfficiencyFactor], r.electricity)]
    case InsulationStep | CommercialGlassStep => map[]
  }

  /** The record a rewriting step leaves behind. */
  function Rewritten(step: Step, ac: Record, r: Reductions): (updated: Record)
    requires forall f :: f in Reads(step) ==> f in ac
    ensures updated.Keys == ac.Keys + Writes(step)
  {
    WithOverrides(ac, Changes(step, ac, r))
  }

  // ---------------------------------------------------------------------
  // One step, and the chain

  datatype Outcome = Outcome(saving: Result<Series>, scenarios: Store)

  /** One integration step on the store, given its reduction factors: load
      the scenario, check the fields it computes with, override the fields
      it writes (persisting the new record), and return the saving of the
      scenario with that record. */
  function ApplyStep(step: Step, r: Reductions, engine: Engine, s: Store): (o: Outcome)
    ensures o.saving.Failure? ==> o.scenarios == s && o.saving.error.key == StepKey(step)
  {
    var key := StepKey(step);
    if key !in s then Outcome(Failure(UnknownScenario(key)), s)
    else
      var ac := s[key];
      match FirstMissing(ac, Reads(step))
      case Some(f) => Outcome(Failure(MissingField(key, f)), s)
      case None =>
        if Writes(step) == {} then Outcome(Success(engine(key, ac)), s)
        else
          var updated := Rewritten(step, ac, r);
          Outcome(Success(engine(key, updated)), s[key := updated])
  }

  /** One integration step with the reduction factors derived from the inputs. */
  function Run(step: Step, d: Inputs, engine: Engine, s: Store): (o: Outcome)
    requires Ready(step, d)
    ensures Writes(step) == {} ==> o.scenarios == s
  {
    ApplyStep(step, StepReductions(step, d), engine, s)
  }

  /** The steps `integrate` runs, in order. */
  const IntegrationOrder: seq<Step> :=
    [InsulationStep, CoolRoofsStep, GreenRoofsStep, ResidentialGlassStep, CommercialGlassStep]

  predicate AllReady(steps: seq<Step>, d: Inputs) {
    forall i :: 0 <= i < |steps| ==> Ready(steps[i], d)
  }

  /** Runs the steps in order on the evolving store, stopping at the first
      failure, and adds the savings element-wise from the left. */
  function RunSteps(steps: seq<Step>, d: Inputs, engine: Engine, s: Store): (o: Outcome)
    requires |steps| > 0 && AllReady(steps, d)
    ensures o.scenarios.Keys == s.Keys
    decreases s, |steps|
  {
    if |steps| == 1 then Run(steps[0], d, engine, s)
    else
      var before := RunSteps(steps[..|steps| - 1], d, engine, s);
      if before.saving.Failure? then before
      else
        var last := Run(steps[|steps| - 1], d, engine, before.scenarios);
        if last.saving.Failure? then last
        else Outcome(Success(Add(before.saving.value, last.saving.value)), last.scenarios)
  }

  /** The first failure of two savings, or their element-wise sum. */
  function Combine(a: Result<Series>, b: Result<Series>): Result<Series> {
    if a.Failure? then a
    else if b.Failure? then b
    else Success(Add(a.value, b.value))
  }

  /** Reference total: each step run alone on the initial store, the first
      failure in step order reported, the savings added element-wise. */
  function AloneTotal(steps: seq<Step>, d: Inputs, engine: Engine, s: Store): Result<Series>
    requires |steps| > 0 && AllReady(steps, d)
    decreases s, |steps|
  {
    var last := Run(steps[|steps| - 1], d, engine, s).saving;
    if |steps| == 1 then last
    else Combine(AloneTotal(steps[..|steps| - 1], d, engine, s), last)
  }

  predicate DistinctKeys(steps: seq<Step>) {
    forall i, j :: 0 <= i < j < |steps| ==> StepKey(steps[i]) != StepKey(steps[j])
  }

  // ---------------------------------------------------------------------
  // Properties of one step

  /** Each step loads a scenario of its own. */
  lemma StepKeyInjective(a: Step, b: Step)
    ensures StepKey(a) == StepKey(b) <==> a == b
  {
  }

  /** A step fails exactly when its scenario is unknown or a field it
      computes with is unset, and then reports the first such field and
      leaves the store as it was. */
  lemma StepFails(step: Step, r: Reductions, engine: Engine, s: Store)
    ensures var o := ApplyStep(step, r, engine, s);
            var key := StepKey(step);
            && (o.saving.Failure? <==> key !in s || exists f :: f in Reads(step) && f !in s[key])
            && (key !in s ==> o.saving == Failure(UnknownScenario(key)))
            && (o.saving.Failure? ==> o.scenarios == s)
            && (o.saving.Failure? && key in s ==>
                  o.saving.error.MissingField? && o.saving.error.key == key
                  && o.saving.error.field in Reads(step) && o.saving.error.field !in s[key])
  {
    var key := StepKey(step);
    if key in s {
      var m := FirstMissing(s[key], Reads(step));
      if m.None? {
        assert forall f :: f in Reads(step) ==> f in s[key];
      }
    }
  }

  /** A successful step changes only its own scenario's record, and only the
      fields it writes; the saving is derived from the record it leaves in
      the store. */
  lemma StepFrame(step: Step, r: Reductions, engine: Engine, s: Store)
    ensures var o := ApplyStep(step, r, engine, s);
            var key := StepKey(step);
            && o.scenarios.Keys == s.Keys
            && (forall k :: k in s && k != key ==> o.scenarios[k] == s[k])
            && (o.saving.Success? ==>
                  && key in s
                  && o.saving.value == engine(key, o.scenarios[key])
                  && o.scenarios[key].Keys == s[key].Keys + Writes(step)
                  && forall f :: f in s[key] && f !in Writes(step) ==> o.scenarios[key][f] == s[key][f])
  {
    var key := StepKey(step);
    var o := ApplyStep(step, r, engine, s);
    if o.saving.Success? {
      var updated := o.scenarios[key];
      assert forall f :: f in s[key] && f !in Writes(step) ==> updated[f] == s[key][f] by {
        if Writes(step) != {} {
          assert updated == WithOverrides(s[key], Changes(step, s[key], r));
        }
      }
    }
  }

  /** A step's outcome depends on the store only through its own
      scenario's record. */
  lemma StepLocal(step: Step, r: Reductions, engine: Engine, s: Store, t: Store)
    requires StepKey(step) in s <==> StepKey(step) in t
    requires StepKey(step) in s ==> s[StepKey(step)] == t[StepKey(step)]
    ensures ApplyStep(step, r, engine, s).saving == ApplyStep(step, r, engine, t).saving
  {
  }

  /** The insulation and commercial-glass steps only read the store. */
  lemma ReadOnlySteps(step: Step, r: Reductions, engine: Engine, s: Store)
    requires step == InsulationStep || step == CommercialGlassStep
    ensures ApplyStep(step, r, engine, s).scenarios == s
    ensures StepKey(step) in s <==> ApplyStep(step, r, engine, s).saving.Success?
  {
  }

  // ---------------------------------------------------------------------
  // Reduction factors of physically plausible inputs

  /** Physically plausible inputs for a step, over the window years all its
      series hold: a positive downstream adoption, residential roof area
      within total roof area, insulation (and residential glass) within
      residential floor area, the building-automation candidate within
      residential floor area. */
  ghost predicate Plausible(step: Step, d: Inputs)
    requires Divisible(step, d)
  {
    match step
    case CoolRoofsStep | GreenRoofsStep =>
      var roofs := StepAdoption(step, d);
      forall y :: && InWindow(y) && y in roofs && y in d.roofAreaResidential && y in d.roofAreaTotal
                  && y in d.insulation && y in d.floorAreaResidential ==>
        && 0.0 < roofs[y]
        && 0.0 <= d.roofAreaResidential[y] <= d.roofAreaTotal[y]
        && 0.0 <= d.insulation[y] <= d.floorAreaResidential[y]
    case ResidentialGlassStep =>
      forall y :: InWindow(y) && y in d.insulation && y in d.floorAreaResidential && y in d.residentialGlass ==>
        && 0.0 <= d.insulation[y] <= d.floorAreaResidential[y]
        && 0.0 < d.residentialGlass[y] <= d.floorAreaResidential[y]
    case BuildingAutomationStep =>
      var candidate := AutomationCandidateOf(d);
      forall y :: InWindow(y) && y in candidate && y in d.floorAreaResidential && y in d.buildingAutomation ==>
        && 0.0 <= candidate[y] <= d.floorAreaResidential[y]
        && 0.0 < d.buildingAutomation[y]
    case InsulationStep | CommercialGlassStep => true
  }

  /** For plausible inputs, the overlap of each window year lies between 0
      and the downstream adoption. */
  lemma OverlapWithinAdoption(step: Step, d: Inputs, y: int)
    requires Divisible(step, d) && Plausible(step, d)
    requires Averages(step)
    requires InWindow(y) && y in StepOverlap(step, d) && y in StepAdoption(step, d)
    ensures var o, a := StepOverlap(step, d), StepAdoption(step, d);
            0.0 < a[y] && 0.0 <= o[y] <= a[y]
  {
    match step
    case CoolRoofsStep | GreenRoofsStep =>
      RoofOverlapBound(StepAdoption(step, d), d.roofAreaResidential, d.roofAreaTotal,
                       d.insulation, d.floorAreaResidential, y);
    case ResidentialGlassStep =>
      FloorShareOverlapBound(d.insulation, d.floorAreaResidential, d.residentialGlass, y);
    case BuildingAutomationStep =>
      FloorShareOverlapBound(AutomationCandidateOf(d), d.floorAreaResidential, d.buildingAutomation, y);
  }

  /** For plausible inputs, each reduction factor lies between 0 and its
      coefficient, and so within [0, 1]. */
  lemma ReductionsInRange(step: Step, d: Inputs)
    requires Ready(step, d) && Plausible(step, d)
    ensures var r, c := StepReductions(step, d), Coefficients(step);
            && 0.0 <= r.fuel <= c.fuel <= 1.0
            && 0.0 <= r.electricity <= c.electricity <= 1.0
  {
    if Averages(step) {
      var o, a, c := StepOverlap(step, d), StepAdoption(step, d), Coefficients(step);
      forall y | InWindow(y) && y in o && y in a
        ensures 0.0 < a[y] && 0.0 <= o[y] <= a[y]
      {
        OverlapWithinAdoption(step, d, y);
      }
      ReductionBounds(o, a, c.fuel);
      ReductionBounds(o, a, c.electricity);
    }
  }

  // ---------------------------------------------------------------------
  // The rewritten fields

  /** A successful rewriting step found every field it computes with and
      persisted the record with its changes applied. */
  lemma StepUpdate(step: Step, r: Reductions, engine: Engine, s: Store)
    requires Writes(step) != {}
    requires ApplyStep(step, r, engine, s).saving.Success?
    ensures var key := StepKey(step);
            && key in s
            && (forall f :: f in Reads(step) ==> f in s[key])
            && ApplyStep(step, r, engine, s).scenarios
               == s[key := Rewritten(step, s[key], r)]
  {
    assert FirstMissing(s[StepKey(step)], Reads(step)).None?;
  }

  /** A roof step with reduction factors in [0, 1]: the energy used moves
      from its pre-integration value towards the conventional value, and the
      fuel efficiency factor becomes a reduced copy of the energy efficiency
      factor, which itself is left alone. */
  lemma RoofStepValues(step: Step, r: Reductions, engine: Engine, s: Store)
    requires step == CoolRoofsStep || step == GreenRoofsStep
    requires 0.0 <= r.fuel <= 1.0 && 0.0 <= r.electricity <= 1.0
    requires ApplyStep(step, r, engine, s).saving.Success?
    ensures var key := StepKey(step);
            && key in s
            && SolnEnergyEfficiencyFactor in s[key] && ConvAnnualEnergyUsed in s[key] && SolnAnnualEnergyUsed in s[key]
            && var ac, updated := s[key], ApplyStep(step, r, engine, s).scenarios[key];
            && var conv, pre, e := ac[ConvAnnualEnergyUsed], ac[SolnAnnualEnergyUsed], ac[SolnEnergyEfficiencyFactor];
            && SolnAnnualEnergyUsed in updated && SolnFuelEfficiencyFactor in updated
            && SolnEnergyEfficiencyFactor in updated && updated[SolnEnergyEfficiencyFactor] == e
            && (pre <= conv ==> pre <= updated[SolnAnnualEnergyUsed] <= conv)
            && (conv <= pre ==> conv <= updated[SolnAnnualEnergyUsed] <= pre)
            && (0.0 <= e ==> 0.0 <= updated[SolnFuelEfficiencyFactor] <= e)
            && (r.fuel == 0.0 ==> updated[SolnFuelEfficiencyFactor] == e)
  {
    var key := StepKey(step);
    var ac := s[key];
    assert FirstMissing(ac, Reads(step)).None?;
    assert Reads(step)[0] == SolnEnergyEfficiencyFactor && Reads(step)[1] == ConvAnnualEnergyUsed
        && Reads(step)[2] == SolnAnnualEnergyUsed;
    EnergyUsedBetween(ac[ConvAnnualEnergyUsed], ac[SolnAnnualEnergyUsed], r.electricity);
    if 0.0 <= ac[SolnEnergyEfficiencyFactor] {
      FactorBetween(ac[SolnEnergyEfficiencyFactor], r.fuel);
    }
  }

  /** The residential-glass step with reduction factors in [0, 1]: the energy
      used moves towards the conventional value and a non-negative fuel
      efficiency factor is reduced in place. */
  lemma GlassStepValues(r: Reductions, engine: Engine, s: Store)
    requires 0.0 <= r.fuel <= 1.0 && 0.0 <= r.electricity <= 1.0
    requires ApplyStep(ResidentialGlassStep, r, engine, s).saving.Success?
    ensures var key := StepKey(ResidentialGlassStep);
            && key in s
            && SolnFuelEfficiencyFactor in s[key] && ConvAnnualEnergyUsed in s[key] && SolnAnnualEnergyUsed in s[key]
            && var ac, updated := s[key], ApplyStep(ResidentialGlassStep, r, engine, s).scenarios[key];
            && var conv, pre, f := ac[ConvAnnualEnergyUsed], ac[SolnAnnualEnergyUsed], ac[SolnFuelEfficiencyFactor];
            && SolnAnnualEnergyUsed in updated && SolnFuelEfficiencyFactor in updated
            && (pre <= conv ==> pre <= updated[SolnAnnualEnergyUsed] <= conv)
            && (conv <= pre ==> conv <= updated[SolnAnnualEnergyUsed] <= pre)
            && (0.0 <= f ==> 0.0 <= updated[SolnFuelEfficiencyFactor] <= f)
            && (r.fuel == 0.0 ==> updated[SolnFuelEfficiencyFactor] == f)
  {
    var key := StepKey(ResidentialGlassStep);
    var ac := s[key];
    assert FirstMissing(ac, Reads(ResidentialGlassStep)).None?;
    assert Reads(ResidentialGlassStep)[0] == ConvAnnualEnergyUsed
        && Reads(ResidentialGlassStep)[1] == SolnAnnualEnergyUsed
        && Reads(ResidentialGlassStep)[2] == SolnFuelEfficiencyFactor;
    EnergyUsedBetween(ac[ConvAnnualEnergyUsed], ac[SolnAnnualEnergyUsed], r.electricity);
    if 0.0 <= ac[SolnFuelEfficiencyFactor] {
      FactorBetween(ac[SolnFuelEfficiencyFactor], r.fuel);
    }
  }

  /** The building-automation step with reduction factors in [0, 1]: a
      non-negative fuel efficiency factor is reduced, and the electrical
      efficiency factor becomes a weighted average of its old value, one
      minus the heating/cooling reduction, and one minus the lighting
      impact. */
  lemma AutomationStepValues(r: Reductions, engine: Engine, s: Store)
    requires 0.0 <= r.fuel <= 1.0 && 0.0 <= r.electricity <= 1.0
    requires ApplyStep(BuildingAutomationStep, r, engine, s).saving.Success?
    ensures var key := StepKey(BuildingAutomationStep);
            && key in s
            && SolnFuelEfficiencyFactor in s[key] && SolnEnergyEfficiencyFactor in s[key]
            && var ac, updated := s[key], ApplyStep(BuildingAutomationStep, r, engine, s).scenarios[key];
            && var f, e := ac[SolnFuelEfficiencyFactor], ac[SolnEnergyEfficiencyFactor];
            && SolnFuelEfficiencyFactor in updated && SolnEnergyEfficiencyFactor in updated
            && (0.0 <= f ==> 0.0 <= updated[SolnFuelEfficiencyFactor] <= f)
            && Min3(e, 1.0 - r.electricity, 1.0 - LightingEnergyImpact)
               <= updated[SolnEnergyEfficiencyFactor]
               <= Max3(e, 1.0 - r.electricity, 1.0 - LightingEnergyImpact)
  {
    var key := StepKey(BuildingAutomationStep);
    var ac := s[key];
    assert FirstMissing(ac, Reads(BuildingAutomationStep)).None?;
    assert Reads(BuildingAutomationStep)[0] == SolnEnergyEfficiencyFactor
        && Reads(BuildingAutomationStep)[1] == SolnFuelEfficiencyFactor;
    AutomationFactorBetween(ac[SolnEnergyEfficiencyFactor], r.electricity);
    if 0.0 <= ac[SolnFuelEfficiencyFactor] {
      FactorBetween(ac[SolnFuelEfficiencyFactor], r.fuel);
    }
  }

  // ---------------------------------------------------------------------
  // Running a step again

  /** Rewriting a record twice with a roof step leaves the fuel efficiency
      factor as the first rewrite set it (it is recomputed from the untouched
      energy efficiency factor) but compounds the energy used: its gap to
      the conventional value is scaled by (1 - r)^2 instead of 1 - r. */
  lemma RoofRewriteTwice(step: Step, ac: Record, r: Reductions)
    requires step == CoolRoofsStep || step == GreenRoofsStep
    requires forall f :: f in Reads(step) ==> f in ac
    ensures var once := Rewritten(step, ac, r);
            var twice := Rewritten(step, once, r);
            var conv, pre := ac[ConvAnnualEnergyUsed], ac[SolnAnnualEnergyUsed];
            && twice[SolnFuelEfficiencyFactor] == once[SolnFuelEfficiencyFactor]
            && twice[SolnAnnualEnergyUsed] == conv - (conv - pre) * ((1.0 - r.electricity) * (1.0 - r.electricity))
  {
    EnergyUsedTwice(ac[ConvAnnualEnergyUsed], ac[SolnAnnualEnergyUsed], r.electricity);
  }

  /** Rewriting a record twice with the residential-glass step compounds both
      fields: the fuel efficiency factor is scaled by (1 - r)^2, and the gap
      of the energy used to the conventional value likewise. */
  lemma GlassRewriteTwice(ac: Record, r: Reductions)
    requires forall f :: f in Reads(ResidentialGlassStep) ==> f in ac
    ensures var once := Rewritten(ResidentialGlassStep, ac, r);
            var twice := Rewritten(ResidentialGlassStep, once, r);
            var conv, pre, f := ac[ConvAnnualEnergyUsed], ac[SolnAnnualEnergyUsed], ac[SolnFuelEfficiencyFactor];
            && twice[SolnFuelEfficiencyFactor] == f * ((1.0 - r.fuel) * (1.0 - r.fuel))
            && twice[SolnAnnualEnergyUsed] == conv - (conv - pre) * ((1.0 - r.electricity) * (1.0 - r.electricity))
  {
    EnergyUsedTwice(ac[ConvAnnualEnergyUsed], ac[SolnAnnualEnergyUsed], r.electricity);
    FactorTwice(ac[SolnFuelEfficiencyFactor], r.fuel);
  }

  /** Nothing stops a step from running twice on the persisted record: the
      second run succeeds too and rewrites the record once more. */
  lemma StepRerun(step: Step, r: Reductions, engine: Engine, s: Store)
    requires Writes(step) != {}
    requires ApplyStep(step, r, engine, s).saving.Success?
    ensures var key := StepKey(step);
            var once := ApplyStep(step, r, engine, s);
            var twice := ApplyStep(step, r, engine, once.scenarios);
            && key in s && (forall f :: f in Reads(step) ==> f in s[key])
            && twice.saving.Success?
            && twice.scenarios == s[key := Rewritten(step, Rewritten(step, s[key], r), r)]
  {
    var key := StepKey(step);
    StepUpdate(step, r, engine, s);
    var once := ApplyStep(step, r, engine, s);
    var ac1 := Rewritten(step, s[key], r);
    assert once.scenarios == s[key := ac1];
    assert FirstMissing(ac1, Reads(step)).None?;
    var ac2 := Rewritten(step, ac1, r);
    assert ApplyStep(step, r, engine, once.scenarios).scenarios == s[key := ac1][key := ac2];
    assert s[key := ac1][key := ac2] == s[key := ac2];
  }

  // ---------------------------------------------------------------------
  // The chain

  /** A run of steps keeps the store's scenarios and leaves alone every
      scenario none of its steps loads. */
  lemma {:induction false} RunStepsFrame(steps: seq<Step>, d: Inputs, engine: Engine, s: Store)
    requires |steps| > 0 && AllReady(steps, d)
    ensures var o := RunSteps(steps, d, engine, s);
            && o.scenarios.Keys == s.Keys
            && forall k :: k in s && (forall i :: 0 <= i < |steps| ==> StepKey(steps[i]) != k) ==>
                 o.scenarios[k] == s[k]
    decreases |steps|
  {
    if |steps| == 1 {
      StepFrame(steps[0], StepReductions(steps[0], d), engine, s);
    } else {
      var prefix := steps[..|steps| - 1];
      var x := steps[|steps| - 1];
      RunStepsFrame(prefix, d, engine, s);
      var before := RunSteps(prefix, d, engine, s);
      StepFrame(x, StepReductions(x, d), engine, before.scenarios);
    }
  }

  /** The steps do not interact: when they load distinct scenarios, running
      them in order on the evolving store gives the same result as running
      each alone on the initial store and adding the savings. */
  lemma {:induction false} RunStepsIsAloneTotal(steps: seq<Step>, d: Inputs, engine: Engine, s: Store)
    requires |steps| > 0 && AllReady(steps, d) && DistinctKeys(steps)
    ensures RunSteps(steps, d, engine, s).saving == AloneTotal(steps, d, engine, s)
    decreases |steps|
  {
    if |steps| > 1 {
      var prefix := steps[..|steps| - 1];
      var x := steps[|steps| - 1];
      RunStepsIsAloneTotal(prefix, d, engine, s);
      var before := RunSteps(prefix, d, engine, s);
      var last := Run(x, d, engine, before.scenarios);
      var alone := Run(x, d, engine, s).saving;
      assert AloneTotal(steps, d, engine, s) == Combine(before.saving, alone);
      assert RunSteps(steps, d, engine, s).saving
             == if before.saving.Failure? then before.saving
                else if last.saving.Failure? then last.saving
                else Success(Add(before.saving.value, last.saving.value));
      if before.saving.Success? {
        RunStepsFrame(prefix, d, engine, s);
        assert forall i :: 0 <= i < |prefix| ==> StepKey(prefix[i]) != StepKey(x) by {
          forall i | 0 <= i < |prefix|
            ensures StepKey(prefix[i]) != StepKey(x)
          {
            assert prefix[i] == steps[i];
          }
        }
        StepLocal(x, StepReductions(x, d), engine, before.scenarios, s);
      }
    }
  }

  /** The five space-conditioning steps load five distinct scenarios. */
  lemma IntegrationOrderDistinct()
    ensures DistinctKeys(IntegrationOrder)
  {
    forall i, j | 0 <= i < j < |IntegrationOrder|
      ensures StepKey(IntegrationOrder[i]) != StepKey(IntegrationOrder[j])
    {
      StepKeyInjective(IntegrationOrder[i], IntegrationOrder[j]);
    }
  }

  /** The divisions of the three averaging steps of `integrate` are defined. */
  predicate IntegrationReady(d: Inputs)
    ensures IntegrationReady(d) ==> AllReady(IntegrationOrder, d)
  {
    Ready(CoolRoofsStep, d) && Ready(GreenRoofsStep, d) && Ready(ResidentialGlassStep, d)
  }

  /** Five steps run alone combine from the left. */
  lemma AloneTotalOfFive(steps: seq<Step>, d: Inputs, engine: Engine, s: Store)
    requires |steps| == 5 && AllReady(steps, d)
    ensures AloneTotal(steps, d, engine, s)
            == Combine(Combine(Combine(Combine(Run(steps[0], d, engine, s).saving,
                                               Run(steps[1], d, engine, s).saving),
                                       Run(steps[2], d, engine, s).saving),
                               Run(steps[3], d, engine, s).saving),
                       Run(steps[4], d, engine, s).saving)
  {
    var r := seq(5, i requires 0 <= i < 5 => Run(steps[i], d, engine, s).saving);
    assert AloneTotal(steps[..1], d, engine, s) == r[0];
    assert steps[..2][..1] == steps[..1];
    assert AloneTotal(steps[..2], d, engine, s) == Combine(r[0], r[1]);
    assert steps[..3][..2] == steps[..2];
    assert AloneTotal(steps[..3], d, engine, s) == Combine(Combine(r[0], r[1]), r[2]);
    assert steps[..4][..3] == steps[..3];
    assert AloneTotal(steps[..4], d, engine, s) == Combine(Combine(Combine(r[0], r[1]), r[2]), r[3]);
    assert steps[..4] == steps[..|steps| - 1];
  }

  /** The combined space heating and cooling saving succeeds exactly when
      each of the five steps succeeds on the initial store, and is then the
      element-wise sum of their savings, added in step order. */
  lemma IntegrateSumsSavings(d: Inputs, engine: Engine, s: Store)
    requires IntegrationReady(d)
    ensures var total := RunSteps(IntegrationOrder, d, engine, s).saving;
            var insulation := Run(InsulationStep, d, engine, s).saving;
            var coolRoofs := Run(CoolRoofsStep, d, engine, s).saving;
            var greenRoofs := Run(GreenRoofsStep, d, engine, s).saving;
            var residentialGlass := Run(ResidentialGlassStep, d, engine, s).saving;
            var commercialGlass := Run(CommercialGlassStep, d, engine, s).saving;
            && (total.Success? <==>
                  insulation.Success? && coolRoofs.Success? && greenRoofs.Success?
                  && residentialGlass.Success? && commercialGlass.Success?)
            && (total.Success? ==>
                  total.value == Add(Add(Add(Add(insulation.value, coolRoofs.value), greenRoofs.value),
                                         residentialGlass.value), commercialGlass.value))
  {
    IntegrationOrderDistinct();
    FiveStepsSumSavings(IntegrationOrder, d, engine, s);
  }

  /** Five steps loading distinct scenarios, run in order: the combined
      saving succeeds exactly when each step succeeds alone, and is then the
      sum of the five savings from the left. */
  lemma FiveStepsSumSavings(steps: seq<Step>, d: Inputs, engine: Engine, s: Store)
    requires |steps| == 5 && AllReady(steps, d) && DistinctKeys(steps)
    ensures var total := RunSteps(steps, d, engine, s).saving;
            var r0, r1 := Run(steps[0], d, engine, s).saving, Run(steps[1], d, engine, s).saving;
            var r2, r3 := Run(steps[2], d, engine, s).saving, Run(steps[3], d, engine, s).saving;
            var r4 := Run(steps[4], d, engine, s).saving;
            && (total.Success? <==>
                  r0.Success? && r1.Success? && r2.Success? && r3.Success? && r4.Success?)
            && (total.Success? ==>
                  total.value == Add(Add(Add(Add(r0.value, r1.value), r2.value), r3.value), r4.value))
  {
    RunStepsIsAloneTotal(steps, d, engine, s);
    AloneTotalOfFive(steps, d, engine, s);
    CombineFive(Run(steps[0], d, engine, s).saving, Run(steps[1], d, engine, s).saving,
                Run(steps[2], d, engine, s).saving, Run(steps[3], d, engine, s).saving,
                Run(steps[4], d, engine, s).saving);
  }

  /** Five savings combined from the left. */
  lemma CombineFive(r0: Result<Series>, r1: Result<Series>, r2: Result<Series>,
                    r3: Result<Series>, r4: Result<Series>)
    ensures var c := Combine(Combine(Combine(Combine(r0, r1), r2), r3), r4);
            && (c.Success? <==> r0.Success? && r1.Success? && r2.Success? && r3.Success? && r4.Success?)
            && (c.Success? ==> c.value == Add(Add(Add(Add(r0.value, r1.value), r2.value), r3.value), r4.value))
  {
  }

  /** Running one more step after a run of steps. */
  lemma RunStepsSnoc(steps: seq<Step>, x: Step, d: Inputs, engine: Engine, s: Store)
    requires |steps| > 0 && AllReady(steps, d) && Ready(x, d)
    ensures AllReady(steps + [x], d)
    ensures var before := RunSteps(steps, d, engine, s);
            var last := Run(x, d, engine, before.scenarios);
            RunSteps(steps + [x], d, engine, s)
            == if before.saving.Failure? then before
               else if last.saving.Failure? then last
               else Outcome(Success(Add(before.saving.value, last.saving.value)), last.scenarios)
  {
    assert (steps + [x])[..|steps|] == steps;
  }

  // ---------------------------------------------------------------------
  // The integration state

  /** The integration state: the adoption and TAM inputs, the saving engine,
      and the store of persisted assumption records the steps rewrite. */
  class Integration {
    const data: Inputs
    const engine: Engine
    var scenarios: Store

    constructor (data: Inputs, engine: Engine, scenarios: Store)
      ensures this.data == data && this.engine == engine && this.scenarios == scenarios
    {
      this.data := data;
      this.engine := engine;
      this.scenarios := scenarios;
    }

    /** Loads a scenario's assumption record. */
    method LoadScenario(key: ScenarioKey) returns (loaded: Result<Record>)
      ensures key in scenarios ==> loaded == Success(scenarios[key])
      ensures key !in scenarios ==> loaded == Failure(UnknownScenario(key))
    {
      if key in scenarios {
        loaded := Success(scenarios[key]);
      } else {
        loaded := Failure(UnknownScenario(key));
      }
    }

    /** Overrides fields of a scenario's record and persists the result. */
    method UpdateAc(key: ScenarioKey, changes: map<Field, real>)
      requires key in scenarios
      modifies this
      ensures scenarios == old(scenarios)[key := WithOverrides(old(scenarios)[key], changes)]
    {
      scenarios := scenarios[key := WithOverrides(scenarios[key], changes)];
    }

    /** One step: load, check the fields computed with, rewrite and persist,
        then derive the saving from the persisted record. */
    method RunStep(step: Step) returns (saving: Result<Series>)
      requires Ready(step, data)
      modifies this
      ensures Outcome(saving, scenarios) == Run(step, data, engine, old(scenarios))
    {
      var key := StepKey(step);
      var loaded := LoadScenario(key);
      if loaded.Failure? {
        return Failure(loaded.error);
      }
      var ac := loaded.value;
      var missing := FirstMissing(ac, Reads(step));
      if missing.Some? {
        return Failure(MissingField(key, missing.value));
      }
      if Writes(step) != {} {
        UpdateAc(key, Changes(step, ac, StepReductions(step, data)));
      }
      saving := Success(engine(key, scenarios[key]));
    }

    method InsulationIntegration() returns (saving: Result<Series>)
      modifies this
      ensures Outcome(saving, scenarios) == Run(InsulationStep, data, engine, old(scenarios))
    {
      saving := RunStep(InsulationStep);
    }

    method CoolRoofsIntegration() returns (saving: Result<Series>)
      requires Ready(CoolRoofsStep, data)
      modifies this
      ensures Outcome(saving, scenarios) == Run(CoolRoofsStep, data, engine, old(scenarios))
    {
      saving := RunStep(CoolRoofsStep);
    }

    method GreenRoofsIntegration() returns (saving: Result<Series>)
      requires Ready(GreenRoofsStep, data)
      modifies this
      ensures Outcome(saving, scenarios) == Run(GreenRoofsStep, data, engine, old(scenarios))
    {
      saving := RunStep(GreenRoofsStep);
    }

    method ResidentialGlassIntegration() returns (saving: Result<Series>)
      requires Ready(ResidentialGlassStep, data)
      modifies this
      ensures Outcome(saving, scenarios) == Run(ResidentialGlassStep, data, engine, old(scenarios))
    {
      saving := RunStep(ResidentialGlassStep);
    }

    method CommercialGlassIntegration() returns (saving: Result<Series>)
      modifies this
      ensures Outcome(saving, scenarios) == Run(CommercialGlassStep, data, engine, old(scenarios))
    {
      saving := RunStep(CommercialGlassStep);
    }

    method BuildingAutomationIntegration() returns (saving: Result<Series>)
      requires Ready(BuildingAutomationStep, data)
      modifies this
      ensures Outcome(saving, scenarios) == Run(BuildingAutomationStep, data, engine, old(scenarios))
    {
      saving := RunStep(BuildingAutomationStep);
    }

    /** Runs the five space-conditioning steps in order and adds their
        savings element-wise; the first failure stops the chain. */
    method Integrate() returns (saving: Result<Series>)
      requires IntegrationReady(data)
      modifies this
      ensures Outcome(saving, scenarios) == RunSteps(IntegrationOrder, data, engine, old(scenarios))
    {
      ghost var s := scenarios;
      ghost var p1 := [InsulationStep];
      ghost var p2 := p1 + [CoolRoofsStep];
      ghost var p3 := p2 + [GreenRoofsStep];
      ghost var p4 := p3 + [ResidentialGlassStep];
      assert p4 + [CommercialGlassStep] == IntegrationOrder;
      RunStepsSnoc(p1, CoolRoofsStep, data, engine, s);
      RunStepsSnoc(p2, GreenRoofsStep, data, engine, s);
      RunStepsSnoc(p3, ResidentialGlassStep, data, engine, s);
      RunStepsSnoc(p4, CommercialGlassStep, data, engine, s);

      var insulation := InsulationIntegration();
      if insulation.Failure? {
        return insulation;
      }
      assert Outcome(insulation, scenarios) == RunSteps(p1, data, engine, s);
      var coolRoofs := CoolRoofsIntegration();
      if coolRoofs.Failure? {
        return coolRoofs;
      }
      var total := Add(insulation.value, coolRoofs.value);
      assert Outcome(Success(total), scenarios) == RunSteps(p2, data, engine, s);
      var greenRoofs := GreenRoofsIntegration();
      if greenRoofs.Failure? {
        return greenRoofs;
      }
      total := Add(total, greenRoofs.value);
      assert Outcome(Success(total), scenarios) == RunSteps(p3, data, engine, s);
      var residentialGlass := ResidentialGlassIntegration();
      if residentialGlass.Failure? {
        return residentialGlass;
      }
      total := Add(total, residentialGlass.value);
      assert Outcome(Success(total), scenarios) == RunSteps(p4, data, engine, s);
      var commercialGlass := CommercialGlassIntegration();
      if commercialGlass.Failure? {
        return commercialGlass;
      }
      saving := Success(Add(total, commercialGlass.value));
    }
  }
}
