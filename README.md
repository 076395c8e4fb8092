# Building integration chain

A Dafny model of the arithmetic and the state update of the building
integration in `integrations/building_integration.py`. Adopting one
building-efficiency technology (insulation) lowers the benefit of related
technologies (cool roofs, green roofs, high-performance glass, building
automation), so that energy savings are not counted twice. Each step:

1. computes a per-year *adoption overlap* of the downstream technology with
   its upstream technologies;
2. averages `overlap / downstream adoption` over the years 2020..2050 and
   multiplies the mean by a hard-coded impact coefficient, giving a fuel and
   an electricity reduction factor;
3. rewrites two fields of the scenario's assumption record with closed-form
   formulas and persists the record (`update_ac`);
4. asks the scenario for its energy saving, derived from the persisted record.

`integrate` runs insulation, cool roofs, green roofs, residential glass and
commercial glass in that order and adds their savings element-wise.

Modules:

- `Series` (`series.dfy`): a year-indexed series is a `map<int, real>`. It
  defines the element-wise sum and the mean of the 2020..2050 window slice.
- `Scalars` (`scalars.dfy`): small facts about real products and quotients,
  and the three-way minimum and maximum.
- `Overlap` (`overlap.dfy`): the roof, glass and building-automation overlaps.
- `Reduction` (`reduction.dfy`): the impact coefficients and the averaged
  reduction factor.
- `Assumptions` (`assumptions.dfy`): the assumption record, the
  field-override, and the formulas for the integrated energy used, the
  integrated efficiency factors and the building-automation electrical factor.
- `BuildingIntegration` (`building_integration.dfy`): the steps as pure
  functions over a store of persisted records, the chain `RunSteps`, and the
  class `Integration` that holds the store and whose methods update it.

Quirks of the source that the model keeps as written:

- The cool- and green-roof steps read the *energy* efficiency factor and write
  the result to the *fuel* efficiency factor. The residential-glass step reads
  and writes the fuel efficiency factor.
- The roof-area ratio of building automation divides residential roof area by
  itself. The roof candidate is therefore the scaled cool plus green roof
  adoption, whatever the roof area is.
- The commercial-glass step loads the `smartglass` solution and rewrites
  nothing.
- The insulation step loads the insulation scenario without naming a
  scenario. Every other step loads `PDS1`.
- No step guards against running twice. A second run rewrites the
  already-integrated record again (`StepRerun`, `RoofRewriteTwice`,
  `GlassRewriteTwice`).
- The overlaps use the loaded adoption series, not values updated by earlier
  steps.
- Building automation has a step function, but `integrate` does not call it.

Modelling choices:

- Element-wise operations on two series keep the years both series hold.
  `pandas` would align on the union of years and produce NaN for the others.
  The window mean skips NaN, so the two agree there.
- An assumption field that is not set is a key absent from the record. Reading
  such a field is allowed; computing with it fails. A step reports
  `MissingField` for the first unset field in the order it computes with them.
  Loading a scenario that does not exist reports `UnknownScenario`.
- The energy saving of a scenario (`total_energy_saving`) is the parameter
  `engine: (ScenarioKey, Record) -> Series`. It is applied to the record the
  step leaves in the store.
- Divisions need non-zero divisors: the steps require (`Ready`) that the TAM
  series they divide by hold no zero, that the downstream adoption holds no
  zero in the window, and that overlap and adoption share a window year.

## Model

| member | source | states |
|---|---|---|
| Series.WindowMeanBounds | integrations/building_integration.py:162-165 | the mean of the 2020..2050 slice lies between any bounds of the series' window values |
| Series.WindowMeanOnWindow | integrations/building_integration.py:162-165 | the window mean depends only on the years 2020..2050: series that agree there have the same mean |
| Series.WindowMean | integrations/building_integration.py:162-165 | the mean of the 2020..2050 slice lies between the least and the greatest value the series holds in the window |
| Series.Add | integrations/building_integration.py:87-93 | the element-wise sum holds the years both series hold, and subtracting either operand gives back the other |
| Overlap.RoofOverlap | integrations/building_integration.py:154-156 | the roof overlap is defined for exactly the years all five of its series hold |
| Overlap.RoofOverlapRatio | integrations/building_integration.py:154-156 | the roof overlap holds exactly the years of the roof adoption and the roof share, and equals adoption × (resRoof/totalRoof × insulation/resFloor) |
| Overlap.RoofOverlapBound | integrations/building_integration.py:154-156 | with residential roof within total roof and insulation within residential floor area, the roof overlap lies between 0 and the roof adoption |
| Overlap.RoofOverlapExample | integrations/building_integration.py:154-156 | insulation 100/110, cool roofs 50/55, roof areas 200 of 400, floor area 1000 give overlaps 2.5 and 3.025 |
| Overlap.FloorShareOverlap | integrations/building_integration.py:267 | the floor-share overlap (glass at line 267, building automation at line 327) is defined for exactly the years the upstream quantity, residential floor area and adoption hold |
| Overlap.FloorShareOverlapRatio | integrations/building_integration.py:267 | the floor-share overlap holds exactly the years of its three inputs and equals adoption × upstream/resFloor |
| Overlap.FloorShareOverlapBound | integrations/building_integration.py:267 | with the upstream quantity (insulation, or the automation candidate of line 327) within residential floor area, the overlap lies between 0 and the adoption, and also at most the upstream quantity when the adoption lies within residential floor area |
| Overlap.AutomationRoofCandidate | integrations/building_integration.py:321-323 | the roof candidate is defined for the years cool roofs, green roofs and residential roof area hold, and is non-negative when both roof adoptions are |
| Overlap.AutomationCandidate | integrations/building_integration.py:324-326 | the row maximum is defined for the years all its series hold and is at least the commercial-glass and the insulation adoption |
| Overlap.AutomationCandidateIsMax | integrations/building_integration.py:321-326 | the building-automation candidate is at least the roof quantity, commercial glass and insulation, and equals one of them |
| Overlap.AutomationRoofRatioIsOne | integrations/building_integration.py:321-323 | the roof candidate is (cool + green roofs) / 1e6 × 1.58 whatever the residential roof area |
| Reduction.WindowRatio | integrations/building_integration.py:162-165 | the ratio holds only window years of both series, and times the adoption gives back the overlap |
| Reduction.AverageReduction | integrations/building_integration.py:162-165 | an overlap equal to the adoption in every window year gives the whole coefficient, and a zero overlap gives zero |
| Reduction.ReductionLinear | integrations/building_integration.py:162-165 | for a fixed overlap, scaling the coefficient by k scales the reduction by k |
| Reduction.CoolRoofsReductionProportion | integrations/building_integration.py:159-165 | the cool-roofs fuel and electricity reductions stand in the proportion 0.75 : 0.5 |
| Reduction.RatioMeanBounds | integrations/building_integration.py:162-165 | when the overlap lies within a positive adoption, the mean ratio lies in [0, 1] |
| Reduction.ReductionBounds | integrations/building_integration.py:162-165 | under the same condition the reduction lies between 0 and the coefficient |
| Reduction.ProportionalReductionsAgree | integrations/building_integration.py:162-165 | overlaps proportional to their adoptions through one share give one reduction, whatever the adoption figures |
| Reduction.RoofReductionIndependent | integrations/building_integration.py:154-165 | the roof reduction does not depend on the roof adoption: cool and green roofs with the same window years get the same reduction for the same coefficient |
| Reduction.FloorShareReductionIndependent | integrations/building_integration.py:267-276 | the reduction of a floor-share overlap (glass here, building automation at line 327) does not depend on the adoption figures |
| Assumptions.WithOverrides | integrations/building_integration.py:186-188 | the overridden fields take the new values, every other field keeps its value, and no field is lost |
| Assumptions.IntegratedEnergyUsed | integrations/building_integration.py:175-177 | the result is pre + (conv − pre) × r: it equals pre at r = 0 and conv at r = 1 |
| Assumptions.EnergyUsedBetween | integrations/building_integration.py:175-177 | for r in [0, 1] the result lies between pre and conv, in either order |
| Assumptions.EnergyUsedTwice | integrations/building_integration.py:175-177 | applying the formula twice scales the gap to conv by (1 − r)² |
| Assumptions.IntegratedFactor | integrations/building_integration.py:173 | the factor drops by factor × r, and is unchanged at r = 0 |
| Assumptions.FactorBetween | integrations/building_integration.py:173 | for r in [0, 1] a non-negative factor stays non-negative and does not grow |
| Assumptions.FactorTwice | integrations/building_integration.py:290 | applying the reduction twice scales the factor by (1 − r)² |
| Assumptions.AutomationElectricalFactor | integrations/building_integration.py:345-353 | the result moves e towards 1 − a by the share 0.296 and towards 1 − 0.326 by the share 0.236 |
| Assumptions.AutomationFactorBetween | integrations/building_integration.py:345-353 | the weights sum to 1: the factor lies between the least and the greatest of e, 1 − a and 0.674 |
| Assumptions.AutomationFactorDecreasing | integrations/building_integration.py:345-353 | for fixed e the factor falls by 0.296 × (a2 − a1) as a grows from a1 to a2 |
| Assumptions.AutomationFactorFixedPoint | integrations/building_integration.py:345-353 | with a = 0.326 the factor is unchanged exactly when e = 0.674 |
| BuildingIntegration.StepKey | integrations/building_integration.py:116-153 | only the insulation step loads its default scenario; every other step loads `PDS1`, and only the commercial-glass step loads `smartglass` |
| BuildingIntegration.Coefficients | integrations/building_integration.py:158-160 | every impact coefficient lies in [0, 1], and exactly the averaging steps have a non-zero fuel coefficient |
| BuildingIntegration.StepReductions | integrations/building_integration.py:162-165 | a step that averages no overlap has zero reductions |
| BuildingIntegration.ReductionsProportional | integrations/building_integration.py:162-165 | the fuel and electricity reductions of a step stand in the proportion of its two coefficients, being one mean ratio times each |
| BuildingIntegration.FirstMissing | integrations/building_integration.py:167-177 | reports no field exactly when all are set, and otherwise the first unset field, all fields before it being set |
| BuildingIntegration.Changes | integrations/building_integration.py:186-188 | a step's changes name exactly the fields it writes |
| BuildingIntegration.Rewritten | integrations/building_integration.py:186-188 | the rewritten record holds the old fields plus the written ones |
| BuildingIntegration.ApplyStep | integrations/building_integration.py:153-190 | a failing step leaves the store unchanged and reports an error about its own scenario |
| BuildingIntegration.Run | integrations/building_integration.py:153-190 | a step that writes no field leaves the store unchanged |
| BuildingIntegration.StepFails | integrations/building_integration.py:153-177 | a step fails exactly when its scenario is unknown or a field it computes with is unset; it then names the unset field and leaves the store alone |
| BuildingIntegration.StepFrame | integrations/building_integration.py:186-190 | a step changes only its own scenario and only the fields it writes; its saving is the engine's saving for the persisted record |
| BuildingIntegration.StepLocal | integrations/building_integration.py:153-190 | a step's saving depends on the store only through its own scenario's record |
| BuildingIntegration.ReadOnlySteps | integrations/building_integration.py:300-303 | the insulation and commercial-glass steps leave the store unchanged, and succeed exactly when their scenario exists |
| BuildingIntegration.StepUpdate | integrations/building_integration.py:186-188 | a successful rewriting step found all its fields and persisted the rewritten record under its key |
| BuildingIntegration.OverlapWithinAdoption | integrations/building_integration.py:154-156 | for plausible inputs, each step's overlap lies between 0 and its positive adoption in every window year |
| BuildingIntegration.ReductionsInRange | integrations/building_integration.py:162-165 | for plausible inputs, each reduction factor lies between 0 and its coefficient (at most 1) |
| BuildingIntegration.RoofStepValues | integrations/building_integration.py:167-188 | with factors in [0, 1] a roof step puts the energy used between pre and conv, writes a reduced copy of the energy factor to the fuel factor, and keeps the energy factor |
| BuildingIntegration.GlassStepValues | integrations/building_integration.py:278-296 | with factors in [0, 1] the glass step puts the energy used between pre and conv and shrinks the fuel factor in place |
| BuildingIntegration.AutomationStepValues | integrations/building_integration.py:341-359 | with factors in [0, 1] building automation shrinks the fuel factor and sets the electrical factor between the least and greatest of e, 1 − a and 0.674 |
| BuildingIntegration.RoofRewriteTwice | integrations/building_integration.py:167-188 | rewriting twice with a roof step keeps the fuel factor of the first rewrite but compounds the energy used |
| BuildingIntegration.GlassRewriteTwice | integrations/building_integration.py:278-296 | rewriting twice with the glass step compounds both the fuel factor and the energy used |
| BuildingIntegration.StepRerun | integrations/building_integration.py:186-190 | running a rewriting step again succeeds and persists the twice-rewritten record |
| BuildingIntegration.RunSteps | integrations/building_integration.py:80-94 | running steps in order keeps the store's set of scenarios |
| BuildingIntegration.RunStepsFrame | integrations/building_integration.py:80-94 | a run of steps keeps the store's scenarios and leaves alone every scenario none of its steps loads |
| BuildingIntegration.RunStepsIsAloneTotal | integrations/building_integration.py:80-94 | steps loading distinct scenarios do not interact: running them in order equals running each alone on the initial store and adding the savings |
| BuildingIntegration.IntegrationOrderDistinct | integrations/building_integration.py:82-86 | the five steps of `integrate` load five distinct scenarios |
| BuildingIntegration.AloneTotalOfFive | integrations/building_integration.py:87-93 | five savings combine from the left |
| BuildingIntegration.CombineFive | integrations/building_integration.py:87-93 | five savings combined from the left succeed exactly when all five do, and then give the left-nested element-wise sum |
| BuildingIntegration.FiveStepsSumSavings | integrations/building_integration.py:80-94 | five steps loading distinct scenarios, run in order, succeed exactly when each succeeds alone, and then give the sum of their savings from the left |
| BuildingIntegration.IntegrateSumsSavings | integrations/building_integration.py:80-94 | the combined saving succeeds exactly when the five steps do, and is then the element-wise sum of the five savings |
| BuildingIntegration.Integration.constructor | integrations/building_integration.py:78 | the state holds the given inputs, engine and store |
| BuildingIntegration.Integration.LoadScenario | integrations/building_integration.py:153 | returns the stored record, or `UnknownScenario` when the scenario does not exist |
| BuildingIntegration.Integration.UpdateAc | integrations/building_integration.py:186-188 | the store afterwards is the old store with the scenario's record overridden by the changes |
| BuildingIntegration.Integration.RunStep | integrations/building_integration.py:153-190 | saving and new store are those of `Run` for the step on the old store |
| BuildingIntegration.Integration.InsulationIntegration | integrations/building_integration.py:96-118 | saving and new store are those of the insulation step |
| BuildingIntegration.Integration.CoolRoofsIntegration | integrations/building_integration.py:120-190 | saving and new store are those of the cool-roofs step |
| BuildingIntegration.Integration.GreenRoofsIntegration | integrations/building_integration.py:192-260 | saving and new store are those of the green-roofs step |
| BuildingIntegration.Integration.ResidentialGlassIntegration | integrations/building_integration.py:262-298 | saving and new store are those of the residential-glass step |
| BuildingIntegration.Integration.CommercialGlassIntegration | integrations/building_integration.py:300-303 | saving and new store are those of the commercial-glass step |
| BuildingIntegration.Integration.BuildingAutomationIntegration | integrations/building_integration.py:314-364 | saving and new store are those of the building-automation step |
| BuildingIntegration.Integration.Integrate | integrations/building_integration.py:80-94 | saving and new store are those of `RunSteps` over the five steps in order |

## Left out

- Loading the CSV TAM tables and the solutions' adoption (the state object's
  body, lines 47-76): the series are the `Inputs` of the model.
- The scenario factory, the on-disk write inside `update_ac` and
  `total_energy_saving`: their code is not part of this model. The store of
  records stands for the persisted records, and `engine` stands for the saving.
- The audit log (`start_audit`) and the debugger stop (`pdb.set_trace()`):
  they have no behaviour to specify.
- Floating point: the model computes with exact reals. NaN and infinity
  handling is not modelled; divisions by zero are excluded by `Ready`.
- Overlap.AutomationCandidate: takes the maximum only for the years all three
  candidates hold. `pandas`' row maximum skips missing values and would still
  give a value when one candidate lacks the year.
- The placeholder steps (lines 305-392), including
  `dynamic_glass_integration`, which loads the commercial-glass scenario and
  does nothing else: they carry no logic.
- The unused unit constants (lines 73-76), the unused
  `electricity_consumption_integrated` (lines 171, 246), and the glass step's
  unused reads of `conv_fuel_consumed_per_funit` (line 278) and
  `soln_energy_efficiency_factor` (line 280). Both fields exist in `Field`,
  but the glass step's `Reads` leaves them out: it never computes with them,
  so a record without them does not make it fail.
- The display-name table `building_solutions` (lines 14-31): `Solution` lists
  only the solutions the modelled steps load.
- The sign of the building-automation net impact, marked as unresolved in the
  source (line 363): the model returns the engine's saving unchanged.
