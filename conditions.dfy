/**
 * An experiment's conditions record (`database/models/conditions.py`): the derived
 * water-to-rock ratio and the additive summary text.
 */
module Conditions {
  import opened Wrappers
  import opened PyStr

  /** Water volume over rock mass, when both are known and the mass is positive. */
  function WaterToRockRatio(waterVolumeMl: Option<real>, rockMassG: Option<real>): (r: Option<real>)
    ensures r.Some? <==> waterVolumeMl.Some? && rockMassG.Some? && rockMassG.value > 0.0
    ensures r.Some? ==> r.value * rockMassG.value == waterVolumeMl.value
  {
    if waterVolumeMl.Some? && rockMassG.Some? && rockMassG.value > 0.0 then Some(waterVolumeMl.value / rockMassG.value)
    else None
  }

  /** Doubling the water over the same rock doubles the ratio; the ratio of equal amounts is 1. */
  lemma WaterToRockRatioScales(water: real, rock: real)
    requires rock > 0.0
    ensures WaterToRockRatio(Some(2.0 * water), Some(rock)).value == 2.0 * WaterToRockRatio(Some(water), Some(rock)).value
    ensures WaterToRockRatio(Some(rock), Some(rock)) == Some(1.0)
  {
  }

  /**
   * `formatted_additives`: the additives' display strings, one per line, in relationship
   * order; the empty string without additives. How one additive is displayed
   * (`format_additive`) is not part of this model: the strings are given.
   */
  function FormattedAdditives(items: seq<string>): (r: string)
    ensures items == [] ==> r == ""
    ensures |items| == 1 ==> r == items[0]
  {
    if items == [] then "" else Join(items, '\n')
  }

  /** One-line display strings are recovered by splitting the summary at its line breaks. */
  lemma FormattedAdditivesLines(items: seq<string>)
    requires items != [] && forall i | 0 <= i < |items| :: '\n' !in items[i]
    ensures Split(FormattedAdditives(items), '\n') == items
  {
    SplitJoin(items, '\n');
  }

  /** The fields of the record that the modelled code reads or writes. */
  class ExperimentalConditions {
    var experimentId: string
    var rockMassG: Option<real>
    var waterVolumeMl: Option<real>
    var experimentType: Option<string>
    var reactorNumber: Option<int>
    var waterToRockRatio: Option<real>

    constructor (experimentId: string, rockMassG: Option<real>, waterVolumeMl: Option<real>, experimentType: Option<string>, reactorNumber: Option<int>)
      ensures this.experimentId == experimentId && this.rockMassG == rockMassG && this.waterVolumeMl == waterVolumeMl
      ensures this.experimentType == experimentType && this.reactorNumber == reactorNumber && waterToRockRatio == None
    {
      this.experimentId := experimentId;
      this.rockMassG := rockMassG;
      this.waterVolumeMl := waterVolumeMl;
      this.experimentType := experimentType;
      this.reactorNumber := reactorNumber;
      waterToRockRatio := None;
    }

    /**
     * `calculate_derived_conditions`: the ratio is recomputed, and cleared when an input
     * is missing or the rock mass is not positive; no other field changes.
     */
    method CalculateDerivedConditions()
      modifies this
      ensures waterToRockRatio == WaterToRockRatio(waterVolumeMl, rockMassG)
      ensures experimentId == old(experimentId) && rockMassG == old(rockMassG) && waterVolumeMl == old(waterVolumeMl)
      ensures experimentType == old(experimentType) && reactorNumber == old(reactorNumber)
    {
      if waterVolumeMl.Some? && rockMassG.Some? && rockMassG.value > 0.0 {
        waterToRockRatio := Some(waterVolumeMl.value / rockMassG.value);
      } else {
        waterToRockRatio := None;
      }
    }
  }
}
