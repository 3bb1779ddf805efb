/**
 * Result records (`database/models/results.py`): the ammonium and hydrogen yields a scalar
 * result derives from its inputs and its experiment's conditions, the validators on the
 * hydrogen inputs, and the element lookup of an ICP result.
 *
 * Numbers are exact reals; IEEE rounding is not modelled.
 */
module Results {
  import opened Wrappers
  import opened PyStr
  import opened PyJson
  import Conditions

  // ---------------------------------------------------------------- ammonium yield

  /** The background ammonium assumed when none is recorded, in mM. */
  const DefaultBackgroundMm: real := 0.3
  /** Molar mass of NH4+ in g/mol. */
  const AmmoniumMolarMass: real := 18.04

  /** Gross minus background ammonium, never below zero. */
  function NetAmmonium(grossMm: real, backgroundMm: Option<real>): (r: real)
    ensures r >= 0.0 && r >= grossMm - backgroundMm.UnwrapOr(DefaultBackgroundMm)
    ensures r == 0.0 || r == grossMm - backgroundMm.UnwrapOr(DefaultBackgroundMm)
  {
    var bg := if backgroundMm.Some? then backgroundMm.value else DefaultBackgroundMm;
    if grossMm - bg > 0.0 then grossMm - bg else 0.0
  }

  /** The sampled liquid volume when it is positive, else the conditions' water volume. */
  function LiquidVolume(samplingVolumeMl: Option<real>, waterVolumeMl: Option<real>): (r: Option<real>)
    ensures samplingVolumeMl.Some? && samplingVolumeMl.value > 0.0 ==> r == samplingVolumeMl
    ensures !(samplingVolumeMl.Some? && samplingVolumeMl.value > 0.0) ==> r == waterVolumeMl
  {
    if samplingVolumeMl.Some? && samplingVolumeMl.value > 0.0 then samplingVolumeMl else waterVolumeMl
  }

  /** Grams of ammonium in the liquid: net mM over the volume, times the molar mass. */
  function AmmoniaMass(grossMm: Option<real>, backgroundMm: Option<real>, liquidMl: Option<real>): (r: Option<real>)
    ensures r.Some? <==> grossMm.Some? && liquidMl.Some? && liquidMl.value > 0.0
    ensures r.Some? ==> r.value >= 0.0
  {
    if grossMm.Some? && liquidMl.Some? && liquidMl.value > 0.0 then
      Some(AmmoniumGrams(NetAmmonium(grossMm.value, backgroundMm), liquidMl.value))
    else None
  }

  /** Grams of NH4+ in `liquidMl` of a `netMm` solution. */
  function AmmoniumGrams(netMm: real, liquidMl: real): real {
    (netMm / 1000.0) * (liquidMl / 1000.0) * AmmoniumMolarMass
  }

  /** Grams per ton of rock: a million times mass over rock mass in grams. */
  function GramsPerTon(massG: Option<real>, rockMassG: Option<real>): (r: Option<real>)
    ensures r.Some? <==> massG.Some? && rockMassG.Some? && rockMassG.value > 0.0
    ensures r.Some? ==> r.value * rockMassG.value == 1000000.0 * massG.value
  {
    if massG.Some? && rockMassG.Some? && rockMassG.value > 0.0 then Some(1000000.0 * (massG.value / rockMassG.value)) else None
  }

  /** The ammonium yield is never negative, and is zero when the gross does not exceed the background. */
  lemma AmmoniumYieldSign(grossMm: real, backgroundMm: Option<real>, liquidMl: real, rockMassG: real)
    requires liquidMl > 0.0 && rockMassG > 0.0
    ensures var y := GramsPerTon(AmmoniaMass(Some(grossMm), backgroundMm, Some(liquidMl)), Some(rockMassG));
      && y.Some? && y.value >= 0.0
      && (grossMm <= backgroundMm.UnwrapOr(DefaultBackgroundMm) ==> y.value == 0.0)
  {
    var m := AmmoniaMass(Some(grossMm), backgroundMm, Some(liquidMl));
    var y := GramsPerTon(m, Some(rockMassG));
    assert y.value * rockMassG >= 0.0;
  }

  // ---------------------------------------------------------------- hydrogen

  const GasConstant: real := 0.082057
  const TemperatureK: real := 298.15
  const AtmPerMpa: real := 9.86923
  const HydrogenMolarMass: real := 2.01588

  /** The two hydrogen outputs, in micromoles and micrograms. */
  datatype Hydrogen = Hydrogen(micromoles: Option<real>, massUg: Option<real>)

  /** The fraction of the gas that is hydrogen, for the units '%' and 'ppm' in any case. */
  function H2Fraction(concentration: real, unit: string): Option<real> {
    if Lower(unit) == "%" then Some(concentration / 100.0)
    else if Lower(unit) == "ppm" then Some(concentration / 1000000.0)
    else None
  }

  /**
   * `calculate_hydrogen` on its inputs: the ideal-gas moles at 25 °C of the sampled gas,
   * times the hydrogen fraction; nothing unless concentration and unit are given and volume
   * and pressure are positive, the unit is known, and the fraction is not negative.
   */
  function HydrogenOf(concentration: Option<real>, unit: Option<string>, volumeMl: Option<real>, pressureMpa: Option<real>): Hydrogen {
    if concentration.None? || unit.None? || volumeMl.None? || volumeMl.value <= 0.0 || pressureMpa.None? || pressureMpa.value <= 0.0 then
      Hydrogen(None, None)
    else if pressureMpa.value * AtmPerMpa <= 0.0 then Hydrogen(None, None)
    else
      match H2Fraction(concentration.value, unit.value)
      case None => Hydrogen(None, None)
      case Some(fraction) =>
        if fraction < 0.0 then Hydrogen(None, None)
        else FromMoles(Share(GasMoles(volumeMl.value, pressureMpa.value), fraction))
  }

  /** Total moles of an ideal gas sampled at 25 °C: PV / RT with P in atm and V in litres. */
  function GasMoles(volumeMl: real, pressureMpa: real): real {
    ((pressureMpa * AtmPerMpa) * (volumeMl / 1000.0)) / (GasConstant * TemperatureK)
  }

  /** The part `fraction` of `total`. */
  function Share(total: real, fraction: real): real {
    total * fraction
  }

  /** Moles of hydrogen as stored: micromoles and micrograms. */
  function FromMoles(moles: real): Hydrogen {
    Hydrogen(Some(moles * 1000000.0), Some(moles * HydrogenMolarMass * 1000000.0))
  }

  /**
   * Both outputs are present or both absent; they are present exactly when every input is
   * given and usable; then the mass is the micromoles times the molar mass of H2, and
   * neither is negative.
   */
  lemma HydrogenSpec(concentration: Option<real>, unit: Option<string>, volumeMl: Option<real>, pressureMpa: Option<real>)
    ensures var h := HydrogenOf(concentration, unit, volumeMl, pressureMpa);
      && (h.micromoles.Some? <==> h.massUg.Some?)
      && (h.micromoles.Some? <==>
            && concentration.Some? && concentration.value >= 0.0 && unit.Some? && (Lower(unit.value) == "%" || Lower(unit.value) == "ppm")
            && volumeMl.Some? && volumeMl.value > 0.0 && pressureMpa.Some? && pressureMpa.value > 0.0)
      && (h.micromoles.Some? ==> h.massUg.value == h.micromoles.value * HydrogenMolarMass && h.micromoles.value >= 0.0)
  {
    var h := HydrogenOf(concentration, unit, volumeMl, pressureMpa);
    if h.micromoles.Some? {
      assert GasMoles(volumeMl.value, pressureMpa.value) >= 0.0;
    }
  }

  /** A concentration in ppm is ten thousand times the same concentration in percent. */
  lemma HydrogenUnits(c: real, volumeMl: Option<real>, pressureMpa: Option<real>)
    ensures HydrogenOf(Some(c * 10000.0), Some("ppm"), volumeMl, pressureMpa) == HydrogenOf(Some(c), Some("%"), volumeMl, pressureMpa)
  {
    assert Lower("ppm") == "ppm" && Lower("%") == "%";
    assert H2Fraction(c * 10000.0, "ppm") == Some(c / 100.0);
    assert H2Fraction(c, "%") == Some(c / 100.0);
    if volumeMl.Some? && volumeMl.value > 0.0 && pressureMpa.Some? && pressureMpa.value > 0.0 && c >= 0.0 {
      var h := FromMoles(Share(GasMoles(volumeMl.value, pressureMpa.value), c / 100.0));
      assert HydrogenOf(Some(c), Some("%"), volumeMl, pressureMpa) == h;
      assert HydrogenOf(Some(c * 10000.0), Some("ppm"), volumeMl, pressureMpa) == h;
    }
  }

  /** Hydrogen normalised by rock mass: micrograms to grams, then per ton. */
  function H2GramsPerTon(rockMassG: Option<real>, massUg: Option<real>): (r: Option<real>)
    ensures r.Some? <==> rockMassG.Some? && rockMassG.value > 0.0 && massUg.Some?
    ensures r.Some? ==> r.value * rockMassG.value == massUg.value
  {
    if rockMassG.Some? && rockMassG.value > 0.0 && massUg.Some? then Some(1000000.0 * ((massUg.value / 1000000.0) / rockMassG.value))
    else None
  }

  // ---------------------------------------------------------------- validators

  /** `validate_non_negative` for the concentration, gas volume and pressure. */
  function ValidateNonNegative(key: string, value: Option<real>): (r: Checked<Option<real>>)
    ensures r.Kept? <==> value.None? || value.value >= 0.0
    ensures r.Kept? ==> r.value == value
    ensures r.Raised? ==> r.message == key + " must be non-negative."
  {
    if value.Some? && value.value < 0.0 then Raised(key + " must be non-negative.") else Kept(value)
  }

  /** `validate_h2_unit`: only '%' and 'ppm', exactly as spelled. */
  function ValidateH2Unit(value: Option<string>): (r: Checked<Option<string>>)
    ensures r.Kept? <==> value.None? || value.value == "%" || value.value == "ppm"
    ensures r.Kept? ==> r.value == value
  {
    if value.None? || value.value == "%" || value.value == "ppm" then Kept(value)
    else Raised("h2_concentration_unit must be one of ['%', 'ppm']")
  }

  /** Every unit the validator keeps is one the hydrogen calculation knows. */
  lemma ValidatedUnitKnown(u: string)
    requires ValidateH2Unit(Some(u)).Kept?
    ensures H2Fraction(0.0, u).Some?
  {
    assert Lower("%") == "%" && Lower("ppm") == "ppm";
  }

  // ---------------------------------------------------------------- the scalar record

  /** The inputs and derived outputs of a `ScalarResults` row. */
  class ScalarResults {
    var grossAmmoniumMm: Option<real>
    var backgroundAmmoniumMm: Option<real>
    var samplingVolumeMl: Option<real>
    var gramsPerTonYield: Option<real>
    var h2Concentration: Option<real>
    var h2ConcentrationUnit: Option<string>
    var gasSamplingVolumeMl: Option<real>
    var gasSamplingPressureMpa: Option<real>
    var h2Micromoles: Option<real>
    var h2MassUg: Option<real>
    var h2GramsPerTonYield: Option<real>

    constructor (grossAmmoniumMm: Option<real>, backgroundAmmoniumMm: Option<real>, samplingVolumeMl: Option<real>,
                 h2Concentration: Option<real>, h2ConcentrationUnit: Option<string>,
                 gasSamplingVolumeMl: Option<real>, gasSamplingPressureMpa: Option<real>)
      ensures Inputs() == (grossAmmoniumMm, backgroundAmmoniumMm, samplingVolumeMl, h2Concentration, h2ConcentrationUnit, gasSamplingVolumeMl, gasSamplingPressureMpa)
      ensures gramsPerTonYield == None && h2Micromoles == None && h2MassUg == None && h2GramsPerTonYield == None
    {
      this.grossAmmoniumMm := grossAmmoniumMm;
      this.backgroundAmmoniumMm := backgroundAmmoniumMm;
      this.samplingVolumeMl := samplingVolumeMl;
      this.h2Concentration := h2Concentration;
      this.h2ConcentrationUnit := h2ConcentrationUnit;
      this.gasSamplingVolumeMl := gasSamplingVolumeMl;
      this.gasSamplingPressureMpa := gasSamplingPressureMpa;
      gramsPerTonYield, h2Micromoles, h2MassUg, h2GramsPerTonYield := None, None, None, None;
    }

    /** The fields the calculations read and never write. */
    function Inputs(): (Option<real>, Option<real>, Option<real>, Option<real>, Option<string>, Option<real>, Option<real>)
      reads this
    {
      (grossAmmoniumMm, backgroundAmmoniumMm, samplingVolumeMl, h2Concentration, h2ConcentrationUnit, gasSamplingVolumeMl, gasSamplingPressureMpa)
    }

    /** `calculate_hydrogen`: both hydrogen outputs from the gas inputs. */
    method CalculateHydrogen()
      modifies this
      ensures Inputs() == old(Inputs()) && gramsPerTonYield == old(gramsPerTonYield) && h2GramsPerTonYield == old(h2GramsPerTonYield)
      ensures Hydrogen(h2Micromoles, h2MassUg) == HydrogenOf(h2Concentration, h2ConcentrationUnit, gasSamplingVolumeMl, gasSamplingPressureMpa)
    {
      // Every early `return` of the source leaves both outputs None.
      var micromoles: Option<real> := None;
      var massUg: Option<real> := None;
      if !(h2Concentration.None? || h2ConcentrationUnit.None? || gasSamplingVolumeMl.None? || gasSamplingVolumeMl.value <= 0.0
        || gasSamplingPressureMpa.None? || gasSamplingPressureMpa.value <= 0.0)
      {
        var pAtm := gasSamplingPressureMpa.value * AtmPerMpa;
        if pAtm > 0.0 {
          var volumeL := gasSamplingVolumeMl.value / 1000.0;
          var totalMoles := (pAtm * volumeL) / (GasConstant * TemperatureK);
          assert totalMoles == GasMoles(gasSamplingVolumeMl.value, gasSamplingPressureMpa.value);
          var unit := Lower(h2ConcentrationUnit.value);
          var fraction: Option<real> := None;
          if unit == "%" {
            fraction := Some(h2Concentration.value / 100.0);
          } else if unit == "ppm" {
            fraction := Some(h2Concentration.value / 1000000.0);
          }
          assert fraction == H2Fraction(h2Concentration.value, h2ConcentrationUnit.value);
          if fraction.Some? && fraction.value >= 0.0 {
            var moles := totalMoles * fraction.value;
            assert moles == Share(totalMoles, fraction.value);
            micromoles := Some(moles * 1000000.0);
            massUg := Some(moles * HydrogenMolarMass * 1000000.0);
          }
        }
      }
      h2Micromoles, h2MassUg := micromoles, massUg;
    }

    /** The ammonium half of `calculate_yields`: the grams-per-ton yield from the row's own columns. */
    method AmmoniaYield(conditions: Conditions.ExperimentalConditions) returns (y: Option<real>)
      ensures y == GramsPerTon(AmmoniaMass(grossAmmoniumMm, backgroundAmmoniumMm, LiquidVolume(samplingVolumeMl, conditions.waterVolumeMl)), conditions.rockMassG)
    {
      var rockMass := conditions.rockMassG;
      var liquidVolume := if samplingVolumeMl.Some? && samplingVolumeMl.value > 0.0 then samplingVolumeMl else conditions.waterVolumeMl;
      var ammoniaMass: Option<real> := None;
      if grossAmmoniumMm.Some? && liquidVolume.Some? && liquidVolume.value > 0.0 {
        var bg := if backgroundAmmoniumMm.Some? then backgroundAmmoniumMm.value else DefaultBackgroundMm;
        var net := if grossAmmoniumMm.value - bg > 0.0 then grossAmmoniumMm.value - bg else 0.0;
        assert net == NetAmmonium(grossAmmoniumMm.value, backgroundAmmoniumMm);
        ammoniaMass := Some((net / 1000.0) * (liquidVolume.value / 1000.0) * AmmoniumMolarMass);
        assert ammoniaMass.value == AmmoniumGrams(net, liquidVolume.value);
      }
      if ammoniaMass.Some? && rockMass.Some? && rockMass.value > 0.0 {
        y := Some(1000000.0 * (ammoniaMass.value / rockMass.value));
      } else {
        y := None;
      }
      assert liquidVolume == LiquidVolume(samplingVolumeMl, conditions.waterVolumeMl);
      assert ammoniaMass == AmmoniaMass(grossAmmoniumMm, backgroundAmmoniumMm, liquidVolume);
      assert y == GramsPerTon(ammoniaMass, rockMass);
    }

    /**
     * `calculate_yields`. `conditions` is the conditions record reached through the result
     * entry and its experiment, null where that chain is broken: then only hydrogen is
     * computed and both per-ton yields are cleared.
     */
    method CalculateYields(conditions: Conditions.ExperimentalConditions?)
      modifies this
      ensures Inputs() == old(Inputs())
      ensures Hydrogen(h2Micromoles, h2MassUg) == HydrogenOf(h2Concentration, h2ConcentrationUnit, gasSamplingVolumeMl, gasSamplingPressureMpa)
      ensures conditions == null ==> gramsPerTonYield == None && h2GramsPerTonYield == None
      ensures conditions != null ==>
        && gramsPerTonYield == GramsPerTon(AmmoniaMass(grossAmmoniumMm, backgroundAmmoniumMm, LiquidVolume(samplingVolumeMl, conditions.waterVolumeMl)), conditions.rockMassG)
        && h2GramsPerTonYield == H2GramsPerTon(conditions.rockMassG, h2MassUg)
    {
      if conditions == null {
        gramsPerTonYield := None;
        CalculateHydrogen();
        h2GramsPerTonYield := None;
        return;
      }
      var rockMass := conditions.rockMassG;
      gramsPerTonYield := AmmoniaYield(conditions);
      CalculateHydrogen();
      if rockMass.Some? && rockMass.value > 0.0 && h2MassUg.Some? {
        h2GramsPerTonYield := Some(1000000.0 * ((h2MassUg.value / 1000000.0) / rockMass.value));
      } else {
        h2GramsPerTonYield := None;
      }
    }
  }

  // ---------------------------------------------------------------- ICP results

  /** `ICPResults.validate_json`: only `None` and dicts are kept. */
  function ValidateIcpJson(key: string, value: Json): (r: Checked<Json>)
    ensures r.Kept? <==> value.JNull? || value.JObject?
    ensures r.Kept? ==> r.value == value
    ensures r.Raised? ==> r.message == key + " must be a valid JSON object."
  {
    if value.JNull? || value.JObject? then Kept(value) else Raised(key + " must be a valid JSON object.")
  }

  /**
   * An ICP result row: every attribute by name (the element columns `fe` … `tl` and the
   * others, with `JNull` for a null column) and the all-elements document.
   */
  datatype IcpRow = IcpRow(attributes: map<string, Json>, allElements: Json)

  /**
   * `get_element_concentration`: the row's non-null attribute named by the lower-cased
   * symbol, else the all-elements entry for it, else 0.
   */
  function GetElementConcentration(row: IcpRow, symbol: string): Json {
    var key := Lower(symbol);
    if key in row.attributes && !row.attributes[key].JNull? then row.attributes[key]
    else if IsNonEmptyDict(row.allElements) then Get(row.allElements.entries, key, JNum(0.0))
    else JNum(0.0)
  }

  /**
   * A non-null fixed column wins over the document whatever it holds; a null or absent
   * column defers to the document's entry; with neither, the answer is 0. Symbols are
   * compared in lower case.
   */
  lemma GetElementConcentrationSpec(row: IcpRow, symbol: string)
    ensures var key := Lower(symbol);
      && (key in row.attributes && !row.attributes[key].JNull? ==> GetElementConcentration(row, symbol) == row.attributes[key])
      && (!(key in row.attributes && !row.attributes[key].JNull?) && row.allElements.JObject? && DistinctKeys(row.allElements.entries) ==>
            forall i | 0 <= i < |row.allElements.entries| && row.allElements.entries[i].0 == key ::
              GetElementConcentration(row, symbol) == row.allElements.entries[i].1)
      && (!(key in row.attributes && !row.attributes[key].JNull?) && !IsNonEmptyDict(row.allElements) ==> GetElementConcentration(row, symbol) == JNum(0.0))
      && (!(key in row.attributes && !row.attributes[key].JNull?) && IsNonEmptyDict(row.allElements) &&
            (forall i | 0 <= i < |row.allElements.entries| :: row.allElements.entries[i].0 != key)
          ==> GetElementConcentration(row, symbol) == JNum(0.0))
      && GetElementConcentration(row, Lower(symbol)) == GetElementConcentration(row, symbol)
  {
    var key := Lower(symbol);
    LowerIdempotent(symbol);
    if !(key in row.attributes && !row.attributes[key].JNull?) && row.allElements.JObject? && DistinctKeys(row.allElements.entries) {
      forall i | 0 <= i < |row.allElements.entries| && row.allElements.entries[i].0 == key
        ensures GetElementConcentration(row, symbol) == row.allElements.entries[i].1
      {
        LookupAt(row.allElements.entries, i);
      }
    }
  }
}
