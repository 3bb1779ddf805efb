/**
 * A chemical additive of an experiment (`database/models/chemicals.py`): conversion of the
 * entered amount to grams, and the derived mass, moles, concentration and catalyst loading.
 *
 * Two defects of the source are recorded here and corrected in the definitions the rest of
 * the model uses:
 *  - the first unit branch compares against `AmountUnit.PERCENT_OF_ROCK`, a member the enum
 *    does not define, so every call raises after the derived fields are reset
 *    (`DeriveAsWritten`); the corrected derivation (`Derive`) has no such branch;
 *  - the conditions record is asked for `water_volume` and `rock_mass`, attributes it does not
 *    have, so the context is always empty (`ContextAsWritten`); the corrected context
 *    (`ContextOf`) reads `water_volume_mL` and `rock_mass_g`.
 */
module Chemicals {
  import opened Wrappers
  import opened PyStr
  import opened Enums
  import PyNum
  import Conditions

  /** The `Compound` columns the derivation reads. */
  datatype Compound = Compound(name: string, molecularWeight: Option<real>, elementalFraction: Option<real>)

  /** Python truthiness of an optional float: present and non-zero. */
  predicate Truthy(x: Option<real>) {
    x.Some? && x.value != 0.0
  }

  /** The water volume (mL) and rock mass (g) read from the linked conditions record. */
  datatype Context = Context(waterVolumeMl: Option<real>, rockMass: Option<real>)
  {
    /** The solution volume in litres, known only for a positive water volume. */
    function VolumeLiters(): (r: Option<real>)
      ensures r.Some? <==> waterVolumeMl.Some? && waterVolumeMl.value > 0.0
      ensures r.Some? ==> r.value * 1000.0 == waterVolumeMl.value && r.value > 0.0
    {
      if waterVolumeMl.Some? && waterVolumeMl.value > 0.0 then Some(waterVolumeMl.value / 1000.0) else None
    }
  }

  const NoContext := Context(None, None)

  /**
   * As written: the conditions record is asked for `water_volume` and `rock_mass`; it has
   * neither attribute, so `getattr`'s default None is read whatever the record holds.
   */
  function ContextAsWritten(waterVolumeMl: Option<real>, rockMassG: Option<real>): (ctx: Context)
    ensures ctx.VolumeLiters().None? && ctx.rockMass.None?
  {
    NoContext
  }

  /** Corrected: the record's `water_volume_mL` and `rock_mass_g`. */
  function ContextOf(waterVolumeMl: Option<real>, rockMassG: Option<real>): (ctx: Context)
    ensures ctx.VolumeLiters().Some? <==> waterVolumeMl.Some? && waterVolumeMl.value > 0.0
    ensures ctx.rockMass == rockMassG
  {
    Context(waterVolumeMl, rockMassG)
  }

  // ---------------------------------------------------------------- conversion to grams

  /** Grams per unit for the mass and volume units (water density 1 g/mL assumed); None otherwise. */
  function GramsPer(unit: AmountUnit): Option<real> {
    match unit
    case Gram => Some(1.0)
    case Milligram => Some(0.001)
    case Microgram => Some(0.000001)
    case Kilogram => Some(1000.0)
    case Microliter => Some(0.001)
    case Milliliter => Some(1.0)
    case Liter => Some(1000.0)
    case _ => None
  }

  predicate IsMassOrVolume(unit: AmountUnit) {
    unit in {Gram, Milligram, Microgram, Kilogram, Microliter, Milliliter, Liter}
  }

  /** `_convert_to_grams`: None for a zero amount and for mole or concentration units. */
  function ConvertToGrams(amount: real, unit: AmountUnit): (r: Option<real>)
    ensures r.Some? <==> amount != 0.0 && IsMassOrVolume(unit)
    ensures unit == Gram && amount != 0.0 ==> r == Some(amount)
    ensures r.Some? ==> r.value != 0.0
  {
    if amount == 0.0 then None
    else match GramsPer(unit)
      case Some(factor) => Some(amount * factor)
      case None => None
  }

  /**
   * The conversions agree with one another: a kilogram is 1000 grams, 1000 milligrams are a
   * gram, a millilitre weighs a gram and a litre a kilogram, a microlitre a milligram.
   */
  lemma ConvertToGramsConsistent(a: real)
    ensures ConvertToGrams(a, Kilogram) == ConvertToGrams(1000.0 * a, Gram)
    ensures ConvertToGrams(1000.0 * a, Milligram) == ConvertToGrams(a, Gram)
    ensures ConvertToGrams(1000000.0 * a, Microgram) == ConvertToGrams(a, Gram)
    ensures ConvertToGrams(a, Milliliter) == ConvertToGrams(a, Gram)
    ensures ConvertToGrams(a, Liter) == ConvertToGrams(a, Kilogram)
    ensures ConvertToGrams(a, Microliter) == ConvertToGrams(a, Milligram)
  {
  }

  // ---------------------------------------------------------------- derived values

  /** The seven derived fields, in the order the source resets them. */
  datatype Derived = Derived(
    massInGrams: Option<real>,
    molesAdded: Option<real>,
    finalConcentration: Option<real>,
    concentrationUnits: Option<string>,
    elementalMetalMass: Option<real>,
    catalystPercentage: Option<real>,
    catalystPpm: Option<int>)

  const Reset := Derived(None, None, None, None, None, None, None)

  /** The outcome of the derivation as written: the fields as they stand when it returns or raises. */
  datatype Outcome = Returned(fields: Derived) | RaisedAttributeError(fields: Derived)

  /**
   * As written: after the reset, the first comparison evaluates `AmountUnit.PERCENT_OF_ROCK`;
   * the enum defines no such member, so `AttributeError` propagates for every unit, with all
   * seven fields left None.
   */
  function DeriveAsWritten(amount: real, unit: AmountUnit, compound: Option<Compound>, ctx: Context): (r: Outcome)
    ensures r.RaisedAttributeError? && r.fields == Reset
  {
    RaisedAttributeError(Reset)
  }

  /** The mass, moles and concentration set by the unit branch. */
  datatype Quantities = Quantities(mass: Option<real>, moles: Option<real>, final: Option<real>, units: Option<string>)

  /** A ppm (mg/L) amount in a volume, in grams. */
  function PpmGrams(ppm: real, liters: real): real { ppm * liters / 1000.0 / 1000.0 }
  /** Moles of a millimolar amount in a volume. */
  function MillimolarMoles(mm: real, liters: real): real { mm / 1000.0 * liters }
  /** Moles of a molar amount in a volume. */
  function MolarMoles(m: real, liters: real): real { m * liters }
  /** Grams of a number of moles. */
  function MolesToGrams(moles: real, mw: real): real { moles * mw }
  /** Moles of a mass. */
  function GramsToMoles(grams: real, mw: real): real
    requires mw != 0.0
  {
    grams / mw
  }
  /** A number of moles dissolved in a volume, in mM. */
  function MolesToMillimolar(moles: real, liters: real): real
    requires liters != 0.0
  {
    moles / liters * 1000.0
  }
  /** A mass dissolved in a volume, in ppm. */
  function GramsToPpm(grams: real, liters: real): real
    requires liters != 0.0
  {
    grams / liters * 1000000.0
  }

  /** The scale of the amount-of-substance units, in moles. */
  function MoleScale(unit: AmountUnit): real
    requires unit in {Micromole, Millimole, Mole}
  {
    match unit
    case Micromole => 0.000001
    case Millimole => 0.001
    case Mole => 1.0
  }

  /** Moles from a known mass and molecular weight, when both are truthy. */
  function MolesOfMass(mass: Option<real>, mw: Option<real>): Option<real> {
    if Truthy(mass) && Truthy(mw) then Some(GramsToMoles(mass.value, mw.value)) else None
  }

  /** Mass from known moles and a truthy molecular weight. */
  function MassOfMoles(moles: real, mw: Option<real>): Option<real> {
    if Truthy(mw) then Some(MolesToGrams(moles, mw.value)) else None
  }

  /** The unit branches of `calculate_derived_values` (without the undefined first branch). */
  function QuantitiesOf(amount: real, unit: AmountUnit, mw: Option<real>, liters: Option<real>): (q: Quantities)
    requires liters.Some? ==> liters.value > 0.0
  {
    match unit
    case Ppm =>
      var mass := if liters.Some? then Some(PpmGrams(amount, liters.value)) else None;
      Quantities(mass, MolesOfMass(mass, mw), Some(amount), Some("ppm"))
    case Millimolar =>
      if liters.Some? then
        var moles := MillimolarMoles(amount, liters.value);
        Quantities(MassOfMoles(moles, mw), Some(moles), Some(amount), Some("mM"))
      else Quantities(None, None, Some(amount), Some("mM"))
    case Molar =>
      if liters.Some? then
        var moles := MolarMoles(amount, liters.value);
        Quantities(MassOfMoles(moles, mw), Some(moles), Some(amount), Some("M"))
      else Quantities(None, None, Some(amount), Some("M"))
    case Micromole | Millimole | Mole =>
      var moles := amount * MoleScale(unit);
      if liters.Some? then Quantities(MassOfMoles(moles, mw), Some(moles), Some(MolesToMillimolar(moles, liters.value)), Some("mM"))
      else Quantities(MassOfMoles(moles, mw), Some(moles), None, None)
    case _ =>
      var mass := ConvertToGrams(amount, unit);
      if Truthy(mass) && liters.Some? then Quantities(mass, MolesOfMass(mass, mw), Some(GramsToPpm(mass.value, liters.value)), Some("ppm"))
      else Quantities(mass, MolesOfMass(mass, mw), None, None)
  }

  /** The unit branch of `calculate_derived_values`, statement by statement. */
  method UnitBranch(amount: real, unit: AmountUnit, mw: Option<real>, liters: Option<real>) returns (q: Quantities)
    requires liters.Some? ==> liters.value > 0.0
    ensures q == QuantitiesOf(amount, unit, mw, liters)
  {
    var mass: Option<real>, added: Option<real>, conc: Option<real>, units: Option<string> := None, None, None, None;
    match unit {
      case Ppm =>
        if liters.Some? {
          mass := Some(PpmGrams(amount, liters.value));
        }
        added := MolesOfMass(mass, mw);
        conc := Some(amount);
        units := Some("ppm");
      case Millimolar =>
        if liters.Some? {
          var moles := MillimolarMoles(amount, liters.value);
          added := Some(moles);
          mass := MassOfMoles(moles, mw);
        }
        conc := Some(amount);
        units := Some("mM");
      case Molar =>
        if liters.Some? {
          var moles := MolarMoles(amount, liters.value);
          added := Some(moles);
          mass := MassOfMoles(moles, mw);
        }
        conc := Some(amount);
        units := Some("M");
      case Micromole | Millimole | Mole =>
        var moles := amount * MoleScale(unit);
        added := Some(moles);
        mass := MassOfMoles(moles, mw);
        if liters.Some? {
          conc := Some(MolesToMillimolar(moles, liters.value));
          units := Some("mM");
        }
      case _ =>
        mass := ConvertToGrams(amount, unit);
        added := MolesOfMass(mass, mw);
        if Truthy(mass) && liters.Some? {
          conc := Some(GramsToPpm(mass.value, liters.value));
          units := Some("ppm");
        }
    }
    q := Quantities(mass, added, conc, units);
  }

  const NickelFraction: real := 58.69 / 237.69
  const CopperFraction: real := 63.55 / 170.48

  /**
   * The elemental metal fraction of a catalyst: the compound's own when truthy, else nickel
   * (NiCl2·6H2O) when the lower-cased name contains "nickel" or "ni", else copper
   * (CuCl2·2H2O) for "copper" or "cu".
   */
  function ElementalFraction(c: Compound): (r: Option<real>)
    ensures Truthy(c.elementalFraction) ==> r == c.elementalFraction
    ensures r.Some? ==> r == c.elementalFraction || r.value in {NickelFraction, CopperFraction}
    ensures !Truthy(c.elementalFraction) && (Contains(Lower(c.name), "nickel") || Contains(Lower(c.name), "ni"))
      ==> r == Some(NickelFraction)
    ensures !Truthy(c.elementalFraction) && !(Contains(Lower(c.name), "nickel") || Contains(Lower(c.name), "ni"))
      ==> r == (if Contains(Lower(c.name), "copper") || Contains(Lower(c.name), "cu") then Some(CopperFraction) else None)
  {
    if Truthy(c.elementalFraction) then c.elementalFraction
    else
      var name := Lower(c.name);
      if Contains(name, "nickel") || Contains(name, "ni") then Some(NickelFraction)
      else if Contains(name, "copper") || Contains(name, "cu") then Some(CopperFraction)
      else None
  }

  /** Metal mass of a catalyst mass. */
  function MetalMass(grams: real, fraction: real): real { grams * fraction }
  /** Metal mass as a percentage of the rock mass. */
  function RockPercent(metal: real, rock: real): real
    requires rock != 0.0
  {
    metal / rock * 100.0
  }
  /** Metal concentration in the water, in ppm by mass (1 g/mL), before rounding. */
  function UnroundedPpm(metal: real, waterMl: real): real
    requires waterMl != 0.0
  {
    metal / waterMl * 1000000.0
  }
  /** `round(x / 10) * 10` with Python's ties-to-even `round`. */
  function RoundToTen(x: real): (n: int)
    ensures n % 10 == 0
    ensures x - 5.0 <= n as real <= x + 5.0
  {
    PyNum.RoundHalfEven(x / 10.0) * 10
  }

  /** The catalyst fields: metal mass, rock percentage and water ppm. */
  datatype Catalyst = Catalyst(metal: Option<real>, percent: Option<real>, ppm: Option<int>)

  function CatalystOf(mass: Option<real>, compound: Option<Compound>, ctx: Context): (r: Catalyst)
    ensures r.metal.Some? <==> Truthy(mass) && mass.value > 0.0 && compound.Some? && Truthy(ElementalFraction(compound.value))
    ensures r.percent.Some? <==> r.metal.Some? && ctx.rockMass.Some? && ctx.rockMass.value > 0.0
    ensures r.ppm.Some? <==> r.metal.Some? && ctx.waterVolumeMl.Some? && ctx.waterVolumeMl.value > 0.0
    ensures r.ppm.Some? ==> r.ppm.value % 10 == 0
  {
    if Truthy(mass) && mass.value > 0.0 && compound.Some? && Truthy(ElementalFraction(compound.value)) then
      var metal := MetalMass(mass.value, ElementalFraction(compound.value).value);
      Catalyst(
        Some(metal),
        if ctx.rockMass.Some? && ctx.rockMass.value > 0.0 then Some(RockPercent(metal, ctx.rockMass.value)) else None,
        if ctx.waterVolumeMl.Some? && ctx.waterVolumeMl.value > 0.0 then Some(RoundToTen(UnroundedPpm(metal, ctx.waterVolumeMl.value))) else None)
    else Catalyst(None, None, None)
  }

  function MolecularWeight(compound: Option<Compound>): Option<real> {
    if compound.Some? then compound.value.molecularWeight else None
  }

  /** `calculate_derived_values` without its undefined first branch: all seven fields. */
  function Derive(amount: real, unit: AmountUnit, compound: Option<Compound>, ctx: Context): (r: Derived)
    ensures r.elementalMetalMass.Some? ==> r.massInGrams.Some? && r.massInGrams.value > 0.0 && compound.Some?
    ensures r.catalystPpm.Some? ==> r.catalystPpm.value % 10 == 0 && r.elementalMetalMass.Some?
    ensures r.catalystPercentage.Some? ==> r.elementalMetalMass.Some? && ctx.rockMass.Some? && ctx.rockMass.value > 0.0
    ensures r.finalConcentration.Some? <==> r.concentrationUnits.Some?
  {
    var q := QuantitiesOf(amount, unit, MolecularWeight(compound), ctx.VolumeLiters());
    var c := CatalystOf(q.mass, compound, ctx);
    Derived(q.mass, q.moles, q.final, q.units, c.metal, c.percent, c.ppm)
  }

  // ---------------------------------------------------------------- properties of the derivation

  /** Concentration units echo the entered amount as the final concentration, labelled with the unit. */
  lemma ConcentrationEchoed(amount: real, unit: AmountUnit, compound: Option<Compound>, ctx: Context)
    requires unit in {Ppm, Millimolar, Molar}
    ensures Derive(amount, unit, compound, ctx).finalConcentration == Some(amount)
    ensures Derive(amount, unit, compound, ctx).concentrationUnits == Some(UnitValue(unit))
  {
  }

  /** Amount-of-substance units give moles = amount × scale, and grams = moles × MW when MW is known. */
  lemma MolesScaled(amount: real, unit: AmountUnit, compound: Option<Compound>, ctx: Context)
    requires unit in {Micromole, Millimole, Mole}
    ensures Derive(amount, unit, compound, ctx).molesAdded == Some(amount * MoleScale(unit))
    ensures Truthy(MolecularWeight(compound)) ==>
      Derive(amount, unit, compound, ctx).massInGrams == Some(MolesToGrams(amount * MoleScale(unit), MolecularWeight(compound).value))
    ensures !Truthy(MolecularWeight(compound)) ==> Derive(amount, unit, compound, ctx).massInGrams == None
  {
  }

  /** Without a known volume, only amount-of-substance and mass/volume units yield a mass. */
  lemma NoVolumeNoConcentrationMass(amount: real, unit: AmountUnit, compound: Option<Compound>)
    requires unit in {Ppm, Millimolar, Molar}
    ensures Derive(amount, unit, compound, NoContext).massInGrams == None
    ensures Derive(amount, unit, compound, NoContext).molesAdded == None
  {
  }

  /**
   * A ppm entry and a gram entry are inverse: the grams derived from `amount` ppm in a given
   * water volume, entered back in grams, give a final concentration of `amount` ppm.
   */
  lemma PpmGramsRoundTrip(amount: real, water: real)
    requires water > 0.0 && amount != 0.0
    ensures Derive(amount, Ppm, None, Context(Some(water), None)).massInGrams.Some?
    ensures
      var grams := Derive(amount, Ppm, None, Context(Some(water), None)).massInGrams.value;
      Derive(grams, Gram, None, Context(Some(water), None)).finalConcentration == Some(amount)
  {
    var liters := water / 1000.0;
    var grams := PpmGrams(amount, liters);
    assert grams * 1000000.0 == amount * liters;
    assert grams != 0.0;
    assert GramsToPpm(grams, liters) == amount by {
      calc {
        GramsToPpm(grams, liters);
        grams / liters * 1000000.0;
        (grams * 1000000.0) / liters;
        (amount * liters) / liters;
        amount;
      }
    }
  }

  /** One molar over a volume gives the same moles as a thousand millimolar. */
  lemma MolarMillimolarAgree(amount: real, ctx: Context, compound: Option<Compound>)
    ensures Derive(amount, Molar, compound, ctx).molesAdded == Derive(1000.0 * amount, Millimolar, compound, ctx).molesAdded
  {
    if ctx.VolumeLiters().Some? {
      var l := ctx.VolumeLiters().value;
      assert MillimolarMoles(1000.0 * amount, l) == MolarMoles(amount, l);
    }
  }

  /** The catalyst ppm is the unrounded ppm rounded to a multiple of ten, at most 5 away. */
  lemma CatalystPpmRounded(amount: real, unit: AmountUnit, compound: Option<Compound>, ctx: Context)
    requires Derive(amount, unit, compound, ctx).catalystPpm.Some?
    ensures
      var d := Derive(amount, unit, compound, ctx);
      var exact := UnroundedPpm(d.elementalMetalMass.value, ctx.waterVolumeMl.value);
      d.catalystPpm.value % 10 == 0 &&
      exact - 5.0 <= d.catalystPpm.value as real <= exact + 5.0
  {
  }

  /** A compound's own elemental fraction scales the metal mass; without one, names decide. */
  lemma MetalMassOfFraction(grams: real, c: Compound, ctx: Context)
    requires grams > 0.0 && Truthy(c.elementalFraction)
    ensures CatalystOf(Some(grams), Some(c), ctx).metal == Some(grams * c.elementalFraction.value)
  {
  }

  /** "ammonium" contains "ni": an ammonium salt without its own fraction is taken for nickel. */
  lemma AmmoniumTakenForNickel()
    ensures ElementalFraction(Compound("ammonium chloride", None, None)) == Some(NickelFraction)
  {
    var name := Lower("ammonium chloride");
    assert name[4] == 'n' && name[5] == 'i';
    assert name[4..6] == "ni";
    ContainsAt(name, "ni", 4);
  }

  /** As written, every call raises; the corrected derivation returns fields (a mass for a gram entry). */
  lemma PercentOfRockRaises(amount: real, unit: AmountUnit, compound: Option<Compound>, ctx: Context)
    requires unit == Gram && amount != 0.0
    ensures DeriveAsWritten(amount, unit, compound, ctx).RaisedAttributeError?
    ensures DeriveAsWritten(amount, unit, compound, ctx).fields.massInGrams == None
    ensures Derive(amount, unit, compound, ctx).massInGrams == Some(amount)
  {
  }

  /**
   * As written, a ppm additive over 500 mL of water gets no mass, because the context is
   * empty; with the corrected context it gets amount × 0.5 / 10^6 grams.
   */
  lemma WrongAttributesLoseVolume(amount: real)
    requires amount != 0.0
    ensures Derive(amount, Ppm, None, ContextAsWritten(Some(500.0), Some(100.0))).massInGrams == None
    ensures Derive(amount, Ppm, None, ContextOf(Some(500.0), Some(100.0))).massInGrams == Some(amount * 0.5 / 1000000.0)
  {
    assert ContextOf(Some(500.0), Some(100.0)).VolumeLiters() == Some(0.5);
  }

  // ---------------------------------------------------------------- the record

  /** The `ChemicalAdditive` columns the derivation reads and writes. */
  class ChemicalAdditive {
    var amount: real
    var unit: AmountUnit
    var compound: Option<Compound>
    /** The linked conditions record, or null when the relationship is unset. */
    var experiment: Conditions.ExperimentalConditions?
    var massInGrams: Option<real>
    var molesAdded: Option<real>
    var finalConcentration: Option<real>
    var concentrationUnits: Option<string>
    var elementalMetalMass: Option<real>
    var catalystPercentage: Option<real>
    var catalystPpm: Option<int>

    constructor (amount: real, unit: AmountUnit, compound: Option<Compound>, experiment: Conditions.ExperimentalConditions?)
      ensures this.amount == amount && this.unit == unit && this.compound == compound && this.experiment == experiment
      ensures Outputs() == Reset
    {
      this.amount := amount;
      this.unit := unit;
      this.compound := compound;
      this.experiment := experiment;
      massInGrams, molesAdded, finalConcentration, concentrationUnits := None, None, None, None;
      elementalMetalMass, catalystPercentage, catalystPpm := None, None, None;
    }

    /** The fields the derivation reads: amount, unit, compound and conditions record. */
    function Inputs(): (real, AmountUnit, Option<Compound>, Conditions.ExperimentalConditions?)
      reads this
    {
      (amount, unit, compound, experiment)
    }

    /** The seven derived fields. */
    function Outputs(): Derived
      reads this
    {
      Derived(massInGrams, molesAdded, finalConcentration, concentrationUnits, elementalMetalMass, catalystPercentage, catalystPpm)
    }

    /** What the derivation reads from the linked conditions record (corrected attribute names). */
    function Ctx(): Context
      reads this, experiment
    {
      if experiment == null then NoContext else ContextOf(experiment.waterVolumeMl, experiment.rockMassG)
    }

    /**
     * `calculate_derived_values`, corrected: the derived fields are reset and then set by the
     * unit branch and the catalyst block; nothing else changes.
     */
    method CalculateDerivedValues()
      modifies this
      ensures Outputs() == Derive(amount, unit, compound, Ctx())
      ensures Inputs() == old(Inputs())
    {
      var ctx := Ctx();
      massInGrams, molesAdded, finalConcentration, concentrationUnits := None, None, None, None;
      elementalMetalMass, catalystPercentage, catalystPpm := None, None, None;
      SetQuantities(ctx.VolumeLiters(), MolecularWeight(compound));
      SetCatalyst(ctx);
      assert Ctx() == ctx;
    }

    /** The unit branch: mass, moles and final concentration. */
    method SetQuantities(liters: Option<real>, mw: Option<real>)
      requires liters.Some? ==> liters.value > 0.0
      requires massInGrams == None && molesAdded == None && finalConcentration == None && concentrationUnits == None
      modifies this
      ensures Quantities(massInGrams, molesAdded, finalConcentration, concentrationUnits) == QuantitiesOf(amount, unit, mw, liters)
      ensures Inputs() == old(Inputs())
      ensures elementalMetalMass == old(elementalMetalMass) && catalystPercentage == old(catalystPercentage) && catalystPpm == old(catalystPpm)
    {
      var q := UnitBranch(amount, unit, mw, liters);
      massInGrams, molesAdded, finalConcentration, concentrationUnits := q.mass, q.moles, q.final, q.units;
    }

    /** The catalyst block: metal mass, rock percentage and water ppm. */
    method SetCatalyst(ctx: Context)
      requires elementalMetalMass == None && catalystPercentage == None && catalystPpm == None
      modifies this
      ensures Catalyst(elementalMetalMass, catalystPercentage, catalystPpm) == CatalystOf(massInGrams, compound, ctx)
      ensures Inputs() == old(Inputs())
      ensures massInGrams == old(massInGrams) && molesAdded == old(molesAdded)
      ensures finalConcentration == old(finalConcentration) && concentrationUnits == old(concentrationUnits)
    {
      if Truthy(massInGrams) && massInGrams.value > 0.0 && compound.Some? {
        var fraction := ElementalFraction(compound.value);
        if Truthy(fraction) {
          var metal := MetalMass(massInGrams.value, fraction.value);
          elementalMetalMass := Some(metal);
          if ctx.rockMass.Some? && ctx.rockMass.value > 0.0 {
            catalystPercentage := Some(RockPercent(metal, ctx.rockMass.value));
          }
          if ctx.waterVolumeMl.Some? && ctx.waterVolumeMl.value > 0.0 {
            catalystPpm := Some(RoundToTen(UnroundedPpm(metal, ctx.waterVolumeMl.value)));
          }
        }
      }
    }
  }
}
