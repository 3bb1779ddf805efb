/**
 * The enumerations of `database/models/enums.py` that the modelled services read, each with
 * the text value the database stores.
 */
module Enums {
  datatype ExperimentStatus = Ongoing | Completed | Cancelled

  function StatusValue(s: ExperimentStatus): string {
    match s
    case Ongoing => "ONGOING"
    case Completed => "COMPLETED"
    case Cancelled => "CANCELLED"
  }

  /** `ExperimentType`; the core-flood member is `CORE_FLOOD` with value "Core Flood". */
  datatype ExperimentType = Serum | Autoclave | Hpht | CoreFlood | OtherType

  function TypeValue(t: ExperimentType): string {
    match t
    case Serum => "Serum"
    case Autoclave => "Autoclave"
    case Hpht => "HPHT"
    case CoreFlood => "Core Flood"
    case OtherType => "Other"
  }

  /** `AmountUnit`: the mass, volume, amount-of-substance and concentration units of an additive. */
  datatype AmountUnit =
    | Gram | Milligram | Microgram | Kilogram
    | Microliter | Milliliter | Liter
    | Micromole | Millimole | Mole
    | Ppm | Millimolar | Molar

  /** The stored text of each unit; the micro prefix is the Greek letter mu (U+03BC). */
  function UnitValue(u: AmountUnit): string {
    match u
    case Gram => "g"
    case Milligram => "mg"
    case Microgram => "\U{03BC}g"
    case Kilogram => "kg"
    case Microliter => "\U{03BC}L"
    case Milliliter => "mL"
    case Liter => "L"
    case Micromole => "\U{03BC}mol"
    case Millimole => "mmol"
    case Mole => "mol"
    case Ppm => "ppm"
    case Millimolar => "mM"
    case Molar => "M"
  }

  /** The members in declaration order, as iterating the enum yields them. */
  const AllUnits: seq<AmountUnit> :=
    [Gram, Milligram, Microgram, Kilogram, Microliter, Milliliter, Liter,
     Micromole, Millimole, Mole, Ppm, Millimolar, Molar]
}
