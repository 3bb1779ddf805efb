/**
 * The XRD analysis record (`database/models/xrd.py`): its JSON-column validator, the
 * percentage of one mineral, and the check that the mineral percentages add up to 100.
 */
module XrdAnalysis {
  import opened Wrappers
  import opened PyStr
  import opened PyJson

  /** `validate_json`: `None`, dicts and lists are kept; anything else raises. */
  function ValidateJson(key: string, value: Json): (r: Checked<Json>)
    ensures r.Kept? <==> value.JNull? || value.JObject? || value.JList?
    ensures r.Kept? ==> r.value == value
    ensures r.Raised? ==> r.message == key + " must be a valid JSON object or array."
  {
    if value.JNull? || value.JObject? || value.JList? then Kept(value)
    else Raised(key + " must be a valid JSON object or array.")
  }

  /** `get_mineral_percentage`: the value stored under the lower-cased name, or 0. */
  function GetMineralPercentage(phases: Json, mineral: string): Json {
    if IsNonEmptyDict(phases) then Get(phases.entries, Lower(mineral), JNum(0.0)) else JNum(0.0)
  }

  /**
   * A stored mineral is found by any spelling of its name that lower-cases to its key; a
   * name whose lower-case form is not a key, or a record without a non-empty dict, gives 0.
   */
  lemma GetMineralPercentageSpec(phases: Json, mineral: string)
    ensures !IsNonEmptyDict(phases) ==> GetMineralPercentage(phases, mineral) == JNum(0.0)
    ensures IsNonEmptyDict(phases) && DistinctKeys(phases.entries) ==>
      forall i | 0 <= i < |phases.entries| && phases.entries[i].0 == Lower(mineral) ::
        GetMineralPercentage(phases, mineral) == phases.entries[i].1
    ensures IsNonEmptyDict(phases) && (forall i | 0 <= i < |phases.entries| :: phases.entries[i].0 != Lower(mineral)) ==>
      GetMineralPercentage(phases, mineral) == JNum(0.0)
  {
    if IsNonEmptyDict(phases) && DistinctKeys(phases.entries) {
      forall i | 0 <= i < |phases.entries| && phases.entries[i].0 == Lower(mineral)
        ensures GetMineralPercentage(phases, mineral) == phases.entries[i].1
      {
        LookupAt(phases.entries, i);
      }
    }
  }

  /** A key holding an upper-case letter is never found: the lookup name is always lower-cased. */
  lemma UpperCaseKeyUnreachable(phases: Json, mineral: string, i: nat)
    requires IsNonEmptyDict(phases) && DistinctKeys(phases.entries) && i < |phases.entries|
    requires exists c | c in phases.entries[i].0 :: IsUpperChar(c)
    ensures Lower(mineral) != phases.entries[i].0
  {
  }

  /**
   * `validate_mineral_percentages`: true without a non-empty dict; otherwise whether the
   * sum of the values lies within `tolerance` of 100. None where `sum` raises on a
   * non-numeric value.
   */
  function ValidateMineralPercentages(phases: Json, tolerance: real): (r: Option<bool>)
    ensures !IsNonEmptyDict(phases) ==> r == Some(true)
    ensures IsNonEmptyDict(phases) ==>
      (r.None? <==> exists i | 0 <= i < |phases.entries| :: !(phases.entries[i].1.JNum? || phases.entries[i].1.JBool?))
    ensures IsNonEmptyDict(phases) && SumValues(phases.entries).Some? ==>
      r == Some(100.0 - tolerance <= SumValues(phases.entries).value <= 100.0 + tolerance)
  {
    if !IsNonEmptyDict(phases) then Some(true)
    else match SumValues(phases.entries)
      case None => None
      case Some(total) => Some(100.0 - tolerance <= total <= 100.0 + tolerance)
  }

  /** The documented default tolerance of 5. */
  const DefaultTolerance: real := 5.0

  /** Percentages that add up to exactly 100 pass with any non-negative tolerance, and a negative tolerance rejects everything. */
  lemma ValidatePercentagesBounds(phases: Json, tolerance: real)
    requires IsNonEmptyDict(phases) && SumValues(phases.entries).Some?
    ensures SumValues(phases.entries) == Some(100.0) && tolerance >= 0.0 ==> ValidateMineralPercentages(phases, tolerance) == Some(true)
    ensures tolerance < 0.0 ==> ValidateMineralPercentages(phases, tolerance) == Some(false)
  {
  }

  /** A wider tolerance accepts every dict a narrower one accepts. */
  lemma ValidatePercentagesMonotone(phases: Json, narrow: real, wide: real)
    requires narrow <= wide && ValidateMineralPercentages(phases, narrow) == Some(true)
    ensures ValidateMineralPercentages(phases, wide) == Some(true)
  {
  }

  /** The example of the model: quartz 45.2 and feldspar 23.8 add up to 69, so the check fails. */
  lemma ValidatePercentagesExample()
    ensures ValidateMineralPercentages(JObject([("quartz", JNum(45.2)), ("feldspar", JNum(23.8))]), DefaultTolerance) == Some(false)
    ensures GetMineralPercentage(JObject([("quartz", JNum(45.2)), ("feldspar", JNum(23.8))]), "Quartz") == JNum(45.2)
  {
    var es := [("quartz", JNum(45.2)), ("feldspar", JNum(23.8))];
    assert es[..1] == [("quartz", JNum(45.2))];
    assert es[..1][..0] == [];
    assert SumValues(es[..1]) == Some(45.2);
    assert SumValues(es) == Some(69.0);
    assert Lower("Quartz") == "quartz";
  }
}
