/**
 * The metric registries behind the quick-upload and long-format templates: which scalar-result
 * fields each quick-upload group carries, with their validation rules, and the metrics a
 * long-format sheet may name, with their database field and units.
 */
module MetricGroups {
  import opened Wrappers

  /** One entry of a group's `validations`: a numeric type with bounds, or a set of allowed texts. */
  datatype Rule = Rule(numeric: bool, min: Option<int>, max: Option<int>, allowed: Option<seq<string>>)

  const NonNegative := Rule(true, Some(0), None, None)

  /**
   * A quick-upload group: its required fields (sorted), its template headers (field, English header) in
   * template order, default values for absent fields, and its validations in declaration order.
   */
  datatype MetricGroup = MetricGroup(
    required: seq<string>,
    headers: seq<(string, string)>,
    defaults: map<string, string>,
    validations: seq<(string, Rule)>)

  /** `METRIC_GROUPS.get(key)`. */
  function GroupOf(key: string): Option<MetricGroup> {
    if key == "hydrogen" then
      Some(MetricGroup(
        ["experiment_id", "h2_concentration", "time_post_reaction"],
        [("experiment_id", "Experiment ID*"), ("time_post_reaction", "Time (days)*"),
         ("h2_concentration", "H2 Conc (ppm)*"), ("h2_concentration_unit", "H2 Unit"),
         ("gas_sampling_volume_ml", "Gas Sample Vol (mL)"),
         ("gas_sampling_pressure_MPa", "Gas Pressure (MPa)"),
         ("measurement_date", "Date"), ("description", "Description")],
        map["h2_concentration_unit" := "ppm"],
        [("h2_concentration", NonNegative),
         ("h2_concentration_unit", Rule(false, None, None, Some(["ppm", "%"]))),
         ("gas_sampling_volume_ml", NonNegative),
         ("gas_sampling_pressure_MPa", NonNegative)]))
    else if key == "ph_conductivity" then
      Some(MetricGroup(
        ["experiment_id", "time_post_reaction"],
        [("experiment_id", "Experiment ID*"), ("time_post_reaction", "Time (days)*"),
         ("final_ph", "Final pH"), ("final_conductivity_mS_cm", "Conductivity (mS/cm)"),
         ("final_dissolved_oxygen_mg_L", "Final DO (mg/L)"),
         ("measurement_date", "Date"), ("description", "Description")],
        map[],
        [("final_ph", Rule(true, Some(0), Some(14), None)),
         ("final_conductivity_mS_cm", NonNegative),
         ("final_dissolved_oxygen_mg_L", NonNegative)]))
    else if key == "ammonium" then
      Some(MetricGroup(
        ["experiment_id", "time_post_reaction"],
        [("experiment_id", "Experiment ID*"), ("time_post_reaction", "Time (days)*"),
         ("gross_ammonium_concentration_mM", "Gross Ammonium (mM)"),
         ("background_ammonium_concentration_mM", "Bkg Ammonium (mM)"),
         ("background_experiment_id", "Bkg Exp ID"),
         ("sampling_volume_mL", "Sampling Vol (mL)"),
         ("measurement_date", "Date"), ("description", "Description")],
        map[],
        [("gross_ammonium_concentration_mM", NonNegative),
         ("background_ammonium_concentration_mM", NonNegative),
         ("sampling_volume_mL", NonNegative)]))
    else None
  }

  /** The rule a group's validations give a field, if any. */
  function RuleOf(validations: seq<(string, Rule)>, field: string): Option<Rule> {
    if validations == [] then None
    else if validations[0].0 == field then Some(validations[0].1)
    else RuleOf(validations[1..], field)
  }

  /** The fields a group's template covers. */
  function TemplateFields(headers: seq<(string, string)>): set<string> {
    set i | 0 <= i < |headers| :: headers[i].0
  }

  /** A long-format metric: its database field, default unit, allowed units and bounds. */
  datatype MetricInfo = MetricInfo(dbField: string, defaultUnit: string, allowedUnits: seq<string>,
                                   min: int, max: Option<int>)

  /** `METRIC_REGISTRY`. Every metric is stored under the field of the same name. */
  const Registry: map<string, MetricInfo> := map[
    "h2_concentration" := MetricInfo("h2_concentration", "ppm", ["ppm", "%"], 0, None),
    "final_ph" := MetricInfo("final_ph", "", [""], 0, Some(14)),
    "final_conductivity_mS_cm" := MetricInfo("final_conductivity_mS_cm", "mS/cm", ["mS/cm"], 0, None),
    "final_dissolved_oxygen_mg_L" := MetricInfo("final_dissolved_oxygen_mg_L", "mg/L", ["mg/L"], 0, None),
    "gross_ammonium_concentration_mM" := MetricInfo("gross_ammonium_concentration_mM", "mM", ["mM"], 0, None),
    "background_ammonium_concentration_mM" :=
      MetricInfo("background_ammonium_concentration_mM", "mM", ["mM"], 0, None),
    "ferrous_iron_yield" := MetricInfo("ferrous_iron_yield", "%", ["%"], 0, None),
    "sampling_volume_mL" := MetricInfo("sampling_volume_mL", "mL", ["mL"], 0, None)]

  /** A metric is stored under the field of its own name. */
  lemma RegistryFieldIsKey(m: string)
    requires m in Registry
    ensures Registry[m].dbField == m
  {
  }

  /** The registry's metric names in sorted order, as the unknown-metric message lists them. */
  const SortedMetricNames: seq<string> := [
    "background_ammonium_concentration_mM", "ferrous_iron_yield", "final_conductivity_mS_cm",
    "final_dissolved_oxygen_mg_L", "final_ph", "gross_ammonium_concentration_mM",
    "h2_concentration", "sampling_volume_mL"]

  /** The sorted name list names exactly the registry's metrics. */
  lemma SortedMetricNamesAreRegistry()
    ensures forall m :: m in SortedMetricNames <==> m in Registry
  {
  }

  /** Group `g` validates metric `m`'s field with the registry's bounds. */
  predicate AgreesIn(g: string, m: string) {
    GroupOf(g).Some? && m in Registry &&
    var rule := RuleOf(GroupOf(g).value.validations, Registry[m].dbField);
    rule.Some? && rule.value.numeric && rule.value.min == Some(Registry[m].min)
    && rule.value.max == Registry[m].max
  }

  /**
   * Each long-format metric but the ferrous-iron yield is validated by a quick-upload group with
   * the same bounds, and the hydrogen unit lists agree: the two templates accept the same values.
   */
  lemma RegistryAgreesWithGroups()
    ensures AgreesIn("hydrogen", "h2_concentration")
    ensures AgreesIn("ph_conductivity", "final_ph")
    ensures AgreesIn("ph_conductivity", "final_conductivity_mS_cm")
    ensures AgreesIn("ph_conductivity", "final_dissolved_oxygen_mg_L")
    ensures AgreesIn("ammonium", "gross_ammonium_concentration_mM")
    ensures AgreesIn("ammonium", "background_ammonium_concentration_mM")
    ensures AgreesIn("ammonium", "sampling_volume_mL")
    ensures RuleOf(GroupOf("hydrogen").value.validations, "h2_concentration_unit").value.allowed
      == Some(Registry["h2_concentration"].allowedUnits)
  {
    HydrogenAgrees();
    PhAgrees();
    AmmoniumAgrees();
  }

  lemma HydrogenAgrees()
    ensures AgreesIn("hydrogen", "h2_concentration")
    ensures RuleOf(GroupOf("hydrogen").value.validations, "h2_concentration_unit").value.allowed
      == Some(Registry["h2_concentration"].allowedUnits)
  {
  }

  lemma PhAgrees()
    ensures AgreesIn("ph_conductivity", "final_ph")
    ensures AgreesIn("ph_conductivity", "final_conductivity_mS_cm")
    ensures AgreesIn("ph_conductivity", "final_dissolved_oxygen_mg_L")
  {
  }

  lemma AmmoniumAgrees()
    ensures AgreesIn("ammonium", "gross_ammonium_concentration_mM")
    ensures AgreesIn("ammonium", "background_ammonium_concentration_mM")
    ensures AgreesIn("ammonium", "sampling_volume_mL")
  {
  }
}
