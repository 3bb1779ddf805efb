# Lab-records core in Dafny

A Dafny model of the record-keeping logic of a laboratory records application. The application tracks geochemistry experiments: their conditions, chemical additives, solution-chemistry and ICP results, XRD phases and pXRF readings.

The model covers the deterministic code under the user interface. This is the code that:

- parses experiment identifiers and maintains lineage (base experiment and parent link);
- canonicalises pXRF reading numbers, in the shared helper and in data migrations 008, 009 and 010;
- de-duplicates sample IDs (migration 007);
- merges result time points;
- parses instrument labels and sheets: ICP, Aeris XRD and ActLabs titration;
- applies the row rules of the bulk uploads: experiment status, long format, quick upload, new experiments, scalar results and chemical inventory;
- computes the derived values stored on the models: additive conversions, ammonium and hydrogen yields, water-to-rock ratio and XRD percentage checks.

One module per source file:

- `Lineage` for `database/lineage_utils.py`
- `ExperimentValidation` for `backend/services/experiment_validation.py`
- `Pxrf` for `utils/pxrf.py`
- `PxrfNormalize008`, `PxrfBackfill009` and `PxrfSplit010` for the pXRF migrations
- `MergeSamples007` and `MergeSamples007Db` for the sample de-duplication migration
- `ResultMerge` for `backend/services/result_merge_utils.py`
- `IcpService` for `backend/services/icp_service.py`
- `AerisXrd`, `ExperimentStatusUpload`, `LongFormat`, `QuickUpload`, `NewExperiments`, `ActlabsTitration` and `ChemicalInventory` for the bulk uploads
- `ScalarResultsService` for `backend/services/scalar_results_service.py`
- `Chemicals`, `Results`, `Conditions` and `XrdAnalysis` for the models under `database/models/`
- `Enums` and `MetricGroups` for the enumerations and the metric table the uploads use

Shared helpers:

- `PyStr` holds Python string operations: strip, split, join, lower, isdigit and related.
- `PyNum` holds number parsing, truncation and rounding.
- `PyJson` holds JSON values.
- `Values` holds spreadsheet cells and records.
- `Wrappers` holds `Option`.

How the model represents the source:

- Each database table is a sequence of records.
- `.first()` is the first match in sequence order.
- Numbers are `real`.
- A cell's text, where the source calls `str()` on a float, comes from a rendering function passed in as a parameter; ExperimentStatusUpload does not take one and reads a numeric ID cell as no ID (see Left out).
- Code that changes records step by step is modelled by classes and methods with loops. Each such method is proved against a function of the old state, and the properties are proved about that function.

The database session is opened with `autoflush=False` (`database/database.py:14`). So a query does not see rows added earlier in the same upload until the session is flushed:

- Each upload that adds rows keeps a count of the rows already flushed, and takes the autoflush setting as a parameter.
- The setting the application uses (off) shows duplicate rows. This is recorded under Findings.
- The properties that need the intended behaviour are proved with autoflush on.

## Model

| member | source | states |
|---|---|---|
| Lineage.ParseExperimentId | database/lineage_utils.py:16-88 | the triple (base, derivation number, treatment) of `parse_experiment_id`; blank or missing input gives three Nones |
| Lineage.TreatmentRule | database/lineage_utils.py:58-78 | a treatment is split off exactly when the trimmed id has more than three underscore parts and the last part is not all digits; base, "_" and treatment give back the trimmed id |
| Lineage.DerivationRule | database/lineage_utils.py:80-86 | a derivation number is produced exactly when the text after the last hyphen is non-empty and all digits; base, "-" and the number give back the text before the split |
| Lineage.DerivationReassembles | database/lineage_utils.py:80-86 | the derivation split loses nothing: base + "-" + digits is the text it was taken from |
| Lineage.TreatmentReassembles | database/lineage_utils.py:58-78 | the treatment split loses nothing: rest + "_" + treatment is the text it was taken from |
| Lineage.ParseRoundTrip | database/lineage_utils.py:16-88 | for every non-blank id the parsed parts reassemble the trimmed id (round trip) |
| Lineage.BlankParsesToNothing | database/lineage_utils.py:44-49 | missing, empty and whitespace-only ids parse to (None, None, None) |
| Lineage.DerivationOfShape | database/lineage_utils.py:80-86 | on `base-digits` with hyphen-free digits the derivation step returns base and digits |
| Lineage.TreatmentOfShape | database/lineage_utils.py:58-78 | on `a_b_c-digits` no treatment is split off and on `a_b_c-digits_t` the treatment is `t` |
| Lineage.ParseShape | database/lineage_utils.py:16-88 | `a_b_c-dt` parses to base `a_b_c`, derivation `dt`; with `_t` appended (t not all digits) `t` is the treatment |
| Lineage.TreatmentOfPlainShape | database/lineage_utils.py:58-78 | on hyphen-free `a_b_c` nothing is split off and on `a_b_c_t` the treatment is `t` |
| Lineage.ParsePlainShape | database/lineage_utils.py:16-88 | hyphen-free `a_b_c` (optionally `_t`) parses to base `a_b_c`, no derivation, treatment `t` |
| Lineage.DocExamplePlain | database/lineage_utils.py:28-42 | the documented plain example parses as documented |
| Lineage.DocExampleTreatedPlain | database/lineage_utils.py:28-42 | the documented treated example without derivation parses as documented |
| Lineage.DocExampleDerived | database/lineage_utils.py:28-42 | the documented derivation example parses as documented |
| Lineage.DocExampleTreated | database/lineage_utils.py:28-42 | the documented treated derivation example parses as documented |
| Lineage.KeysAgree | database/lineage_utils.py:113-125 | the Python-side key (lower, then strip delimiters) equals the SQL-side key (strip delimiters, then lower) |
| Lineage.FirstWithKey | database/lineage_utils.py:113-127 | `.first()` of the lookup: a position found is a row of the table (which row, in FirstWithKeySpec) |
| Lineage.FirstWithKeySpec | database/lineage_utils.py:113-127 | FirstWithKey finds the lowest index with a matching key, and None iff no row matches |
| Lineage.FindParentSpec | database/lineage_utils.py:91-128 | the parent lookup gives nothing for a non-derivation, else the first experiment whose normalised id equals the normalised base |
| Lineage.FindParent | database/lineage_utils.py:91-128 | a parent found is an experiment of the table, and only a derivation ID has one |
| Lineage.KeyOfStrip | database/lineage_utils.py:113-125 | trimming never lengthens the lookup key |
| Lineage.KeyOfReassembled | database/lineage_utils.py:80-86 | a text that reassembles a derivation has a longer key than its base |
| Lineage.DerivedKeyLonger | database/lineage_utils.py:80-125 | the key of a derivation id is longer than the key of its base (it keeps the digits) |
| Lineage.NotOwnParent | database/lineage_utils.py:91-128 | a derivation is never found as its own parent |
| Lineage.NoOrphansCounted | database/lineage_utils.py:208-219 | with no orphan of `base` left, the orphan count is zero |
| Lineage.ExperimentTable.UpdateExperimentLineage | database/lineage_utils.py:131-170 | a non-derivation has both lineage fields cleared, reporting a change iff one was set; a derivation gets its parsed base and the found parent (or none); no other row changes |
| Lineage.ExperimentTable.UpdateOrphanedDerivations | database/lineage_utils.py:173-219 | nothing changes for an empty base or a missing base experiment; otherwise every orphan of exactly `base` is linked to the first matching experiment, the count returned is the number of orphans, and none remain |
| Lineage.ExperimentTable.RelinkOrphans | database/lineage_utils.py:208-219 | the loop over the orphans returns their number and links every orphan of `base`, and no other experiment, to the parent |
| Lineage.RelinkedLeavesNoOrphans | database/lineage_utils.py:208-219 | after relinking no orphan of `base` remains |
| ExperimentValidation.TypeFromId | backend/services/experiment_validation.py:56-78 | `get_experiment_type_from_id`: empty text gives None, and a type found is one of the abbreviation table's types |
| ExperimentValidation.TypeIgnoresCaseAndSpace | backend/services/experiment_validation.py:56-78 | the type lookup gives the same type for a text and its trimmed lower-cased form, and that form gives the table's entry or nothing |
| ExperimentValidation.TypeDocExamples | backend/services/experiment_validation.py:66-73 | the documented lookups: "Serum" is SERUM, "CF" is CF, "ac" is AUTOCLAVE |
| ExperimentValidation.TreatmentRule | backend/services/experiment_validation.py:130-161 | a treatment is split off exactly when the text has more than two underscore parts and the last is not all digits; rest + "_" + treatment gives back the text |
| ExperimentValidation.ExtractRules | backend/services/experiment_validation.py:81-164 | `extract_lineage_info`: "" gives ("", None, None); a sequential number is found exactly when the text after the last hyphen is all digits; the parts reassemble the id |
| ExperimentValidation.TreatedSequentialIsMissed | backend/services/experiment_validation.py:122-128 | when the text after the last hyphen holds an underscore, no sequential number is found |
| ExperimentValidation.NoHyphenNoSequential | backend/services/experiment_validation.py:122-128 | a hyphen-free id has no sequential number and is left whole by that step |
| ExperimentValidation.ThreePartPlainShape | backend/services/experiment_validation.py:130-164 | hyphen-free `a_b_c` with digit last part is a plain three-part base with nothing split off |
| ExperimentValidation.TwoPartPlainShape | backend/services/experiment_validation.py:130-164 | hyphen-free `a_b` is a plain two-part base with nothing split off |
| ExperimentValidation.TwoPartTreatmentShape | backend/services/experiment_validation.py:130-164 | hyphen-free `a_b_t` with non-digit `t` is base `a_b` with treatment `t` |
| ExperimentValidation.HyphenBeforeUnderscoreKept | backend/services/experiment_validation.py:122-128 | `x-d_t` keeps its hyphen because "d_t" is not all digits |
| ExperimentValidation.TreatedSequentialShape | backend/services/experiment_validation.py:81-164 | `a_b_c-d_t`: the sequential digits are missed, `a_b_c-d` is the base and `t` the treatment |
| ExperimentValidation.PlainBasesHaveNoTreatment | backend/services/experiment_validation.py:97-102 | the documented two- and three-part bases carry no sequential number and no treatment |
| ExperimentValidation.TwoPartTreatment | backend/services/experiment_validation.py:107-110 | "HPHT_001_Desorption" gives base "HPHT_001" and treatment "Desorption", as documented |
| ExperimentValidation.CombinedExampleDisagrees | backend/services/experiment_validation.py:110-114 | the documented "Serum_MH_101-2_Desorption" does not yield ("Serum_MH_101", 2, "Desorption"): the number stays in the base |
| ExperimentValidation.ParseExperimentId | backend/services/experiment_validation.py:167-287 | `parse_experiment_id`: a missing or empty id is invalid with base "" and exactly one warning; in every case valid exactly when there are no warnings |
| ExperimentValidation.PartRules | backend/services/experiment_validation.py:212-273 | suffixes come from `extract_lineage_info` on the trimmed id; under two parts is invalid with the format warning; two parts give type and index; three or more give type, initials and index with their warnings |
| ExperimentValidation.ParseThreePartShape | backend/services/experiment_validation.py:250-273 | a plain three-part id is parsed into type text, initials and index |
| ExperimentValidation.ParseTwoPartShape | backend/services/experiment_validation.py:230-248 | a plain two-part id is parsed into type and index, with no initials |
| ExperimentValidation.ParseDocExamples | backend/services/experiment_validation.py:181-196 | "Serum_MH_101" parses to SERUM, "MH", "101" and "HPHT_001" to HPHT, no initials, "001" |
| ExperimentValidation.ValidateExperimentId | backend/services/experiment_validation.py:288-308 | `validate_experiment_id`: valid exactly when the warning list is empty, and only for a present, non-empty id |
| ExperimentValidation.ValidateDocExample | backend/services/experiment_validation.py:300-306 | "Serum_MH_101" validates with no warnings |
| ExperimentValidation.FormatValidationWarning | backend/services/experiment_validation.py:311-327 | the message is empty exactly when there are no warnings |
| ExperimentValidation.FormatRecoversWarnings | backend/services/experiment_validation.py:311-327 | the formatted message gives back its warnings in order (one after the sign, or one per bullet line) when no warning holds a line break |
| Pxrf.NormalizeToken | utils/pxrf.py:18-36 | `normalize_pxrf_token`: the result is empty exactly for a missing or blank token, and is always trimmed |
| Pxrf.TokenRule | utils/pxrf.py:23-36 | on a present non-blank token: a numeric-looking token with an integral value becomes its integer text, otherwise the trimmed token is kept |
| Pxrf.RewrittenIsInteger | utils/pxrf.py:27-32 | a rewritten token is always in integer form ("12.0" gives "12", "007" gives "7") |
| Pxrf.TokenIdempotent | utils/pxrf.py:18-36 | `normalize_pxrf_token` is idempotent |
| Pxrf.ValueTokens | utils/pxrf.py:39-56 | the normalised tokens a value stands for, in order, each non-empty and in final form |
| Pxrf.ValueSegments | utils/pxrf.py:39-56 | the output of `normalize_pxrf_value` has no empty segment and its segments are exactly the normalised non-empty tokens of the input, in order |
| Pxrf.ValueIdempotent | utils/pxrf.py:39-56 | `normalize_pxrf_value` is idempotent |
| Pxrf.SplitReadingsSpec | utils/pxrf.py:59-64 | `split_normalized_pxrf_readings` gives [] for a missing or blank value, otherwise the normalised tokens in order, each non-empty, comma-free and fixed by normalisation; joined with "," they give back `normalize_pxrf_value` |
| Pxrf.IntegerTextIsFixed | utils/pxrf.py:27-32 | the integer text of any integer is left as it is by the integral-value rewrite |
| PxrfNormalize008.BlankUnchanged | database/data_migrations/normalize_pxrf_reading_numbers_008.py:31-32 | an empty or whitespace-only value is returned as it is, not as "" |
| PxrfNormalize008.SingleValueRule | database/data_migrations/normalize_pxrf_reading_numbers_008.py:51-58 | a comma-free value with a point whose candidate is all digits becomes `int(float(v))`, truncated toward zero; one without a point is only trimmed ("007" stays) |
| PxrfNormalize008.CandidateOf | database/data_migrations/normalize_pxrf_reading_numbers_008.py:54 | the numeric candidate of "digits.digits" is its digits with the point removed |
| PxrfNormalize008.PointedLiteral | database/data_migrations/normalize_pxrf_reading_numbers_008.py:51-55 | "digits.digits" is a non-blank, trimmed, comma-free value with a point whose candidate is all digits and which parses as that decimal |
| PxrfNormalize008.PointedValueTruncated | database/data_migrations/normalize_pxrf_reading_numbers_008.py:51-55 | any "digits.digits" value becomes its integer part ("12.5" is cut to "12", "34.0" becomes "34") |
| PxrfNormalize008.UtilsOnPointedValue | utils/pxrf.py:27-36 | `normalize_pxrf_token` rewrites the same literal only when its fraction is zero and otherwise keeps it |
| PxrfNormalize008.AgreeIffIntegral | database/data_migrations/normalize_pxrf_reading_numbers_008.py:51-55 | this migration and `normalize_pxrf_token` agree on a "digits.digits" value exactly when its fraction is zero |
| PxrfNormalize008.TruncatesFraction | database/data_migrations/normalize_pxrf_reading_numbers_008.py:51-55 | "12.5" is cut to "12" by the migration but kept by `normalize_pxrf_token` |
| PxrfNormalize008.BothWriteInteger | database/data_migrations/normalize_pxrf_reading_numbers_008.py:28-29 | "34.0" becomes "34" under both normalisers, as the docstring says |
| PxrfNormalize008.AgreesWithUtilsOnIntegral | database/data_migrations/normalize_pxrf_reading_numbers_008.py:51-55 | on an integral value with a point both normalisers write the integer |
| PxrfNormalize008.PartsRule | database/data_migrations/normalize_pxrf_reading_numbers_008.py:36-50 | for a list, the parts kept are exactly the trimmed non-empty pieces, in order, each rewritten by the single-value rule |
| PxrfNormalize008.NormalizedReadings | database/data_migrations/normalize_pxrf_reading_numbers_008.py:80-87 | the rewritten reading table has one entry per reading |
| PxrfNormalize008.NormalizedAnalyses | database/data_migrations/normalize_pxrf_reading_numbers_008.py:100-112 | the rewritten analysis table has one entry per analysis |
| PxrfNormalize008.NormalizedReadingsAt | database/data_migrations/normalize_pxrf_reading_numbers_008.py:80-87 | entry i of the rewritten table is the normalisation of reading i |
| PxrfNormalize008.NormalizedAnalysesAt | database/data_migrations/normalize_pxrf_reading_numbers_008.py:100-112 | entry i keeps its sample, has its reference normalised, and is untouched when it has no reference |
| PxrfNormalize008.ReadingChangesAreChanges | database/data_migrations/normalize_pxrf_reading_numbers_008.py:80-85 | the reported pairs are exactly the readings whose normalisation differs, with that normalisation |
| PxrfNormalize008.PxrfTables.NormalizeData | database/data_migrations/normalize_pxrf_reading_numbers_008.py:61-140 | `normalize_pxrf_data`: both reports list every changed value; a dry run changes nothing, otherwise both tables are replaced by their normalised forms |
| PxrfNormalize008.PxrfTables.NormalizeReadings | database/data_migrations/normalize_pxrf_reading_numbers_008.py:75-87 | step 1: the reading report, and the reading table normalised unless a dry run |
| PxrfNormalize008.PxrfTables.NormalizeAnalyses | database/data_migrations/normalize_pxrf_reading_numbers_008.py:98-112 | step 2: the analysis report, and the referenced readings normalised unless a dry run |
| PxrfNormalize008.ChangesBySound | database/data_migrations/normalize_pxrf_reading_numbers_008.py:80-85 | every reported pair is a reading, its normalisation, and the two differ |
| PxrfNormalize008.ChangesByAt | database/data_migrations/normalize_pxrf_reading_numbers_008.py:80-85 | every reading whose normalisation differs is reported with that normalisation |
| PxrfBackfill009.Canonicalize | database/data_migrations/backfill_pxrf_readings_009.py:57-76 | "" exactly for a missing or blank value, and otherwise a fixed point of `normalize_pxrf_token`'s rule (the same rule) |
| PxrfBackfill009.SplitReadingNumbersCanonical | database/data_migrations/backfill_pxrf_readings_009.py:79-89 | [] for empty input; every token yielded is non-empty, comma-free and its own canonical form |
| PxrfBackfill009.LoadedExactSpec | database/data_migrations/backfill_pxrf_readings_009.py:112-120 | after loading, the exact index holds every reading number and nothing else, each naming a row with that number |
| PxrfBackfill009.LoadedCanonicalCovers | database/data_migrations/backfill_pxrf_readings_009.py:116-122 | after loading, every reading number's canonical form is a canonical key |
| PxrfBackfill009.LoadedCanonicalFirst | database/data_migrations/backfill_pxrf_readings_009.py:121-122 | each canonical key names the first row with that canonical form (`setdefault`) |
| PxrfBackfill009.LoadedValid | database/data_migrations/backfill_pxrf_readings_009.py:112-122 | the loaded indexes satisfy the invariant: sound, canonical keys name rows of that form, every exact key's canonical form is a canonical key |
| PxrfBackfill009.NoVariant | database/data_migrations/backfill_pxrf_readings_009.py:138-159 | under the invariant, a token that is not a canonical key is no exact key's canonical form, so the variant-rename branch never runs |
| PxrfBackfill009.CreateKeepsValid | database/data_migrations/backfill_pxrf_readings_009.py:161-167 | a placeholder for a canonical token keeps the index invariant |
| PxrfBackfill009.CreateKeepsSound | database/data_migrations/backfill_pxrf_readings_009.py:161-167 | a placeholder keeps both indexes pointing at rows, whatever the token |
| PxrfBackfill009.RenameKeepsSound | database/data_migrations/backfill_pxrf_readings_009.py:153-159 | renaming the variant's row keeps both indexes pointing at rows |
| PxrfBackfill009.BackfillService.constructor | database/data_migrations/backfill_pxrf_readings_009.py:107-122 | `__init__` with `_load_existing_readings`: both indexes loaded, counters zero, the invariant holds |
| PxrfBackfill009.BackfillService.EnsureReading | database/data_migrations/backfill_pxrf_readings_009.py:124-167 | the exact hit, else the canonical hit, with only readings_already_present incremented; otherwise one placeholder named `token` under both keys with readings_created incremented; the invariant is kept and no rename happens for a canonical token |
| PxrfBackfill009.BackfillService.RenameVariant | database/data_migrations/backfill_pxrf_readings_009.py:153-159 | the variant's row renamed to `token`, the old exact key replaced, readings_renamed incremented |
| PxrfBackfill009.BackfillService.CreatePlaceholder | database/data_migrations/backfill_pxrf_readings_009.py:161-167 | one row named `token` appended and registered under both keys, readings_created incremented |
| PxrfBackfill009.BackfillService.ProcessAnalysis | database/data_migrations/backfill_pxrf_readings_009.py:169-197 | no tokens: the analysis is deleted and legacy_rows_deleted incremented; otherwise the comma-join of the tokens is written back and analyses_updated counted only when it differs; missing_after_attempt never grows; every token ends up a canonical key |
| PxrfBackfill009.BackfillService.EnsureTokens | database/data_migrations/backfill_pxrf_readings_009.py:176-187 | every token is ensured and kept, and each is a canonical key afterwards |
| PxrfBackfill009.BackfillService.EnsureCanonical | database/data_migrations/backfill_pxrf_readings_009.py:179-187 | ensuring one token in canonical form keeps the invariant, makes it a canonical key and renames nothing |
| PxrfBackfill009.BackfillService.RewriteAnalysis | database/data_migrations/backfill_pxrf_readings_009.py:176-197 | the tokens are ensured; the analysis gets their comma-join and analyses_updated grows by one exactly when that join differs from the stored value |
| PxrfSplit010.PxrfRowsSpec | database/data_migrations/split_pxrf_external_analyses_010.py:118-122 | the loaded rows are exactly the stored pXRF analyses |
| PxrfSplit010.NewRows | database/data_migrations/split_pxrf_external_analyses_010.py:84-111 | the rows created for the further readings, in order |
| PxrfSplit010.NewRowsSpec | database/data_migrations/split_pxrf_external_analyses_010.py:84-111 | every created row is a pXRF copy of the analysis (sample and metadata) for a further reading not already stored, and every such reading gets one; with nothing stored, one row per reading |
| PxrfSplit010.SplitOfSpec | database/data_migrations/split_pxrf_external_analyses_010.py:65-111 | `split_pxrf_analysis`: no reading leaves the row alone; a single reading is written back canonical; with k > 1 readings the row keeps the first, the split count grows by one, and created + skipped grows by exactly k - 1 |
| PxrfSplit010.ReadingsOfNormalized | utils/pxrf.py:39-64 | the readings of a normalised value are those of the value; it is empty exactly when there are none and holds a comma exactly when there are two or more |
| PxrfSplit010.RowSpec | database/data_migrations/split_pxrf_external_analyses_010.py:124-139 | one row of `run_migration`: no readings deletes it; a single reading is rewritten canonical with nothing split; k >= 2 readings are inspected and split as above |
| PxrfSplit010.MigratedSpec | database/data_migrations/split_pxrf_external_analyses_010.py:124-139 | each loaded row is migrated on its own, in place |
| PxrfSplit010.DeletedBySpec | database/data_migrations/split_pxrf_external_analyses_010.py:126-130 | exactly the rows whose normalised value is empty are deleted, in increasing position |
| PxrfSplit010.TotalsInspectedIsSplit | database/data_migrations/split_pxrf_external_analyses_010.py:132-139 | over a whole run analyses_inspected equals analyses_split, since only comma lists reach the split |
| PxrfSplit010.AddedBySpec | database/data_migrations/split_pxrf_external_analyses_010.py:99-111 | over a whole run the created rows number new_rows_created, and each is a canonical pXRF copy of some loaded row |
| PxrfSplit010.RowBranches | database/data_migrations/split_pxrf_external_analyses_010.py:126-139 | the three branches of one row (delete, rewrite, split) as the loop takes them |
| PxrfSplit010.SplitMigration.constructor | database/data_migrations/split_pxrf_external_analyses_010.py:117-122 | the session loads every pXRF row of the stored table, with empty additions and zero counters |
| PxrfSplit010.SplitMigration.SplitAnalysis | database/data_migrations/split_pxrf_external_analyses_010.py:65-111 | `split_pxrf_analysis` on one loaded row: its new value, the appended rows and the counters, with the duplicate check against the stored snapshot |
| PxrfSplit010.SplitMigration.MigrateRow | database/data_migrations/split_pxrf_external_analyses_010.py:124-139 | one pass of the loop: the row's new value, its additions, its deletion and its counters |
| PxrfSplit010.SplitMigration.MigrateAll | database/data_migrations/split_pxrf_external_analyses_010.py:124-139 | the whole loop: the migrated table, all additions, all deletions and the totals |
| PxrfSplit010.SplitMigration.RunMigration | database/data_migrations/split_pxrf_external_analyses_010.py:114-146 | `run_migration`: counters always reported; a dry run leaves the rows unchanged, otherwise the migrated table, additions and deletions are kept |
| MergeSamples007.NormalizeSpec | database/data_migrations/merge_duplicate_samples_007.py:32-34 | `normalize_sample_id` leaves no '-', '_', ' ' and no capitals, and is idempotent |
| MergeSamples007.CanonicalSpec | database/data_migrations/merge_duplicate_samples_007.py:37-39 | `get_canonical_format` keeps hyphens, leaves no spaces, underscores or lower-case letters, is idempotent, and normalises like its input (same duplicate group) |
| MergeSamples007.Members | database/data_migrations/merge_duplicate_samples_007.py:51-54 | the list built for one normal form holds at most the IDs given |
| MergeSamples007.MembersSpec | database/data_migrations/merge_duplicate_samples_007.py:51-54 | a group holds exactly the IDs that normalise to its key |
| MergeSamples007.GroupsDisjoint | database/data_migrations/merge_duplicate_samples_007.py:49-59 | two different keys never share an ID |
| MergeSamples007.GroupAll | database/data_migrations/merge_duplicate_samples_007.py:51-54 | the grouping loop: every key's list is exactly its members, every normal form present is a key, keys listed once each |
| MergeSamples007.FindDuplicateGroups | database/data_migrations/merge_duplicate_samples_007.py:42-59 | `find_duplicate_groups`: exactly the normal forms with more than one member, each mapped to its members; the key list holds each kept key once |
| MergeSamples007.KeptKeys | database/data_migrations/merge_duplicate_samples_007.py:57 | the dictionary comprehension keeps exactly the filtered keys, each once |
| MergeSamples007.ChoosePrimary | database/data_migrations/merge_duplicate_samples_007.py:62-98 | `choose_primary_sample` returns a member of its input that no member's score (is canonical, references, -length, id) beats |
| MergeSamples007.ChoosePrimaryUnique | database/data_migrations/merge_duplicate_samples_007.py:85-98 | the highest score is unique: any member no other member beats is the chosen primary |
| MergeSamples007.TiesPickLaterName | database/data_migrations/merge_duplicate_samples_007.py:66-69 | among IDs equal in canonical form, references and length the alphabetically last is chosen, against the documented "alphabetically first" |
| MergeSamples007.HyphenPlaceIgnored | database/data_migrations/merge_duplicate_samples_007.py:32-34 | moving a hyphen inside an ID keeps it in the same duplicate group |
| MergeSamples007.CanonicalOfCanonical | database/data_migrations/merge_duplicate_samples_007.py:37-39 | upper-case IDs without spaces or underscores are already canonical |
| MergeSamples007.TieExample | database/data_migrations/merge_duplicate_samples_007.py:85-98 | "ROCK-1" and "ROCK1-" fall in one group with equal scores but for the name, and "ROCK1-" is chosen |
| MergeSamples007.FirstWithValue | database/data_migrations/merge_duplicate_samples_007.py:113-118 | the duplicate value found has a value and is one of the duplicates' values; none found means none has one |
| MergeSamples007.MergedValueSpec | database/data_migrations/merge_duplicate_samples_007.py:106-118 | a primary value that is non-null and not blank is kept; otherwise the earliest duplicate value that has one is taken; a value never appears from nowhere |
| MergeSamples007Db.Existing | database/data_migrations/merge_duplicate_samples_007.py:141-145 | the `.first()` committed row of the primary with the same key: a row of the primary with that key and none before it, or None when there is none |
| MergeSamples007Db.RowsOfSpec | database/data_migrations/merge_duplicate_samples_007.py:132 | the visited rows of one duplicate are exactly its committed rows, each once, ascending |
| MergeSamples007Db.DupOrderSpec | database/data_migrations/merge_duplicate_samples_007.py:130-211 | the rows visited for one table are exactly the rows of the duplicates |
| MergeSamples007Db.RunAppend | database/data_migrations/merge_duplicate_samples_007.py:130-211 | handling two visiting orders in turn is handling their concatenation |
| MergeSamples007Db.StepFate | database/data_migrations/merge_duplicate_samples_007.py:139-211 | one duplicate row is deleted on a collision with the primary and otherwise moved to it; only its own sample ID changes |
| MergeSamples007Db.Replaces | database/data_migrations/merge_duplicate_samples_007.py:185-187 | whether a colliding row's value overwrites the primary's (no contract of its own): a non-null value replaces a null one or an older one; AmountStep states the effect |
| MergeSamples007Db.Run | database/data_migrations/merge_duplicate_samples_007.py:130-211 | handling the duplicate's rows one after the other keeps the number of rows in the table (rows are moved or marked deleted, never dropped) |
| MergeSamples007Db.RunFate | database/data_migrations/merge_duplicate_samples_007.py:130-211 | every visited row is deleted exactly when its key collides with a row of the primary, and otherwise now belongs to the primary; nothing else is deleted or moved; keys and stamps never change |
| MergeSamples007Db.NoRowKeepsDuplicate | database/data_migrations/merge_duplicate_samples_007.py:130-211 | after a run over all the duplicates' rows no surviving row keeps a duplicate's ID, and no experiment is deleted |
| MergeSamples007Db.RunKeepsOtherPayloads | database/data_migrations/merge_duplicate_samples_007.py:164-208 | a run changes payloads of the primary's own rows only |
| MergeSamples007Db.PhotoOutcome | database/data_migrations/merge_duplicate_samples_007.py:159-170 | the primary's photo ends with the file of the last colliding duplicate photo newer than the primary's original stamp, or keeps its file when there is none |
| MergeSamples007Db.AmountOutcome | database/data_migrations/merge_duplicate_samples_007.py:178-208 | an elemental or XRD value ends non-null exactly when it was or a colliding duplicate's was, and it is its own value or one of those duplicates' values |
| MergeSamples007Db.LaterPhotoWins | database/data_migrations/merge_duplicate_samples_007.py:164-168 | of two colliding photos both newer than the primary's, the later visited wins even when it is older than the other |
| MergeSamples007Db.PlanIntegrity | database/data_migrations/merge_duplicate_samples_007.py:244-282 | with no primary ever merged away, a well-formed plan leaves no row on a merged-away ID |
| MergeSamples007Db.IndicesOfIdsSpec | database/data_migrations/merge_duplicate_samples_007.py:257-259 | with unique IDs, the samples found for a list of IDs are exactly those whose ID is listed |
| MergeSamples007Db.GroupOf | database/data_migrations/merge_duplicate_samples_007.py:249-250 | the chosen primary is a member and the duplicates are exactly the other members |
| MergeSamples007Db.HandleRow | database/data_migrations/merge_duplicate_samples_007.py:139-211 | one duplicate row handled as the step function says: look up the primary's row with the same key (not for experiments), then copy and delete, or move |
| MergeSamples007Db.MigrateRows | database/data_migrations/merge_duplicate_samples_007.py:132-211 | one table's rows of one duplicate visited in order, ending as the table after that duplicate |
| MergeSamples007Db.MigrateAll | database/data_migrations/merge_duplicate_samples_007.py:130-213 | the loop over the duplicates: every table ends as the run over all the duplicates' rows, and the counts are the moved rows per table |
| MergeSamples007Db.PlanOfSpec | database/data_migrations/merge_duplicate_samples_007.py:244-250 | group t of the plan is the group of the t-th key, with its chosen primary |
| MergeSamples007Db.PlanOf | database/data_migrations/merge_duplicate_samples_007.py:244-250 | the plan has one group per visited key |
| MergeSamples007Db.PlanWellFormed | database/data_migrations/merge_duplicate_samples_007.py:42-98 | groups of distinct keys over distinct IDs never merge an ID away twice and never merge a primary away |
| MergeSamples007Db.DeletesNonPrimaries | database/data_migrations/merge_duplicate_samples_007.py:255-280 | in apply mode a sample is deleted exactly when its normal form is a group key and it is not that group's primary |
| MergeSamples007Db.TableIntegrity | database/data_migrations/merge_duplicate_samples_007.py:130-211 | a table with no pending deletion keeps no live row on a merged-away ID |
| MergeSamples007Db.NoReferenceToMergedAway | database/data_migrations/merge_duplicate_samples_007.py:216-282 | after applying all groups no live row of any table references an ID that was merged away |
| MergeSamples007Db.SampleDb.FindDonor | database/data_migrations/merge_duplicate_samples_007.py:113-118 | the inner loop: the first duplicate value that has one |
| MergeSamples007Db.SampleDb.MergeSampleMetadata | database/data_migrations/merge_duplicate_samples_007.py:101-118 | each of the eight columns of the primary becomes its merged value over the duplicates in order; nothing else changes |
| MergeSamples007Db.SampleDb.MigrateForeignKeys | database/data_migrations/merge_duplicate_samples_007.py:121-213 | each table ends as the run over its rows of all the duplicates, counts hold the moved rows per table, samples are untouched |
| MergeSamples007Db.SampleDb.ApplyGroup | database/data_migrations/merge_duplicate_samples_007.py:255-280 | merge the metadata into the primary, migrate the references, delete the duplicates' samples |
| MergeSamples007Db.SampleDb.MergeDuplicates | database/data_migrations/merge_duplicate_samples_007.py:216-282 | the groups are exactly the normal forms with more than one sample, each with its chosen primary; a dry run changes nothing, otherwise every group is applied |
| MergeSamples007Db.SampleDb.ApplyNext | database/data_migrations/merge_duplicate_samples_007.py:255-280 | one more group in apply mode moves samples, deletions and tables from the state after the plan so far to the state after one more group |
| MergeSamples007Db.SampleDb.VisitGroup | database/data_migrations/merge_duplicate_samples_007.py:244-282 | one loop body outside a dry run: choose the primary and apply the group, moving the plan, samples, deletions and tables on by that group |
| MergeSamples007Db.SampleDb.MergeGroups | database/data_migrations/merge_duplicate_samples_007.py:240-282 | the loop over the groups: the reported deletion count; a dry run changes nothing; otherwise metadata merged, duplicates deleted and references moved group by group |
| MergeSamples007Db.SampleDb.GroupLoop | database/data_migrations/merge_duplicate_samples_007.py:244-282 | outside a dry run, the loop leaves the plan of all keys, the summed deletion count, the samples and deletions after the whole plan, and every table as the run of the whole plan |
| MergeSamples007Db.SampleDb.PlanLoop | database/data_migrations/merge_duplicate_samples_007.py:244-253 | in a dry run, the loop only plans every group and sums the duplicates to delete |
| MergeSamples007Db.SampleDb.MergeField | database/data_migrations/merge_duplicate_samples_007.py:109-118 | one column of the primary becomes its merged value over the duplicates; no other sample or column changes |
| ResultMerge.NormalizeTimepoint | backend/services/result_merge_utils.py:14-18 | `normalize_timepoint`: no time gives none and a time gives a bucket |
| ResultMerge.NormalizeTimepointSpec | backend/services/result_merge_utils.py:14-18 | the bucket lies within half a bucket width of the time, and rounding it again keeps it (buckets are stable) |
| ResultMerge.ExactTimeIsCandidate | backend/services/result_merge_utils.py:21-60 | a row stored with exactly the requested time (and no bucket, for no time) is always one of its candidates |
| ResultMerge.Candidates | backend/services/result_merge_utils.py:21-60 | `find_timepoint_candidates`: positions of candidate rows in table order, which is id order |
| ResultMerge.CandidatesSpec | backend/services/result_merge_utils.py:21-60 | a position is listed exactly when its row is a candidate of the experiment and time, once, in ascending order |
| ResultMerge.MinRank | backend/services/result_merge_utils.py:63-72 | `min(candidates, key=_rank_primary_candidate)`: a candidate whose tier (both, one, none) is least and, within it, whose id is greatest |
| ResultMerge.MinRankUnique | backend/services/result_merge_utils.py:63-72 | with distinct ids the least-rank candidate is unique |
| ResultMerge.MaxById | backend/services/result_merge_utils.py:93 | `max(rows, key=id)`: a row of the list with the greatest id |
| ResultMerge.ChooseParent | backend/services/result_merge_utils.py:75-106 | `choose_parent_candidate`: None exactly for no candidates, otherwise one of them |
| ResultMerge.ChooseParentPrefers | backend/services/result_merge_utils.py:79-106 | the chosen parent is of the least preference class (both, opposite type only, any data, anything) and has the highest id within it |
| ResultMerge.ChooseParentUnique | backend/services/result_merge_utils.py:88-106 | with distinct ids any row meeting that preference is the chosen one |
| ResultMerge.FindExp | backend/services/result_merge_utils.py:187-191 | the `.first()` experiment with an id: one with that id, or none when the id is absent |
| ResultMerge.MaxTime | backend/services/result_merge_utils.py:195-199 | the greatest non-null time of an experiment's results, none when it has none |
| ResultMerge.AncestorTimeOffset | backend/services/result_merge_utils.py:166-205 | `get_ancestor_time_offset`: the sum of each ancestor's greatest time up the parent links, stopping on a cycle; 0 for an experiment without parent |
| ResultMerge.OffsetOfChain | backend/services/result_merge_utils.py:170-173 | the documented chain: c under b under base a has offset max_time(b) + max_time(a) |
| ResultMerge.OffsetOfSelfLoop | backend/services/result_merge_utils.py:182-185 | an experiment that is its own parent is counted once, then the cycle guard stops |
| ResultMerge.Promote | backend/services/result_merge_utils.py:119-134 | the table after enforcing one primary: one row per row |
| ResultMerge.PromoteByDemoting | backend/services/result_merge_utils.py:127-134 | demoting every candidate in table order and then promoting the least-rank one is `Promote` |
| ResultMerge.PromoteKeepsRanks | backend/services/result_merge_utils.py:127-134 | promotion changes no id and no row's children, so no rank |
| ResultMerge.RestampKeepsCandidate | backend/services/result_merge_utils.py:127-134 | restamping keeps a candidate a candidate of the same time, and a non-candidate untouched |
| ResultMerge.PromoteKeepsCandidates | backend/services/result_merge_utils.py:119-134 | promotion keeps the candidates of the time point |
| ResultMerge.PromoteSinglePrimary | backend/services/result_merge_utils.py:114-134 | after promotion exactly one candidate is primary, the least-rank one, and every candidate sits in the normalised bucket |
| ResultMerge.PromoteIdempotent | backend/services/result_merge_utils.py:109-137 | enforcing the single primary twice is the same as once |
| ResultMerge.ChainBase | backend/services/result_merge_utils.py:220 | `base_experiment_id or experiment_id`: a non-empty base id, else the experiment's own id |
| ResultMerge.ChainOf | backend/services/result_merge_utils.py:223-227 | the chain holds exactly the experiments whose base id equals the base |
| ResultMerge.Cumulated | backend/services/result_merge_utils.py:229-241 | the rows after refreshing the chain: one per row |
| ResultMerge.CumulatedIdempotent | backend/services/result_merge_utils.py:208-243 | refreshing the chain twice is the same as once |
| ResultMerge.CumulatedSkipsBase | backend/services/result_merge_utils.py:212-227 | an experiment without base id never has its results refreshed, although the documentation promises the calling experiment |
| ResultMerge.CumulatedChainRow | backend/services/result_merge_utils.py:229-241 | a timed row of a chain experiment gets its ancestors' offset plus its own time |
| ResultMerge.ResultStore.EnsurePrimary | backend/services/result_merge_utils.py:109-137 | none exactly when there are no candidates; otherwise the least-rank candidate's position, and the table becomes `Promote` of it |
| ResultMerge.ResultStore.DemoteAll | backend/services/result_merge_utils.py:127-130 | every candidate in turn loses the primary flag and gets the bucket |
| ResultMerge.ResultStore.CreateRow | backend/services/result_merge_utils.py:140-159 | no time raises (none, nothing added); otherwise one new primary row, bucketed, without children, with a fresh id |
| ResultMerge.ResultStore.UpdateCumulativeTimes | backend/services/result_merge_utils.py:208-243 | nothing for a missing experiment; otherwise every result of every chain experiment gets its cumulative time |
| ResultMerge.ResultStore.StampAll | backend/services/result_merge_utils.py:237-241 | every result of one experiment gets offset + own time, or none without a time |
| ResultMerge.StampWhere | backend/services/result_merge_utils.py:237-241 | stamping keeps every row's id and raw time |
| ResultMerge.NewRow | backend/services/result_merge_utils.py:150-156 | the new row is primary, without children, with the given time and an id above every stored one |
| ResultMerge.NewRowIsCandidate | backend/services/result_merge_utils.py:140-159 | a freshly created row is a candidate of its own time point, so a following promotion finds a primary |
| IcpService.ExtractSampleInfo | backend/services/icp_service.py:41-89 | `extract_sample_info`: none exactly when the label lacks the suffix `_Day<number>_<number>[x]` (or Time, any case) at its end |
| IcpService.DecomposeSound | backend/services/icp_service.py:61-69 | every part found lies in the label in the documented shape: prefix, "_", Day or Time in any case, a number, "_", a number, an optional x |
| IcpService.DecomposeComplete | backend/services/icp_service.py:61-69 | a label of the documented shape decomposes into exactly its pieces |
| IcpService.ExtractRoundTrip | backend/services/icp_service.py:61-85 | parsing a label built from its pieces returns the prefix and the two numbers, Day and Time alike |
| IcpService.ExtractExampleDay | backend/services/icp_service.py:45-58 | "Test_MH_001_Day3_10x" gives ("Test_MH_001", 3, 10) |
| IcpService.ExtractExampleTime | backend/services/icp_service.py:74-79 | "Serum-MH-025_Time5_5x" gives ("Serum-MH-025", 5, 5) |
| IcpService.ExtractExampleFraction | backend/services/icp_service.py:61-72 | "HPHT_MH_004_Day7.5_15x" gives ("HPHT_MH_004", 7.5, 15) |
| IcpService.ExtractExampleStandard | backend/services/icp_service.py:64-66 | the standard "Standard 1" has no suffix and gives none |
| IcpService.StandardizeIsLowerStrip | backend/services/icp_service.py:255-292 | `_standardize_element_name` is trimming and lower-casing, because the table maps every key to itself, and applying it twice changes nothing |
| IcpService.StandardizeElementName | backend/services/icp_service.py:255-292 | `_standardize_element_name` (no contract of its own): trim, lower-case and look up in the symbol table; StandardizeIsLowerStrip states what it amounts to |
| IcpService.CheckRow | backend/services/icp_service.py:566-582 | one row's failed checks appended in the order the checks run |
| IcpService.ValidateIcpData | backend/services/icp_service.py:550-584 | `validate_icp_data`: the message texts of the structured errors of the rows |
| IcpService.ErrorsUpToBound | backend/services/icp_service.py:566-582 | each message names a row among those checked, at most four per row |
| IcpService.ValidationPassesIff | backend/services/icp_service.py:550-584 | validation passes exactly when there are rows and every row passes all four checks; an empty list gives the single "No data to validate"; every other message names a row, at most four per row |
| IcpService.PartitionSpec | backend/services/icp_service.py:325-336 | with distinct keys, all_elements holds exactly the non-null non-metadata entries and the fixed columns are exactly its fixed-element part |
| IcpService.PartitionElements | backend/services/icp_service.py:331-336 | the loop over the row's items builds that partition |
| IcpService.RecordOf | backend/services/icp_service.py:338-377 | what is written for a row: all_elements is null exactly when no element has a value |
| IcpService.NormAgree | backend/services/icp_service.py:500-506 | the Python-side and SQL-side normalisations of an id agree |
| IcpService.FindExperiment | backend/services/icp_service.py:489-508 | `_find_experiment`: the first experiment whose normalised id equals the normalised text, or none when there is none |
| IcpService.FindExperimentSpelling | backend/services/icp_service.py:500-506 | ids that differ only in case, hyphens and underscores find the same experiment |
| IcpService.FindResult | backend/services/icp_service.py:530-536 | the first result of the experiment at exactly this time, or none when there is none |
| IcpService.FindOrCreateAsWrittenRaises | backend/services/icp_service.py:530-533 | as written, `filter_by(time_post_reaction=...)` names no column of the result table, so the lookup raises for every input; the intended keywords are accepted |
| IcpService.IcpStore.FindOrCreate | backend/services/icp_service.py:511-547 | the first result at the experiment and time is reused; otherwise one new result is appended and its position returned |
| IcpService.IcpStore.CreateIcpResult | backend/services/icp_service.py:295-383 | `create_icp_result`: the outcome and tables of the `Create` function |
| IcpService.IcpStore.BulkCreate | backend/services/icp_service.py:386-432 | `bulk_create_icp_results`: written rows, messages and tables of the `Bulk` function |
| IcpService.CreateSpec | backend/services/icp_service.py:295-383 | an unknown experiment changes nothing; otherwise the row for the experiment and time is reused or appended, its ICP data replaced by exactly the new row's, and the outcome is an update exactly when ICP data existed |
| IcpService.CreateIdempotent | backend/services/icp_service.py:338-353 | writing the same row twice leaves the tables as one write does: overwrites do not merge |
| IcpService.BulkKeepsTables | backend/services/icp_service.py:386-432 | result ids stay ascending, no row is removed, and every written row exists |
| IcpService.BulkReportsSkips | backend/services/icp_service.py:400-411 | every row without an experiment id, and every row with one but without a time, is reported under its 1-based number |
| IcpService.BulkCountsRows | backend/services/icp_service.py:400-432 | each row is either skipped or passed to creation, so writes and skips never exceed the rows |
| IcpService.BulkAllSkipped | backend/services/icp_service.py:400-411 | a batch in which every row is skipped writes nothing |
| IcpService.NextId | backend/services/icp_service.py:539-546 | a new result id lies above every stored id |
| AerisXrd.DateOf | backend/services/bulk_uploads/aeris_xrd.py:34-37 | `strptime("%Y%m%d")` on the eight digits: a date found is a real calendar date |
| AerisXrd.SplitId | backend/services/bulk_uploads/aeris_xrd.py:18-20 | the pattern's groups: eight date digits, a non-empty experiment part, day digits |
| AerisXrd.ParseAerisSampleId | backend/services/bulk_uploads/aeris_xrd.py:23-38 | a parsed ID has a valid date and a non-empty experiment id |
| AerisXrd.SplitIdSound | backend/services/bulk_uploads/aeris_xrd.py:18-20 | the groups found rebuild the text as `DATE_ExperimentID-dDAYS_SCAN` |
| AerisXrd.SplitIdComplete | backend/services/bulk_uploads/aeris_xrd.py:18-20 | every text of the form `DATE_ExperimentID-dDAYS_SCAN` matches, with those groups |
| AerisXrd.ParseComplete | backend/services/bulk_uploads/aeris_xrd.py:23-38 | a stripped ID of the form with a real date parses to (date, experiment id, days) |
| AerisXrd.ParseSound | backend/services/bulk_uploads/aeris_xrd.py:23-38 | a parse succeeds only on an ID of the form with a real date, returning its pieces |
| AerisXrd.ParseRejectsBadDate | backend/services/bulk_uploads/aeris_xrd.py:34-37 | an ID of the form whose eight digits are no date gives none |
| AerisXrd.ExampleDate | backend/services/bulk_uploads/aeris_xrd.py:35 | "20260218" reads as 18 February 2026 |
| AerisXrd.ParseExample | backend/services/bulk_uploads/aeris_xrd.py:23-29 | the documented `20260218_HPHT070-d19_02` gives (18 February 2026, HPHT070, 19) |
| AerisXrd.NormalizeIdProps | backend/services/bulk_uploads/aeris_xrd.py:41-43 | `_normalize_id` leaves no delimiter and no upper-case letter, and is idempotent |
| AerisXrd.NormalizeId | backend/services/bulk_uploads/aeris_xrd.py:41-43 | `_normalize_id` (no contract of its own): lower-casing and dropping `-`, `_` and spaces; NormalizeIdProps states its properties |
| AerisXrd.FindExperiment | backend/services/bulk_uploads/aeris_xrd.py:46-67 | the first experiment whose id, without delimiters and lower-cased, equals the normalised raw id; none when there is none |
| AerisXrd.FindExperimentSpelling | backend/services/bulk_uploads/aeris_xrd.py:46-67 | spellings that differ only in delimiters and case (HPHT070, HPHT_070) find the same experiment |
| AerisXrd.CleanMineralName | backend/services/bulk_uploads/aeris_xrd.py:70-73 | the cleaned name is stripped |
| AerisXrd.CleanRemovesUnit | backend/services/bulk_uploads/aeris_xrd.py:70-73 | a trailing `[%]` or `(%)` (with spaces around it) is removed and the name trimmed |
| AerisXrd.CleanWithoutUnit | backend/services/bulk_uploads/aeris_xrd.py:70-73 | a header without a trailing unit is only trimmed |
| AerisXrd.CleanRemovesOnlyOne | backend/services/bulk_uploads/aeris_xrd.py:72 | only the last unit is removed: "Quartz [%] [%]" gives "Quartz [%]" |
| AerisXrd.SheetLayoutSpec | backend/services/bulk_uploads/aeris_xrd.py:97-122 | a sheet is refused exactly for fewer than four columns, or no Sample ID column; otherwise the minerals are exactly the trimmed columns other than Sample ID, Rwp and Scan Number (case-insensitive) and are not empty |
| AerisXrd.FindPhase | backend/services/bulk_uploads/aeris_xrd.py:186-195 | the position of the first phase with the (experiment, day, mineral) key; none exactly when no phase has it |
| AerisXrd.Visible | backend/services/bulk_uploads/aeris_xrd.py:186-195 | a query sees a prefix of the rows: all of them under autoflush, else the ones stored before the upload |
| AerisXrd.UpsertSpec | backend/services/bulk_uploads/aeris_xrd.py:186-214 | a new phase exactly when the query found none; the phase written has the key and the new amount, Rwp, date and links; no other row changes; under autoflush it is the key's first row and unique keys stay unique |
| AerisXrd.Upsert | backend/services/bulk_uploads/aeris_xrd.py:186-216 | the phase table grows by one row exactly when the upsert reports a new phase, and keeps its length otherwise |
| AerisXrd.RepeatedKeyAddedTwiceAsWritten | backend/services/bulk_uploads/aeris_xrd.py:186-214 | with autoflush off, a key new to the database that comes twice in one upload is added twice, breaking the unique key |
| AerisXrd.BlankCellAsWritten | backend/services/bulk_uploads/aeris_xrd.py:129-141 | as written an empty Sample ID cell reads as "nan", which is not blank and does not parse |
| AerisXrd.SampleText | backend/services/bulk_uploads/aeris_xrd.py:129-132 | an empty cell reads as blank; other cells as written |
| AerisXrd.Classify | backend/services/bulk_uploads/aeris_xrd.py:129-155 | an empty Sample ID is blank; a number is unparsed; a matched row has a parsing Sample ID and the experiment the lookup finds |
| AerisXrd.ApplyMineralsCounts | backend/services/bulk_uploads/aeris_xrd.py:173-214 | each numeric mineral cell counts once as created or updated, new rows are the creations, and under autoflush keys stay unique |
| AerisXrd.StepKindCounts | backend/services/bulk_uploads/aeris_xrd.py:127-214 | one row adds one skip if blank, one error if unparsed or unknown, and its numeric cells to created plus updated |
| AerisXrd.ProcessRowsAccounting | backend/services/bulk_uploads/aeris_xrd.py:127-216 | skips are the blank rows, errors the rejected rows, created plus updated the numeric cells of matched rows; new rows are the creations; under autoflush keys stay unique |
| AerisXrd.UploadRejected | backend/services/bulk_uploads/aeris_xrd.py:97-122 | a refused sheet reports its one error and changes nothing |
| AerisXrd.Upload | backend/services/bulk_uploads/aeris_xrd.py:80-218 | `bulk_upsert_from_excel` on a read sheet (no contract of its own): UploadRejected, ProcessRowsAccounting and the session's BulkUpsert state what it returns |
| AerisXrd.XrdPhaseStore.constructor | backend/services/bulk_uploads/aeris_xrd.py:80-90 | the store holds the given experiments, phases and autoflush setting |
| AerisXrd.XrdPhaseStore.UpsertMinerals | backend/services/bulk_uploads/aeris_xrd.py:173-214 | the mineral loop leaves the phases and counts `ApplyMinerals` gives |
| AerisXrd.XrdPhaseStore.ClassifyRow | backend/services/bulk_uploads/aeris_xrd.py:129-155 | the row's kind is `Classify`'s, and the cache keeps only correct lookups |
| AerisXrd.XrdPhaseStore.ApplyRow | backend/services/bulk_uploads/aeris_xrd.py:129-214 | one row's effect on counters, errors and phases is `StepKind`'s |
| AerisXrd.XrdPhaseStore.BulkUpsert | backend/services/bulk_uploads/aeris_xrd.py:80-218 | `bulk_upsert_from_excel`: the tally and phases are the `Upload` function's, experiments unchanged |
| ExperimentStatusUpload.ColumnIndex | backend/services/bulk_uploads/experiment_status.py:59-74 | the column a lower-cased, trimmed header key names: the last header with that key; none when no header has it |
| ExperimentStatusUpload.IdTextAsWritten | backend/services/bulk_uploads/experiment_status.py:80 | as written an empty ID cell reads as "nan" |
| ExperimentStatusUpload.IdText | backend/services/bulk_uploads/experiment_status.py:80-81 | an empty ID cell reads as blank; other cells as written, trimmed |
| ExperimentStatusUpload.ReactorOf | backend/services/bulk_uploads/experiment_status.py:85-90 | `int()` of a present reactor cell: a number truncates; text converts exactly when it is an integer literal |
| ExperimentStatusUpload.BlankIdListedAsWritten | backend/services/bulk_uploads/experiment_status.py:79-82 | as written a blank ID row lists "nan"; read as intended it lists nothing |
| ExperimentStatusUpload.ExtractWellFormed | backend/services/bulk_uploads/experiment_status.py:77-90 | the listed IDs are distinct, non-blank and trimmed, and reactor numbers belong to listed IDs |
| ExperimentStatusUpload.Extract | backend/services/bulk_uploads/experiment_status.py:76-90 | the ID extraction over the rows (no contract of its own): ExtractWellFormed, ExtractListsExactly and ExtractIgnoresRepeats state what it lists |
| ExperimentStatusUpload.ExtractListsExactly | backend/services/bulk_uploads/experiment_status.py:77-90 | an ID is listed exactly when it is the non-blank ID of some row |
| ExperimentStatusUpload.ExtractIgnoresRepeats | backend/services/bulk_uploads/experiment_status.py:81 | a later row with an already listed ID changes nothing, so the first row decides its reactor number |
| ExperimentStatusUpload.ExtractIds | backend/services/bulk_uploads/experiment_status.py:76-90 | the extraction loop gives the listed IDs, reactor numbers and errors of `Extract` |
| ExperimentStatusUpload.MissingIds | backend/services/bulk_uploads/experiment_status.py:108-110 | the missing IDs are exactly the listed IDs no experiment carries |
| ExperimentStatusUpload.PreviewStatusChanges | backend/services/bulk_uploads/experiment_status.py:28-150 | `preview_status_changes_from_excel`: the preview is `PreviewOf` the sheet and the experiments |
| ExperimentStatusUpload.PreviewOf | backend/services/bulk_uploads/experiment_status.py:28-150 | the preview of a read sheet (no contract of its own): PreviewNeedsIdColumn and the lemmas on its item lists state it |
| ExperimentStatusUpload.ApplyAll | backend/services/bulk_uploads/experiment_status.py:176-214 | applying the status changes gives one entry for each experiment of the table, at its position |
| ExperimentStatusUpload.PreviewNeedsIdColumn | backend/services/bulk_uploads/experiment_status.py:61-68 | without an experiment_id header the preview is that single error |
| ExperimentStatusUpload.ApplyOutcome | backend/services/bulk_uploads/experiment_status.py:186-209 | listed experiments end ONGOING; an experiment is completed when and only when it was ONGOING, HPHT and unlisted; other unlisted ones are unchanged; a reactor number changes only when supplied and different |
| ExperimentStatusUpload.ApplyIdempotent | backend/services/bulk_uploads/experiment_status.py:153-214 | applying the sweep again changes nothing and counts no completions or reactor updates |
| ExperimentStatusUpload.PreviewCountsMatch | backend/services/bulk_uploads/experiment_status.py:100-140 | the preview lists as many experiments to mark ONGOING and to complete as applying it then counts |
| ExperimentStatusUpload.StatusStore.constructor | backend/services/bulk_uploads/experiment_status.py:153-157 | the store holds the given experiments |
| ExperimentStatusUpload.StatusStore.ApplyStatusChanges | backend/services/bulk_uploads/experiment_status.py:153-214 | `apply_status_changes`: the table becomes `ApplyAll` of the old one and the three counts are those of listed, completed and changed-reactor experiments |
| ExperimentStatusUpload.MarkListed | backend/services/bulk_uploads/experiment_status.py:178-195 | the first loop: listed experiments marked ONGOING with supplied reactor numbers, counted |
| ExperimentStatusUpload.CompleteUnlisted | backend/services/bulk_uploads/experiment_status.py:197-209 | the second loop completes the experiments ONGOING, HPHT and unlisted before the call, and counts them |
| LongFormat.MissingColumns | backend/services/bulk_uploads/long_format.py:146-149 | exactly the required columns the normalised header lacks, in sorted order |
| LongFormat.ValidateMetricValue | backend/services/bulk_uploads/long_format.py:75-102 | an unknown metric or a non-numeric value gives its one error; otherwise one error each for below the minimum, above the maximum and a unit not allowed; no errors exactly for a known metric with a numeric value in range and an allowed unit |
| LongFormat.RequiredErrors | backend/services/bulk_uploads/long_format.py:172-180 | no required-field error exactly when experiment ID and metric are non-blank and time and value are present |
| LongFormat.VerdictOf | backend/services/bulk_uploads/long_format.py:159-252 | an accepted row has a registered field, the row's numeric value at or above its minimum, and a unit exactly for hydrogen; a rejected row carries messages and row errors |
| LongFormat.SkipsOnlyEmptyRows | backend/services/bulk_uploads/long_format.py:167-169 | a row is skipped exactly when its experiment ID and metric cells are both empty |
| LongFormat.IndexOfKey | backend/services/bulk_uploads/long_format.py:241-244 | the position of the first group with the (experiment, time) key; none exactly when no group has it |
| LongFormat.AccumulateWellFormed | backend/services/bulk_uploads/long_format.py:240-252 | adding an accepted row keeps one group per key, each with a source row |
| LongFormat.PivotWellFormed | backend/services/bulk_uploads/long_format.py:155-252 | after the row loop there is one group per (experiment, time) key, each with its contributing rows |
| LongFormat.PivotOf | backend/services/bulk_uploads/long_format.py:159-252 | the row loop as a function (no contract of its own): PivotWellFormed, PivotFeedbacksAreErrors and PivotLastWriteWins state what it builds |
| LongFormat.PivotFeedbacksAreErrors | backend/services/bulk_uploads/long_format.py:182-238 | every input feedback has status error and at least one error |
| LongFormat.AccumulateFieldOf | backend/services/bulk_uploads/long_format.py:240-252 | after adding an accepted row, its key's field holds the row's value and every other key and field is unchanged |
| LongFormat.PivotLastWriteWins | backend/services/bulk_uploads/long_format.py:240-252 | each (experiment, time, field) holds the value of the last valid row that wrote it, and nothing else |
| LongFormat.RequestOf | backend/services/bulk_uploads/long_format.py:283-292 | a group's request carries its experiment, its fields, its time, the day description and a partial-update flag |
| LongFormat.Upload | backend/services/bulk_uploads/long_format.py:105-318 | missing columns give that one error and nothing else; a dry run sends no request; every request is a partial update |
| LongFormat.UploadShape | backend/services/bulk_uploads/long_format.py:254-318 | the row errors are reported; a dry run adds one dry-run feedback per group; a real run sends one request per group, no two with the same (experiment, time) |
| LongFormat.PivotRows | backend/services/bulk_uploads/long_format.py:159-252 | the row loop's errors, feedbacks and groups are `PivotOf`'s |
| LongFormat.UploadFromSheet | backend/services/bulk_uploads/long_format.py:105-318 | `long_format_upload_from_excel` on a sheet already read is `Upload` |
| LongFormat.UpsertGroups | backend/services/bulk_uploads/long_format.py:262-315 | a dry run gives one dry-run feedback per group and no request; otherwise one request per group |
| QuickUpload.FieldOfHeader | backend/services/bulk_uploads/quick_upload.py:187 | a header found names one of the template's fields |
| QuickUpload.TemplateHeadersRename | backend/services/bulk_uploads/quick_upload.py:187-211 | every template header, with or without its asterisk, is renamed to its own field |
| QuickUpload.Cleaned | backend/services/bulk_uploads/quick_upload.py:223-237 | the cleaned row keeps exactly the non-empty cells, and the group's defaults fill exactly the absent or empty fields |
| QuickUpload.ValidateField | backend/services/bulk_uploads/quick_upload.py:131-149 | a non-numeric value of a numeric field gives its one error; no errors exactly when the value passes the rule (a number within the bounds, one of the allowed texts) |
| QuickUpload.ValidationErrors | backend/services/bulk_uploads/quick_upload.py:273-285 | no errors exactly when every validated field the row has passes its rule |
| QuickUpload.Coerced | backend/services/bulk_uploads/quick_upload.py:294-298 | a value is kept, or it is text that `float()` reads and becomes that number |
| QuickUpload.CoerceNumerics | backend/services/bulk_uploads/quick_upload.py:287-298 | the same fields; text fields are kept, the others coerced |
| QuickUpload.MissingFields | backend/services/bulk_uploads/quick_upload.py:243 | exactly the required fields the cleaned row lacks |
| QuickUpload.Prepare | backend/services/bulk_uploads/quick_upload.py:239-271 | a stop is an error feedback with its message; going on means every required field is present, the time is numeric and the other fields are unchanged |
| QuickUpload.Payload | backend/services/bulk_uploads/quick_upload.py:287-304 | the payload has the row's fields plus description and overwrite flag, a non-empty description, the upload's overwrite flag, and the time unchanged |
| QuickUpload.Finish | backend/services/bulk_uploads/quick_upload.py:273-307 | a row is accepted exactly when it passes its group's validations, and then sends its payload; a rejection is an error feedback with one message per error |
| QuickUpload.VerdictOf | backend/services/bulk_uploads/quick_upload.py:219-307 | a rejection is an error feedback with one message per error; an accepted row carries the upload's overwrite flag |
| QuickUpload.GoodRows | backend/services/bulk_uploads/quick_upload.py:242-304 | an accepted row has every required field, a numeric time, a description, the overwrite flag, and passes every validation of its group |
| QuickUpload.HydrogenUnitDefaulted | backend/services/bulk_uploads/quick_upload.py:234-237 | the hydrogen group always sends a unit, ppm or %, and ppm when the sheet gives none |
| QuickUpload.ParseRows | backend/services/bulk_uploads/quick_upload.py:219-307 | accepted rows carry the overwrite flag, and no more rows come out than go in |
| QuickUpload.ParseRowsAccountsForEveryRow | backend/services/bulk_uploads/quick_upload.py:219-307 | every row is either rejected with feedback or accepted, and errors are reported exactly when some row is rejected |
| QuickUpload.RequestOf | backend/services/bulk_uploads/quick_upload.py:325-330 | the experiment ID is popped from the payload and every other field is sent unchanged |
| QuickUpload.UploadWith | backend/services/bulk_uploads/quick_upload.py:181-364 | a dry run sends no request, and every request carries the overwrite flag |
| QuickUpload.SheetRecords | backend/services/bulk_uploads/quick_upload.py:206-214 | one record per sheet row, keyed by the renamed headers |
| QuickUpload.Upload | backend/services/bulk_uploads/quick_upload.py:156-364 | an unknown group gives that one error; a known group uploads with its own definition |
| QuickUpload.TemplateSheetsStayInGroup | backend/services/bulk_uploads/quick_upload.py:181-307 | a sheet with only the group's template headers sends only the group's fields and the overwrite flag |
| QuickUpload.GroupsSelfContained | backend/services/bulk_uploads/quick_upload.py:181-184 | every group's defaults, time and description are among its template's fields |
| QuickUpload.AcceptedStayInTemplate | backend/services/bulk_uploads/quick_upload.py:219-307 | rows with only template fields are accepted with only template fields and the overwrite flag |
| QuickUpload.ParseSheetRows | backend/services/bulk_uploads/quick_upload.py:219-307 | the row loop's errors, feedbacks and accepted rows are `ParseRows`'s |
| QuickUpload.DefaultedChoice | backend/services/bulk_uploads/quick_upload.py:234-237 | in an accepted row a defaulted choice field holds an allowed value, and the default when the cell was empty |
| QuickUpload.GoodTextKept | backend/services/bulk_uploads/quick_upload.py:221-232 | an accepted row keeps each non-empty text cell of the sheet unchanged |
| QuickUpload.HydrogenUnitRule | backend/services/bulk_uploads/metric_groups.py:40-43 | the hydrogen group defaults its unit to ppm and allows only ppm and % |
| QuickUpload.Requests | backend/services/bulk_uploads/quick_upload.py:324-330 | one service request per accepted row, in order, each keeping that row's overwrite flag |
| MetricGroups.SortedMetricNamesAreRegistry | backend/services/bulk_uploads/long_format.py:80 | the sorted name list in the unknown-metric message names exactly the registry's metrics |
| MetricGroups.RegistryAgreesWithGroups | backend/services/bulk_uploads/metric_groups.py:19-176 | each long-format metric but the ferrous-iron yield has the bounds of the quick-upload group that validates it, and the hydrogen unit lists agree |
| NewExperiments.ParseStatus | backend/services/bulk_uploads/new_experiments.py:63-70 | an empty cell gives no status; a status is returned only when the trimmed text equals its name (which is also its value) ignoring case, and none only when no status matches |
| NewExperiments.ParseStatusReadsValue | backend/services/bulk_uploads/new_experiments.py:66-69 | any text whose trimmed lower-cased form is a status's lower-cased value parses to that status |
| NewExperiments.ParseBool | backend/services/bulk_uploads/new_experiments.py:73-78 | a boolean is returned unchanged, an empty cell is false, anything else is true exactly when its trimmed lower-cased text is 1, true, yes or y |
| NewExperiments.IdText | backend/services/bulk_uploads/new_experiments.py:96-99 | the experiment ID is trimmed, and a falsy cell (empty included) gives the blank ID that counts a skip |
| NewExperiments.IdTextAsWritten | backend/services/bulk_uploads/new_experiments.py:96 | the ID as written: equal to the corrected reading for every non-empty cell |
| NewExperiments.BlankIdNotSkippedAsWritten | backend/services/bulk_uploads/new_experiments.py:96-99 | as written an empty ID cell reads as "nan", which is not blank, so the row is not skipped; the corrected reading gives "" |
| NewExperiments.NextNumber | backend/services/bulk_uploads/new_experiments.py:82-83 | the next experiment number is 1 for an empty table and otherwise exceeds every stored non-zero number |
| NewExperiments.Created | backend/services/bulk_uploads/new_experiments.py:155-163 | a created experiment has the parsed status, or ONGOING when none was given |
| NewExperiments.Updated | backend/services/bulk_uploads/new_experiments.py:169-179 | an update keeps identity, number and ID and replaces exactly those of sample ID, researcher, status and date that were supplied |
| NewExperiments.UpdatedWithNothing | backend/services/bulk_uploads/new_experiments.py:169-179 | an update with no supplied field leaves the experiment unchanged |
| NewExperiments.FindByKey | backend/services/bulk_uploads/new_experiments.py:114-125 | the lookup returns the first experiment whose ID, with hyphens, underscores and spaces removed and lower-cased, equals the key, and none exactly when no experiment matches |
| NewExperiments.Labelled | backend/services/bulk_uploads/new_experiments.py:102-105 | each validation warning is reported once, prefixed with its row number and ID |
| NewExperiments.WithNote | backend/services/bulk_uploads/new_experiments.py:182-188 | a non-blank initial note appends one note for the experiment and no note leaves the notes unchanged |
| NewExperiments.Apply | backend/services/bulk_uploads/new_experiments.py:155-179 | a missing experiment is appended with a fresh ID and the next number, which then advances with the created count; a found one is updated in place with the updated count; the other tables are untouched |
| NewExperiments.ExperimentRowOutcomes | backend/services/bulk_uploads/new_experiments.py:94-179 | a blank ID only counts a skip; otherwise the overwrite flag is recorded, overwrite for a missing ID and no overwrite for an existing ID each add their one error and change nothing, and the other two cases create or update |
| NewExperiments.ExperimentRow | backend/services/bulk_uploads/new_experiments.py:94-179 | one row of the experiments sheet (no contract of its own): what it does with a blank ID, a missing or existing experiment and the overwrite flag is stated by ExperimentRowOutcomes and ExperimentRowNumbers |
| NewExperiments.FieldsOf | backend/services/bulk_uploads/new_experiments.py:128-144 | a researcher given in the row is kept as given (the ID's initials fill in only when it is blank), and an empty date cell gives no date |
| NewExperiments.NonBlank | backend/services/bulk_uploads/new_experiments.py:144 | a note is read exactly when the cell is present and its stripped text is not empty, and it is that stripped text |
| NewExperiments.ExperimentRowsNumbered | backend/services/bulk_uploads/new_experiments.py:82-83 | over the whole sheet, the experiments beyond those at the start are appended with consecutive numbers from the starting next number, as many as the rise in the created count, and the next number advances by that many |
| NewExperiments.ExperimentRowNumbers | backend/services/bulk_uploads/new_experiments.py:155-179 | a row either appends one experiment numbered with the next number and advances it, or keeps every experiment's number and the next number |
| NewExperiments.BlankRowsSkipped | backend/services/bulk_uploads/new_experiments.py:96-99 | a sheet of blank-ID rows changes nothing but the skipped count, by the number of rows |
| NewExperiments.UnitOf | backend/services/bulk_uploads/new_experiments.py:351-359 | a unit is found exactly when the trimmed text equals some unit's value, and it is that unit |
| NewExperiments.UnitOfValue | backend/services/bulk_uploads/new_experiments.py:351-359 | every unit's own value is read back as that unit |
| NewExperiments.OrderOf | backend/services/bulk_uploads/new_experiments.py:370-374 | an empty order cell gives none and a number is truncated to an integer |
| NewExperiments.RequestOf | backend/services/bulk_uploads/new_experiments.py:335-359 | a row is blank exactly when its compound is blank; a wanted row has a parsed amount above zero and a unit whose value is the cell text; a refusal with a valid amount is the invalid-unit error |
| NewExperiments.Resolve | backend/services/bulk_uploads/new_experiments.py:362-367 | a compound name known ignoring case resolves to its compound; an unknown one creates a compound with a fresh ID and remembers it |
| NewExperiments.FindAdditive | backend/services/bulk_uploads/new_experiments.py:392-395 | the lookup returns the first additive of the conditions record and compound, and none exactly when there is none |
| NewExperiments.Upserted | backend/services/bulk_uploads/new_experiments.py:396-412 | the existing additive of the pair is overwritten in place, or the new one is appended when there is none |
| NewExperiments.UpsertedKeepsPairsUnique | backend/services/bulk_uploads/new_experiments.py:390-412 | the per-compound upsert keeps each (conditions, compound) pair to one additive |
| NewExperiments.Stored | backend/services/bulk_uploads/new_experiments.py:392-395 | a query sees a prefix of the additives, and all of them once everything is flushed |
| NewExperiments.BeforeQuery | backend/services/bulk_uploads/new_experiments.py:392-395 | under autoflush every pending additive is flushed before a query; otherwise the session is unchanged |
| NewExperiments.ConditionsFor | backend/services/bulk_uploads/new_experiments.py:313-324 | the experiment's conditions record is found, or one is appended for it, and existing records are unchanged |
| NewExperiments.Without | backend/services/bulk_uploads/new_experiments.py:326-331 | exactly the additives of other conditions records remain |
| NewExperiments.GroupIndices | backend/services/bulk_uploads/new_experiments.py:291-292 | a group holds exactly the rows with its key, in ascending order |
| NewExperiments.GroupStart | backend/services/bulk_uploads/new_experiments.py:313-331 | before its rows a group has the experiment's conditions record found or created, and only in replace mode are additives removed |
| NewExperiments.AdditiveRowsKeepAmountsPositive | backend/services/bulk_uploads/new_experiments.py:341-348 | every additive a group writes has an amount above zero |
| NewExperiments.ReplaceRowsAppend | backend/services/bulk_uploads/new_experiments.py:377-389 | in replace mode rows only append additives, all of the group's conditions record |
| NewExperiments.UpsertRowsKeepPairsUnique | backend/services/bulk_uploads/new_experiments.py:390-412 | with an autoflushing session, a group's upsert rows keep each (conditions, compound) pair to one additive |
| NewExperiments.AutoflushRowUpserts | backend/services/bulk_uploads/new_experiments.py:390-412 | with an autoflushing session a wanted row is exactly the upsert of its additive over all additives |
| NewExperiments.RepeatedCompoundAddedTwiceAsWritten | backend/services/bulk_uploads/new_experiments.py:392-412 | without autoflush, two upsert rows for the same known compound both append, so the pair appears twice |
| NewExperiments.ReplaceGroupReplaces | backend/services/bulk_uploads/new_experiments.py:326-389 | a group for an experiment marked overwrite keeps every other record's additive, in order, before the new rows, and all that follows belongs to its conditions record |
| NewExperiments.UnknownGroupReported | backend/services/bulk_uploads/new_experiments.py:306-309 | a group whose key matches no experiment adds exactly its one not-found error |
| NewExperiments.Insert | backend/services/bulk_uploads/new_experiments.py:291 | inserting a key into a strictly sorted key list keeps it strictly sorted and adds only that key |
| NewExperiments.SortedKeys | backend/services/bulk_uploads/new_experiments.py:291-292 | groups run in strictly ascending key order, one per distinct key of the rows |
| NewExperiments.SheetNamed | backend/services/bulk_uploads/new_experiments.py:57 | a sheet is found exactly when some sheet name, trimmed and lower-cased, equals the wanted name |
| NewExperiments.MissingFrom | backend/services/bulk_uploads/new_experiments.py:281-284 | exactly the required additive columns the header lacks are reported |
| NewExperiments.AdditivesPartKeeps | backend/services/bulk_uploads/new_experiments.py:277-414 | the additives sheet keeps the experiments, the created and updated counts and the warnings, and only appends errors |
| NewExperiments.MissingExperimentsSheet | backend/services/bulk_uploads/new_experiments.py:192-193 | without an experiments sheet nothing is created or updated and the first error is the missing-sheet error |
| NewExperiments.UploadSession.constructor | backend/services/bulk_uploads/new_experiments.py:25 | the session starts on the given tables |
| NewExperiments.UploadSession.ExperimentRowStep | backend/services/bulk_uploads/new_experiments.py:94-188 | one experiments row changes the tables and counters exactly as the row function says |
| NewExperiments.UploadSession.ExperimentsSheet | backend/services/bulk_uploads/new_experiments.py:94-190 | the experiments loop leaves the tables and counters the sheet function gives |
| NewExperiments.UploadSession.AdditiveRowStep | backend/services/bulk_uploads/new_experiments.py:333-414 | one additives row changes the tables and the session exactly as the row function says |
| NewExperiments.UploadSession.AdditiveGroupStep | backend/services/bulk_uploads/new_experiments.py:292-331 | one group changes the tables and the session exactly as the group function says |
| NewExperiments.UploadSession.BulkUpsertFromExcel | backend/services/bulk_uploads/new_experiments.py:24-416 | the upload returns the summary and leaves the tables the workbook function gives |
| NewExperiments.AdditiveRow | backend/services/bulk_uploads/new_experiments.py:333-414 | an additives row leaves experiments, notes and conditions records alone, and every additive it leaves is one that was there or has an amount above zero |
| NewExperiments.UploadSession.GroupRows | backend/services/bulk_uploads/new_experiments.py:333-414 | a group's row loop leaves the tables and the session the rows function gives |
| NewExperiments.UploadSession.AdditivesSheet | backend/services/bulk_uploads/new_experiments.py:292-414 | the group loop leaves the tables and the session the groups function gives |
| NewExperiments.Flush | backend/services/bulk_uploads/new_experiments.py:322-324 | a flush makes every pending additive stored and changes no table |
| NewExperiments.MaxNumber | backend/services/bulk_uploads/new_experiments.py:82 | the largest stored experiment number, when there is one, is the number of some experiment and at least every stored number |
| NewExperiments.AdditiveRows | backend/services/bulk_uploads/new_experiments.py:333-414 | a group's rows leave the experiments, notes and conditions records and the autoflush setting as they were |
| NewExperiments.AdditiveGroup | backend/services/bulk_uploads/new_experiments.py:292-414 | a group leaves the experiments, notes and autoflush setting as they were |
| NewExperiments.AdditiveRowKeepsAmountsPositive | backend/services/bulk_uploads/new_experiments.py:346-348 | a row never stores an additive with a non-positive amount, so positive amounts stay positive |
| NewExperiments.AdditiveGroupKeepsErrors | backend/services/bulk_uploads/new_experiments.py:306-309 | a group only ever appends to the error list |
| NewExperiments.UploadSession.ApplyRow | backend/services/bulk_uploads/new_experiments.py:155-179 | an accepted experiments row changes the tables and the tally as the create-or-update function says |
| NewExperiments.UploadSession.GroupStartStep | backend/services/bulk_uploads/new_experiments.py:313-331 | the start of a group changes the tables as the group-start function says and returns its conditions record |
| NewExperiments.UploadSession.GroupRowAt | backend/services/bulk_uploads/new_experiments.py:333-414 | one more additives row of a group moves the tables from the rows so far to one row more |
| ScalarResultsService.Upsert | backend/services/scalar_results_service.py:75-119 | a new record or an overwrite takes every updatable field from the data, None where the data lacks it; a partial update takes each field the data supplies and keeps the prior value of every other |
| ScalarResultsService.MergeAllIsOverwrite | backend/services/scalar_results_service.py:87-96 | a partial update that supplies every updatable field stores what an overwrite stores |
| ScalarResultsService.MergeNothingKeeps | backend/services/scalar_results_service.py:91-96 | a partial update that supplies no updatable field leaves the record unchanged |
| ScalarResultsService.MergeComposes | backend/services/scalar_results_service.py:91-96 | two partial updates are one update with both rows' fields, the later winning, and repeating a partial update changes nothing |
| ScalarResultsService.OverwriteForgets | backend/services/scalar_results_service.py:87-90 | an overwrite stores the same record whatever was stored before, the same as a new record |
| ScalarResultsService.PrepareData | backend/services/scalar_results_service.py:37-43 | the overwrite flag is removed from the data and decides the mode; other fields are kept; a hydrogen concentration without a unit gets the unit ppm, and otherwise the unit is kept |
| ScalarResultsService.HydrogenHasUnit | backend/services/scalar_results_service.py:40-43 | whenever a hydrogen concentration is present the prepared data carries a non-empty unit |
| ScalarResultsService.LongFormatRequestsArePartial | backend/services/scalar_results_service.py:27-29 | the requests the long-format upload hands to the service never ask for an overwrite |
| ScalarResultsService.FindExperiment | backend/services/scalar_results_service.py:196-202 | the lookup returns the first experiment whose ID, lower-cased with hyphens and underscores removed, equals the normalised argument, and none exactly when no experiment matches |
| ScalarResultsService.SpacesDistinguishHere | backend/services/scalar_results_service.py:197 | this lookup keeps spaces, so IDs that differ only by a space are different experiments here though the lineage helpers treat them as one |
| ScalarResultsService.ParentIndex | backend/services/scalar_results_service.py:227-232 | a parent is chosen exactly when the time point has a candidate result row, and it is one of those candidates |
| ScalarResultsService.FindOrCreate | backend/services/scalar_results_service.py:207-251 | the chosen candidate is reused and only its description may change, or a new candidate row is appended; ids and every other row are kept |
| ScalarResultsService.DescriptionKeptUnlessGiven | backend/services/scalar_results_service.py:233-237 | a reused row's description is replaced only by a non-empty supplied description |
| ScalarResultsService.Promoted | backend/services/scalar_results_service.py:123-132 | the row is marked as holding a scalar record and stays a candidate of its time point, with ids and experiments kept |
| ScalarResultsService.Attached | backend/services/scalar_results_service.py:122-135 | attaching the scalar record marks the row, keeps it a candidate and keeps ids and experiments, re-timing only cumulative times |
| ScalarResultsService.CumulatedChangesOnlyCumulative | backend/services/scalar_results_service.py:134-135 | re-timing the chain changes nothing but cumulative times |
| ScalarResultsService.Locate | backend/services/scalar_results_service.py:45-64 | a call proceeds only for a text ID of a found experiment and a numeric time; an unknown experiment fails with the not-found error and a missing time with the time-required error |
| ScalarResultsService.WriteAt | backend/services/scalar_results_service.py:66-135 | the write reuses or appends one result row of the experiment at that time, marks it, stores the upserted scalar record under its id and touches no other scalar record |
| ScalarResultsService.Create | backend/services/scalar_results_service.py:17-137 | a failed call leaves every table unchanged, and the time-required failure happens exactly for a missing time |
| ScalarResultsService.PartialKeepsOmittedFields | backend/services/scalar_results_service.py:87-96 | a field the row does not supply keeps its stored value in partial mode and is cleared by an overwrite or in a new record |
| ScalarResultsService.BulkRow | backend/services/scalar_results_service.py:154-180 | each row is written or gives one error, an error leaves the tables unchanged, and a missing ID or description gives its own message first |
| ScalarResultsService.BulkAccountsForEveryRow | backend/services/scalar_results_service.py:151-182 | the written results and the errors together number the rows |
| ScalarResultsService.BulkWithoutIdsWritesNothing | backend/services/scalar_results_service.py:156-159 | a batch of rows without experiment IDs writes nothing and reports one missing-ID error per row, by sheet row |
| ScalarResultsService.ScalarSession.constructor | backend/services/scalar_results_service.py:13 | the session starts on the given store and scalar records |
| ScalarResultsService.ScalarSession.CreateScalarResult | backend/services/scalar_results_service.py:17-137 | the call returns the outcome and leaves the tables the table function gives |
| ScalarResultsService.ScalarSession.AttachScalar | backend/services/scalar_results_service.py:122-135 | the result rows become the attached rows and experiments are unchanged |
| ScalarResultsService.ScalarSession.FindOrCreateRow | backend/services/scalar_results_service.py:207-251 | the result rows and the returned index are those the find-or-create function gives |
| ScalarResultsService.ScalarSession.BulkRowStep | backend/services/scalar_results_service.py:155-180 | one bulk row changes the tables and reports as the row function says |
| ScalarResultsService.ScalarSession.BulkCreate | backend/services/scalar_results_service.py:140-182 | the bulk loop returns the written results and errors and leaves the tables the bulk function gives |
| ScalarResultsService.FindOrCreateAscending | backend/services/scalar_results_service.py:207-251 | find-or-create keeps the result IDs ascending |
| ActlabsTitration.SampleIdCol | backend/services/bulk_uploads/actlabs_titration_data.py:150-156 | the sample-ID column is the first column one of whose first six cells mentions both sample and id or is sample_id, and column 0 when none does |
| ActlabsTitration.DetectSampleIdCol | backend/services/bulk_uploads/actlabs_titration_data.py:150-156 | the column scan returns the sample-ID column the specification function names |
| ActlabsTitration.DataStartSpec | backend/services/bulk_uploads/actlabs_titration_data.py:181-202 | the first data row follows the first of the first twelve rows whose first cell starts with analysis method, and is row 4 when none does |
| ActlabsTitration.StartFromSpec | backend/services/bulk_uploads/actlabs_titration_data.py:181-202 | the scan from a row stops just after the first method row at or after it, or gives row 4 when none is left |
| ActlabsTitration.FindDataStartIndex | backend/services/bulk_uploads/actlabs_titration_data.py:181-202 | the row scan returns the first data row the specification function names |
| ActlabsTitration.SymbolAt | backend/services/bulk_uploads/actlabs_titration_data.py:166-171 | a header symbol is never blank |
| ActlabsTitration.UnitAt | backend/services/bulk_uploads/actlabs_titration_data.py:172-175 | a header unit is never blank; an empty or blank cell gives none |
| ActlabsTitration.Put | backend/services/bulk_uploads/actlabs_titration_data.py:177 | a dictionary store keeps symbols distinct, holds the new entry, drops only the old entry of the same symbol and keeps every other |
| ActlabsTitration.AnalyteMapLastColumnWins | backend/services/bulk_uploads/actlabs_titration_data.py:163-177 | each symbol of the analyte map names the last column other than the sample column that carries it, with that column's unit |
| ActlabsTitration.AnalyteMapComplete | backend/services/bulk_uploads/actlabs_titration_data.py:163-177 | every column other than the sample column with a non-blank symbol has its symbol in the map |
| ActlabsTitration.ExtractLastAnalyteMap | backend/services/bulk_uploads/actlabs_titration_data.py:159-161 | the map can be read exactly when the grid has at least four rows |
| ActlabsTitration.ExtractLastAnalytes | backend/services/bulk_uploads/actlabs_titration_data.py:159-178 | the column loop returns the map the specification function gives |
| ActlabsTitration.CoerceText | backend/services/bulk_uploads/actlabs_titration_data.py:208-223 | nd, na and n/a in any case give no number and keep the text; a plain number is read as is with no text; a number behind leading comparison signs is read with the text kept |
| ActlabsTitration.ParseFloat | backend/services/bulk_uploads/actlabs_titration_data.py:214 | `float` of a text (no contract of its own): the plain decimal reading of the value layer; what it gives is stated through CoerceText and CoerceQualified |
| ActlabsTitration.CoerceNumber | backend/services/bulk_uploads/actlabs_titration_data.py:205-210 | an empty cell gives neither number nor text, a numeric cell gives its value, and anything else is the coercion of its stripped text |
| ActlabsTitration.CoerceQualified | backend/services/bulk_uploads/actlabs_titration_data.py:219-221 | a text both read as a number and kept as text starts with a comparison sign, and the number is that of the text behind the signs |
| ActlabsTitration.VisibleAnalytes | backend/services/bulk_uploads/actlabs_titration_data.py:251 | a query sees a prefix of the session's analytes, and all of them under autoflush |
| ActlabsTitration.VisibleResults | backend/services/bulk_uploads/actlabs_titration_data.py:287-291 | a query sees a prefix of the session's compositions, and all of them under autoflush |
| ActlabsTitration.FindSymbol | backend/services/bulk_uploads/actlabs_titration_data.py:251 | the lookup returns the first analyte whose symbol equals the given one ignoring case, and none exactly when no symbol matches |
| ActlabsTitration.UpsertAnalyte | backend/services/bulk_uploads/actlabs_titration_data.py:250-256 | an analyte upsert keeps existing symbols and ids and touches no composition; under autoflush the symbol is afterwards present |
| ActlabsTitration.UpsertAnalytes | backend/services/bulk_uploads/actlabs_titration_data.py:250-256 | the analyte loop changes only analytes |
| ActlabsTitration.SymbolIndex | backend/services/bulk_uploads/actlabs_titration_data.py:259-260 | the index has an entry for the lower-cased symbol of every analyte and no other entry |
| ActlabsTitration.UpsertedSymbolsResolve | backend/services/bulk_uploads/actlabs_titration_data.py:250-260 | under autoflush every header symbol is found in the index built after the upsert |
| ActlabsTitration.FindPair | backend/services/bulk_uploads/actlabs_titration_data.py:287-291 | the lookup returns a composition of the sample and analyte, and none exactly when there is none |
| ActlabsTitration.PutResult | backend/services/bulk_uploads/actlabs_titration_data.py:287-297 | the value is stored for the pair: appended when reported as created, otherwise written over a row of the same pair and nothing else; under autoflush pairs stay unique |
| ActlabsTitration.Cell | backend/services/bulk_uploads/actlabs_titration_data.py:276-297 | a cell adds at most one to the created and updated counts and changes no analyte, skip count or error |
| ActlabsTitration.DataRow | backend/services/bulk_uploads/actlabs_titration_data.py:263-297 | a data row never changes the analytes or the skip count |
| ActlabsTitration.Prepared | backend/services/bulk_uploads/actlabs_titration_data.py:242-260 | the layout is found exactly when the grid has at least four rows, and preparing it changes only analytes |
| ActlabsTitration.Import | backend/services/bulk_uploads/actlabs_titration_data.py:226-299 | an empty table gives the no-data error and changes nothing; the import fails exactly for a non-empty grid of fewer than four rows, and then changes nothing; the skip count is always 0 |
| ActlabsTitration.CellsWithoutIndex | backend/services/bulk_uploads/actlabs_titration_data.py:283-286 | with an empty analyte index a row's cells change nothing |
| ActlabsTitration.RowsWithoutIndex | backend/services/bulk_uploads/actlabs_titration_data.py:283-286 | with an empty analyte index no composition is written or counted |
| ActlabsTitration.NewAnalytesIgnoredAsWritten | backend/services/bulk_uploads/actlabs_titration_data.py:250-260 | with autoflush off and no stored analytes, an import writes no composition and counts nothing, whatever symbols the header brings |
| ActlabsTitration.CellsKeepPairsUnique | backend/services/bulk_uploads/actlabs_titration_data.py:287-297 | under autoflush a row's cells keep each (sample, analyte) pair to one composition |
| ActlabsTitration.RowsKeepPairsUnique | backend/services/bulk_uploads/actlabs_titration_data.py:263-297 | under autoflush the row loop keeps each (sample, analyte) pair to one composition |
| ActlabsTitration.ImportKeepsPairsUnique | backend/services/bulk_uploads/actlabs_titration_data.py:226-299 | under autoflush an import keeps each (sample, analyte) pair to one composition and every header symbol is in the index |
| ActlabsTitration.MissingColumns | backend/services/bulk_uploads/actlabs_titration_data.py:29-31 | exactly the required analyte columns the header lacks are reported |
| ActlabsTitration.AnalyteRow | backend/services/bulk_uploads/actlabs_titration_data.py:34-47 | a row with a blank symbol or unit counts one skip and changes nothing; otherwise it counts one create or update and an analyte with that symbol, ignoring case, has that unit |
| ActlabsTitration.TextOr | backend/services/bulk_uploads/actlabs_titration_data.py:35-36 | `str(v or "").strip()` (no contract of its own); AnalyteRow states the skip it decides |
| ActlabsTitration.AnalyteRowsAccounted | backend/services/bulk_uploads/actlabs_titration_data.py:33-49 | every analyte row is counted once as created, updated or skipped, and no error is added |
| ActlabsTitration.UploadAnalytes | backend/services/bulk_uploads/actlabs_titration_data.py:15-51 | the analyte upload changes only analytes |
| ActlabsTitration.MissingColumnsReported | backend/services/bulk_uploads/actlabs_titration_data.py:29-31 | without a unit column the upload returns only the missing-columns error and changes nothing |
| ActlabsTitration.ActlabsSession.constructor | backend/services/bulk_uploads/actlabs_titration_data.py:131 | the session starts on the given tables, all of them stored |
| ActlabsTitration.ActlabsSession.UpsertAnalyteStep | backend/services/bulk_uploads/actlabs_titration_data.py:251-256 | one analyte upsert changes the tables as the function says |
| ActlabsTitration.ActlabsSession.UpsertHeaderAnalytes | backend/services/bulk_uploads/actlabs_titration_data.py:250-256 | the analyte loop changes the tables as the function says |
| ActlabsTitration.ActlabsSession.PutResultStep | backend/services/bulk_uploads/actlabs_titration_data.py:287-297 | one composition upsert changes the tables and reports creation as the function says |
| ActlabsTitration.ActlabsSession.CellStep | backend/services/bulk_uploads/actlabs_titration_data.py:277-297 | one cell changes the tables and counts as the function says |
| ActlabsTitration.ActlabsSession.DataRowStep | backend/services/bulk_uploads/actlabs_titration_data.py:264-297 | one data row changes the tables and counts as the function says |
| ActlabsTitration.ActlabsSession.RowCells | backend/services/bulk_uploads/actlabs_titration_data.py:276-297 | the cell loop changes the tables and counts as the function says |
| ActlabsTitration.ActlabsSession.Prepare | backend/services/bulk_uploads/actlabs_titration_data.py:242-260 | preparing finds the layout and upserts the analytes as the function says, and changes nothing when it cannot |
| ActlabsTitration.ActlabsSession.ImportExcel | backend/services/bulk_uploads/actlabs_titration_data.py:226-299 | the import returns the outcome and leaves the tables the import function gives |
| ActlabsTitration.ActlabsSession.AnalyteRowStep | backend/services/bulk_uploads/actlabs_titration_data.py:34-49 | one analyte row changes the tables and counts as the function says |
| ActlabsTitration.ActlabsSession.BulkUpsertAnalytes | backend/services/bulk_uploads/actlabs_titration_data.py:15-51 | the analyte upload returns the counts and leaves the tables the upload function gives |
| ActlabsTitration.ActlabsSession.ImportRows | backend/services/bulk_uploads/actlabs_titration_data.py:263-297 | the loop over the data rows leaves the tables and the tally the row-by-row import function gives |
| ChemicalInventory.TextFields | backend/services/bulk_uploads/chemical_inventory.py:56-66 | a text column is supplied exactly when its cell is not empty, and then as the cell's text |
| ChemicalInventory.NumberFields | backend/services/bulk_uploads/chemical_inventory.py:43-47 | a numeric column is supplied exactly when its cell reads as a number, and then as that number |
| ChemicalInventory.Merged | backend/services/bulk_uploads/chemical_inventory.py:72-83 | an update keeps id and name, takes each non-empty supplied text and each supplied number, and keeps every other field as it was |
| ChemicalInventory.MergeNothing | backend/services/bulk_uploads/chemical_inventory.py:72-83 | an update that supplies nothing leaves the compound unchanged |
| ChemicalInventory.Visible | backend/services/bulk_uploads/chemical_inventory.py:68-70 | a query's SQL is matched against the database copies of the session's compounds, row for row by identity: under autoflush the current compounds, else their values as last flushed |
| ChemicalInventory.FindName | backend/services/bulk_uploads/chemical_inventory.py:68 | the lookup returns the first compound whose name equals the given one ignoring case, and none exactly when no name matches |
| ChemicalInventory.FindCas | backend/services/bulk_uploads/chemical_inventory.py:70 | the lookup returns the first compound with exactly that CAS number, and none exactly when there is none |
| ChemicalInventory.Match | backend/services/bulk_uploads/chemical_inventory.py:68-70 | a name match wins; only when no name matches is a non-empty CAS number looked up, and otherwise there is no match |
| ChemicalInventory.EffectOf | backend/services/bulk_uploads/chemical_inventory.py:51-101 | a row is skipped exactly when its name is blank; an update names a visible compound; a creation carries the row's name, which no visible compound has |
| ChemicalInventory.Row | backend/services/bulk_uploads/chemical_inventory.py:49-103 | each row is counted once as created, updated or skipped, adds no error, keeps every existing compound's name, and under autoflush flushes the session before its query |
| ChemicalInventory.BulkUpsert | backend/services/bulk_uploads/chemical_inventory.py:14-31 | without a name column the upload returns only the missing-column error and changes nothing |
| ChemicalInventory.RowsAccounted | backend/services/bulk_uploads/chemical_inventory.py:49-103 | every row is counted once as created, updated or skipped, and no error is added |
| ChemicalInventory.Rows | backend/services/bulk_uploads/chemical_inventory.py:49-103 | the row loop keeps the database's copies in step with the compounds, and with autoflush off it writes nothing to the database |
| ChemicalInventory.UploadAccountsForEveryRow | backend/services/bulk_uploads/chemical_inventory.py:14-105 | with a name column the counts add up to the number of rows and there are no errors |
| ChemicalInventory.RowKeepsNamesUnique | backend/services/bulk_uploads/chemical_inventory.py:68-101 | under autoflush a row keeps compound names unique ignoring case |
| ChemicalInventory.RowsKeepNamesUnique | backend/services/bulk_uploads/chemical_inventory.py:49-103 | under autoflush the row loop keeps compound names unique ignoring case |
| ChemicalInventory.UploadKeepsNamesUnique | backend/services/bulk_uploads/chemical_inventory.py:14-105 | under autoflush the upload keeps compound names unique ignoring case |
| ChemicalInventory.RepeatedNameAddedTwiceAsWritten | backend/services/bulk_uploads/chemical_inventory.py:68-101 | with autoflush off, two rows with the same new name both create a compound, so the name appears twice |
| ChemicalInventory.StoredCasMatchedAsWritten | backend/services/bulk_uploads/chemical_inventory.py:68-83 | with autoflush off, a row matched by CAS number updates the compound whose stored CAS number it is, even after an earlier row changed that number in the session |
| ChemicalInventory.InventorySession.constructor | backend/services/bulk_uploads/chemical_inventory.py:12 | the session starts on the given compounds, with the database holding the same values |
| ChemicalInventory.InventorySession.RowStep | backend/services/bulk_uploads/chemical_inventory.py:50-103 | one row changes the compounds and counts as the row function says |
| ChemicalInventory.InventorySession.BulkUpsertFromExcel | backend/services/bulk_uploads/chemical_inventory.py:14-105 | the upload returns the counts and leaves the compounds the upload function gives |
| Chemicals.Context.VolumeLiters | database/models/chemicals.py:108-109 | the solution volume in litres is known exactly when the water volume is positive, and then is that volume divided by 1000 |
| Chemicals.ContextAsWritten | database/models/chemicals.py:105-113 | reading the attributes the code names, which the conditions record does not have, leaves no volume and no rock mass whatever the record holds |
| Chemicals.ContextOf | database/models/chemicals.py:105-113 | reading the conditions record's water_volume_mL and rock_mass_g gives a volume exactly when the water volume is positive, and passes the rock mass through |
| Chemicals.ConvertToGrams | database/models/chemicals.py:257-283 | grams are known exactly for a non-zero amount in a mass or volume unit, a gram amount converts to itself, and a known result is never zero |
| Chemicals.ConvertToGramsConsistent | database/models/chemicals.py:262-276 | the conversion factors agree with each other: a kilogram is 1000 grams, a milligram a thousandth, a microgram a millionth, and millilitre, litre and microlitre weigh as gram, kilogram and milligram at density 1 |
| Chemicals.DeriveAsWritten | database/models/chemicals.py:117-127 | as written the derivation raises AttributeError for every unit, having reset all seven derived fields to None |
| Chemicals.ElementalFraction | database/models/chemicals.py:223-240 | a compound's own non-zero elemental fraction wins; otherwise a lower-cased name containing "nickel" or "ni" gets the nickel fraction, else one containing "copper" or "cu" the copper fraction, else there is none |
| Chemicals.RoundToTen | database/models/chemicals.py:255 | the rounded ppm is a multiple of ten within five of the exact value |
| Chemicals.CatalystOf | database/models/chemicals.py:220-255 | a metal mass exists exactly for a positive mass of a compound with a known fraction; a percentage exactly when there is also a positive rock mass; a ppm exactly when there is also a positive water volume, and it is a multiple of ten |
| Chemicals.Derive | database/models/chemicals.py:92-255 | a metal mass needs a positive mass and a compound, a ppm is a multiple of ten and needs a metal mass, a percentage needs a positive rock mass, and a concentration always comes with its units |
| Chemicals.ConcentrationEchoed | database/models/chemicals.py:142-182 | for ppm, mM and M input the final concentration is the entered amount, in that unit |
| Chemicals.MolesScaled | database/models/chemicals.py:184-195 | for mole-scale input the moles are the amount times the unit's scale, and a mass exists exactly when the molecular weight is known and non-zero, as moles times weight |
| Chemicals.NoVolumeNoConcentrationMass | database/models/chemicals.py:142-182 | without a water volume a concentration input yields neither mass nor moles |
| Chemicals.PpmGramsRoundTrip | database/models/chemicals.py:142-154 | the grams derived from a ppm amount, entered back as grams in the same water, give back that ppm |
| Chemicals.MolarMillimolarAgree | database/models/chemicals.py:156-182 | an amount in M yields the same moles as a thousand times that amount in mM |
| Chemicals.CatalystPpmRounded | database/models/chemicals.py:250-255 | a derived catalyst ppm is a multiple of ten within five of the metal mass over the water volume times a million |
| Chemicals.MetalMassOfFraction | database/models/chemicals.py:226-244 | with a compound fraction set, the metal mass is the grams times that fraction |
| Chemicals.AmmoniumTakenForNickel | database/models/chemicals.py:230-235 | the substring test takes ammonium chloride, which contains "ni", for a nickel salt |
| Chemicals.PercentOfRockRaises | database/models/chemicals.py:127 | a plain gram amount raises as written with no mass set, while the corrected derivation records the amount as its mass |
| Chemicals.WrongAttributesLoseVolume | database/models/chemicals.py:107-110 | with 500 mL of water a ppm amount gets no mass as written and amount times 0.5 over a million grams when the volume is read from the right column |
| Chemicals.ChemicalAdditive.CalculateDerivedValues | database/models/chemicals.py:92-255 | the seven derived fields become the corrected derivation of the amount, unit, compound and conditions context, and the inputs are unchanged |
| Chemicals.ChemicalAdditive.SetQuantities | database/models/chemicals.py:126-218 | the unit branch sets mass, moles, concentration and units to the quantities of the amount in that unit and leaves the catalyst fields alone |
| Chemicals.ChemicalAdditive.SetCatalyst | database/models/chemicals.py:220-255 | the catalyst block sets metal mass, percentage and ppm to the catalyst of the computed mass and leaves everything else alone |
| Chemicals.ChemicalAdditive.constructor | database/models/chemicals.py:50-81 | a new additive has its amount, unit, compound and conditions link and no derived value |
| Chemicals.UnitBranch | database/models/chemicals.py:126-218 | the unit branch, statement by statement, yields the quantities of the amount in its unit |
| Chemicals.QuantitiesOf | database/models/chemicals.py:126-218 | the unit branches as a function (no contract of its own): UnitBranch computes it statement by statement and the round-trip lemmas state its quantities |
| Conditions.WaterToRockRatio | database/models/conditions.py:90-94 | the ratio is known exactly when both quantities are present and the rock mass is positive, and then times the rock mass it gives the water volume |
| Conditions.WaterToRockRatioScales | database/models/conditions.py:90-94 | doubling the water doubles the ratio, and equal water and rock give a ratio of one |
| Conditions.FormattedAdditives | database/models/conditions.py:65-79 | no additives format as the empty string and a single additive as its own line |
| Conditions.FormattedAdditivesLines | database/models/conditions.py:78-79 | splitting the formatted text at newlines gives back the additive lines, when none of them holds a newline |
| Conditions.ExperimentalConditions.constructor | database/models/conditions.py:7-30 | a new conditions record holds the given id, rock mass, water volume, type and reactor, with no ratio yet |
| Conditions.ExperimentalConditions.CalculateDerivedConditions | database/models/conditions.py:81-94 | the stored ratio becomes the water-to-rock ratio of the record's own water volume and rock mass, and nothing else changes |
| Results.NetAmmonium | database/models/results.py:116-120 | the net concentration is never negative and never below gross minus background, where the background defaults to 0.3 mM; it is either zero or exactly that difference |
| Results.LiquidVolume | database/models/results.py:107-112 | a positive sampling volume is used; otherwise the conditions' water volume |
| Results.AmmoniaMass | database/models/results.py:114-127 | an ammonia mass exists exactly when the gross concentration is given and the liquid volume is positive, and it is never negative |
| Results.GramsPerTon | database/models/results.py:129-139 | the yield exists exactly when the mass is known and the rock mass is positive, and times the rock mass it is a million times the mass |
| Results.AmmoniumYieldSign | database/models/results.py:114-139 | with positive liquid volume and rock mass the ammonium yield is defined and non-negative, and zero whenever the gross concentration does not exceed the background |
| Results.HydrogenSpec | database/models/results.py:178-243 | hydrogen micromoles and mass are set together, exactly when a non-negative concentration, a unit of % or ppm (any case), a positive volume and a positive pressure are given; the mass is the micromoles times the molar mass of H2 and is never negative |
| Results.HydrogenUnits | database/models/results.py:221-225 | a concentration in % gives the same hydrogen as ten thousand times that concentration in ppm |
| Results.H2GramsPerTon | database/models/results.py:144-154 | the hydrogen yield exists exactly when the rock mass is positive and the hydrogen mass known, and times the rock mass it equals the mass in micrograms |
| Results.ValidateNonNegative | database/models/results.py:163-167 | a value is kept unchanged exactly when it is missing or non-negative, and is otherwise refused with a message naming the column |
| Results.ValidateH2Unit | database/models/results.py:169-176 | a unit is kept unchanged exactly when it is missing, "%" or "ppm" |
| Results.ValidatedUnitKnown | database/models/results.py:220-229 | every unit the validator accepts is one the hydrogen calculation can convert |
| Results.ScalarResults.constructor | database/models/results.py:53-93 | a new scalar result holds the given inputs and no derived value |
| Results.ScalarResults.CalculateHydrogen | database/models/results.py:178-243 | the hydrogen outputs become the hydrogen of the record's concentration, unit, volume and pressure, and nothing else changes |
| Results.ScalarResults.CalculateYields | database/models/results.py:95-154 | hydrogen is always computed; without conditions both yields are cleared, and with conditions the ammonium yield is the grams per ton of the ammonia mass in the chosen liquid volume and the hydrogen yield that of the hydrogen mass |
| Results.ValidateIcpJson | database/models/results.py:302-306 | an ICP JSON column value is kept unchanged exactly when it is null or an object, and is otherwise refused with the message naming the column |
| Results.GetElementConcentrationSpec | database/models/results.py:308-330 | a non-null fixed column for the lower-cased symbol wins; otherwise the all_elements entry under that key, and 0 when the document lacks the key; 0 without a non-empty element dictionary; the symbol's case never matters |
| Results.ScalarResults.AmmoniaYield | database/models/results.py:105-139 | the ammonium half of the yield calculation is the grams per ton of the ammonia mass in the chosen liquid volume |
| XrdAnalysis.ValidateJson | database/models/xrd.py:33-37 | a JSON column value is kept unchanged exactly when it is null, an object or a list, and is otherwise refused with the message naming the column |
| XrdAnalysis.GetMineralPercentageSpec | database/models/xrd.py:39-43 | with no non-empty phase dictionary the result is 0; otherwise it is the value stored under the lower-cased mineral name, or 0 when no key matches |
| XrdAnalysis.UpperCaseKeyUnreachable | database/models/xrd.py:39-43 | a phase stored under a key holding an upper-case letter is never found, whatever name is asked for |
| XrdAnalysis.ValidateMineralPercentages | database/models/xrd.py:45-51 | an empty or missing phase dictionary passes; otherwise the sum fails with a type error exactly when some value is not a number, and a numeric sum passes exactly when it lies within the tolerance of 100 |
| XrdAnalysis.ValidatePercentagesBounds | database/models/xrd.py:45-51 | phases summing to exactly 100 pass for any non-negative tolerance, and nothing passes under a negative tolerance |
| XrdAnalysis.ValidatePercentagesMonotone | database/models/xrd.py:45-51 | phases that pass under a tolerance pass under any wider one |
| XrdAnalysis.ValidatePercentagesExample | database/models/xrd.py:39-51 | quartz 45.2 and feldspar 23.8 fail the default tolerance of 5, and asking for "Quartz" finds 45.2 |

## Left out

- Reading Excel and CSV files with pandas, template generation, Streamlit pages, commits and rollbacks: every upload takes the already-parsed header and rows, and returns the new tables and counts.
- IEEE floating point: numbers are exact reals. Infinities, NaN as a float value and rounding error are not modelled. The 4-decimal rounding and the catalyst ppm rounding are exact half-even rounding on reals.
- The text of a float cell (`str(1.0)` and the like): passed in as a rendering function, because Python's shortest round-trip float printing is not modelled.
- Exceptions from the database driver, and the per-row `except Exception` handlers that catch them: no model operation fails unless the source raises for a reason stated in the modelled code. The one exception is the column validators of `ScalarResults`, which the scalar service does not pass through (see ScalarResultsService.Create below).
- `auto_create_treatment_experiment` (`backend/services/scalar_results_service.py:47-56`) is not part of this model: an unknown experiment is reported as not found.
- ScalarResultsService.Bulk: the upsert does not recompute the yields (`scalar_results_service.py:123`); `Results.ScalarResults.CalculateYields` models that computation on its own.
- `get_scalar_results_for_experiment`, `update_scalar_result` and `validate_required_fields` of the scalar service: not among the modelled operations.
- ActlabsTitration: the `ilike` lookups are modelled as case-insensitive equality, so `%` and `_` in a symbol are not wildcards.
- ActlabsTitration: the CSV fallback of the table reader and `ElementalCompositionService` (`actlabs_titration_data.py:54-128`) are not modelled.
- ChemicalInventory: an empty text cell read by pandas as NaN is treated as empty, not as the text "nan"; a NaN number cell is treated as absent rather than written. The unique constraint on `cas_number` is not checked.
- ChemicalInventory: two spreadsheet columns that normalise to the same name are not modelled (pandas would return both cells); the model reads the last.
- PxrfBackfill009: the `process()` driver that queries the tables is not modelled; `ensure_reading` and `process_analysis` are.
- PxrfNormalize008: the report printing of the migration is not modelled.
- MergeSamples007Db.SampleDb.MergeGroups: the source has one loop over the groups that applies each group unless it is a dry run; the model runs one loop per mode (`PlanLoop`, `GroupLoop`), which visit the groups in the same order and compute the same plan.
- LongFormat: template generation (`long_format.py:29-68`), the sheet choice (`long_format.py:119-131`) and the counts returned by the scalar service after the upload (`long_format.py:288-313`) are not modelled.
- QuickUpload: template generation (`quick_upload.py:72-108`) and the service results and counts after the upload (`quick_upload.py:324-361`) are not modelled.
- ExperimentStatusUpload: the exception path around the whole sweep is not modelled.
- AerisXrd: the unique constraint on (sample_id, mineral_name) of the phase table (`database/models/xrd.py:84`) is not modelled. The upload sets each phase's `sample_id` to its experiment's sample (`aeris_xrd.py:159`, `:201`, `:208`), so a second scan day of the same mineral for an experiment that has a sample breaks that constraint. The commit then raises IntegrityError and the whole upload is rolled back, where the model writes both phases. The key whose uniqueness the model proves is (experiment, day, mineral), the constraint at `database/models/xrd.py:85`.
- NewExperiments: the conditions sheet (`new_experiments.py:196-274`) is not modelled; the experiments, notes and additives sheets are.
- NewExperiments: in replace mode a compound repeated within one group is inserted twice, because the source always inserts in that mode; the unique constraint on (experiment, compound) (`database/models/chemicals.py:86`) then makes the flush raise IntegrityError and the upload is rolled back. The model adds both rows, does not model the constraint, and proves uniqueness for upsert mode only.
- NewExperiments: updates to an existing experiment row are not flushed before the additives sheet. This does not affect any lookup the sheet performs.
- ExperimentValidation: the abbreviation table names `ExperimentType.CF`, which `database/models/enums.py:11-17` does not define (the member is `CORE_FLOOD`). The model maps these abbreviations to the core-flood member, rather than modelling the error on import.
- Lineage, ExperimentValidation: Python `str` on non-string input is modelled as a missing value.
- Lineage.KeysAgree: text is ASCII-only in this model (`Lower` folds A to Z only, `Strip` trims space, tab, line feed, carriage return, vertical tab and form feed but not the separators \x1c to \x1f or non-ASCII spaces that Python's `str.strip()` also removes, a digit is 0 to 9). SQLite's `lower()` also folds ASCII only, but Python's `str.lower()` folds all of Unicode, so for an ID with a non-ASCII capital such as "É" the two normalisations of the source differ and the lookup misses. The lemma says nothing about such IDs.
- IcpService.NormAgree: ASCII-only, as for Lineage.KeysAgree; for a non-ASCII capital the query's `lower()` and Python's `str.lower()` disagree in the source.
- AerisXrd.FindExperimentSpelling: ASCII-only, as for Lineage.KeysAgree.
- IcpService.FindExperimentSpelling: ASCII-only, as for Lineage.KeysAgree.
- ChemicalInventory.FindName: the `ilike` name lookup is modelled as case-insensitive equality over ASCII letters, so `%` and `_` in a compound name are not wildcards.
- MergeSamples007Db.Replaces: a row's `updated_at` is modelled as an integer stamp that is always set. In the database it is NULL until the row is first updated (`onupdate` with no default, `database/models/analysis.py:103`, `database/models/xrd.py:81`), and the comparison `elem.updated_at > existing_elem.updated_at` (`merge_duplicate_samples_007.py:186`, `:205`) raises TypeError when a stamp is NULL, which aborts the migration. The model compares the stamps instead, so it describes only runs in which every compared pair of rows has been updated at least once.
- MergeSamples007Db.StepFate: assumes every compared row carries an `updated_at` stamp; see MergeSamples007Db.Replaces.
- MergeSamples007Db.RunFate: assumes every compared row carries an `updated_at` stamp; see MergeSamples007Db.Replaces.
- MergeSamples007Db.AmountOutcome: assumes every compared row carries an `updated_at` stamp; see MergeSamples007Db.Replaces.
- MergeSamples007Db.HandleRow: assumes every compared row carries an `updated_at` stamp; see MergeSamples007Db.Replaces.
- MergeSamples007Db.MigrateRows: assumes every compared row carries an `updated_at` stamp; see MergeSamples007Db.Replaces.
- MergeSamples007Db.MigrateAll: assumes every compared row carries an `updated_at` stamp; see MergeSamples007Db.Replaces.
- MergeSamples007Db.SampleDb.MigrateForeignKeys: assumes every compared row carries an `updated_at` stamp; see MergeSamples007Db.Replaces.
- MergeSamples007Db.SampleDb.ApplyGroup: assumes every compared row carries an `updated_at` stamp; see MergeSamples007Db.Replaces.
- MergeSamples007Db.SampleDb.MergeDuplicates: assumes every compared row carries an `updated_at` stamp; see MergeSamples007Db.Replaces.
- MergeSamples007Db.SampleDb.ApplyNext: assumes every compared row carries an `updated_at` stamp; see MergeSamples007Db.Replaces.
- MergeSamples007Db.SampleDb.VisitGroup: assumes every compared row carries an `updated_at` stamp; see MergeSamples007Db.Replaces.
- MergeSamples007Db.SampleDb.GroupLoop: assumes every compared row carries an `updated_at` stamp; see MergeSamples007Db.Replaces.
- MergeSamples007Db.SampleDb.MergeGroups: assumes every compared row carries an `updated_at` stamp; see MergeSamples007Db.Replaces.
- NewExperiments.NonBlank: an empty cell, which pandas reads as NaN, is modelled as a missing value. The source's `is not None` test passes for NaN and `str()` of it is "nan", so an empty initial_note cell adds the note "nan" (`new_experiments.py:144`); the model adds no note.
- NewExperiments.FieldsOf: an empty note cell gives no note (see NewExperiments.NonBlank), and a date the parser cannot read gives no date, while `pd.to_datetime(..., errors='coerce')` gives NaT, which is not None and is written (`new_experiments.py:141`, `:163`, `:178`).
- NewExperiments.ExperimentRow: reads its fields with NewExperiments.FieldsOf, so it adds no "nan" note and writes no NaT date.
- NewExperiments.UploadSession.ExperimentRowStep: as NewExperiments.ExperimentRow.
- NewExperiments.RequestOf: an empty compound or unit cell is modelled as blank; `str(NaN or '')` is "nan" (`new_experiments.py:335`, `:351`), so the source looks up or creates a compound named "nan", and an empty unit cell gives an error naming the unit 'nan'.
- NewExperiments.AdditiveRow: reads the row with NewExperiments.RequestOf (see there), and an empty method cell gives no method, where the source stores the method "nan" (`new_experiments.py:375`).
- ActlabsTitration.TextOr: `str(v or "")` of an empty cell (NaN) is "nan" in the source; the model gives "".
- ActlabsTitration.AnalyteRow: reads symbol and unit with ActlabsTitration.TextOr, so a row with an empty symbol or unit cell is counted as skipped, where the source creates or updates an analyte whose symbol or unit is "nan" (`actlabs_titration_data.py:35-36`).
- Values.FloatOfValue: number text is read as a plain decimal (an optional sign, digits, at most one point). Python's `float()` also reads exponent forms ("1.2E-03"), underscores between digits ("1_000"), "inf" and "nan"; such text is not a number in the model.
- ActlabsTitration.ParseFloat: the plain decimal reading of Values.FloatOfValue.
- ActlabsTitration.CoerceText: the plain decimal reading of Values.FloatOfValue, so "1.2E-03" is kept as text with no number, where the source stores 0.0012 (`actlabs_titration_data.py:214`).
- QuickUpload.Coerced: the plain decimal reading of Values.FloatOfValue.
- ChemicalInventory.NumberFields: the plain decimal reading of Values.FloatOfValue.
- ExperimentStatusUpload.IdText: a numeric experiment_id cell gives no ID and its row lists nothing, where the source lists `str(value)` (such as "123.0", `experiment_status.py:80`); the float rendering used by the other uploads is not threaded into this module.
- ExperimentStatusUpload.IdTextAsWritten: as ExperimentStatusUpload.IdText for a numeric cell.
- NewExperiments: the additives sheet derives its quantities with the corrected `Chemicals.Derive` (first row of Findings). As written, `calculate_derived_values` raises AttributeError for every additive (`new_experiments.py:388-411`), so no additive row that reaches it is written.
- MergeSamples007Db.SampleDb.ApplyGroup: the model deletes only the duplicate's sample row. In the source the session has autoflush off (`database/database.py:14`), and `db.delete(dup_sample)` (`merge_duplicate_samples_007.py:278`) cascades to the external analyses and photos the relationship loads for the duplicate (`database/models/samples.py:37-43`). Because the re-pointing is not yet flushed, those include the rows just moved to the primary, so they are deleted too. The delete also sets `sample_id` to NULL on the duplicate's loaded experiments (`samples.py:36`). The model does not capture this loss, and its lemmas describe the foreign-key moves only.
- MergeSamples007Db.SampleDb.MergeDuplicates: deletes only the sample rows of the duplicates; the ORM cascade of the source is not captured (see MergeSamples007Db.SampleDb.ApplyGroup).
- MergeSamples007Db.SampleDb.ApplyNext: deletes only the sample rows of the duplicates; the ORM cascade of the source is not captured (see MergeSamples007Db.SampleDb.ApplyGroup).
- MergeSamples007Db.SampleDb.VisitGroup: deletes only the sample rows of the duplicates; the ORM cascade of the source is not captured (see MergeSamples007Db.SampleDb.ApplyGroup).
- MergeSamples007Db.SampleDb.MergeGroups: deletes only the sample rows of the duplicates; the ORM cascade of the source is not captured (see MergeSamples007Db.SampleDb.ApplyGroup).
- MergeSamples007Db.SampleDb.GroupLoop: deletes only the sample rows of the duplicates; the ORM cascade of the source is not captured (see MergeSamples007Db.SampleDb.ApplyGroup).
- MergeSamples007Db.PlanIntegrity: proved of the tables with only the sample rows deleted; the ORM cascade of the source is not captured (see MergeSamples007Db.SampleDb.ApplyGroup).
- MergeSamples007Db.NoReferenceToMergedAway: proved of the tables with only the sample rows deleted; the ORM cascade of the source is not captured (see MergeSamples007Db.SampleDb.ApplyGroup).
- MergeSamples007Db.DeletesNonPrimaries: proved of the tables with only the sample rows deleted; the ORM cascade of the source is not captured (see MergeSamples007Db.SampleDb.ApplyGroup).
- ScalarResultsService.Create: the `@validates` hooks of `ScalarResults` (`database/models/results.py:163-176`) are not applied on the write. In the source, setting a negative `h2_concentration`, `gas_sampling_volume_ml` or `gas_sampling_pressure_MPa`, or an `h2_concentration_unit` other than '%' or 'ppm', raises ValueError. The result row that find-or-create added stays in the session, and the bulk path reports the row. The model writes the value. The validators themselves are modelled as Results.ValidateNonNegative and Results.ValidateH2Unit.
- ScalarResultsService.Upsert: the `ScalarResults` validators are not applied (see ScalarResultsService.Create).
- ScalarResultsService.WriteAt: the `ScalarResults` validators are not applied (see ScalarResultsService.Create).
- ScalarResultsService.BulkRow: the `ScalarResults` validators are not applied (see ScalarResultsService.Create).
- ScalarResultsService.ScalarSession.CreateScalarResult: the `ScalarResults` validators are not applied (see ScalarResultsService.Create).
- ScalarResultsService.ScalarSession.BulkRowStep: the `ScalarResults` validators are not applied (see ScalarResultsService.Create).
- ScalarResultsService.ScalarSession.BulkCreate: the `ScalarResults` validators are not applied (see ScalarResultsService.Create).
- IcpService.ExtractSampleInfo: the pattern's `\d` matches ASCII digits only and its case-insensitive `Day`/`Time` folds ASCII letters only. Python's `re` also matches Unicode digits and folds beyond ASCII, so such labels give none here.
- AerisXrd.ApplyMinerals: mineral amounts and Rwp are read with the plain decimal reading of `PyNum.FloatOf` (as Values.FloatOfValue), so exponent and underscore forms are not numbers here and their cells are skipped.
- AerisXrd.RwpOf: the plain decimal reading, as AerisXrd.ApplyMinerals.
- NewExperiments.OrderOf: text is read by `PyNum.ParseInt` (an optional sign and ASCII digits). Python's `int()` also accepts underscores between digits ("1_000") and non-ASCII digits; such text gives no order here.

## Findings

| source | as written | input that shows it | evidently intended | confidence | as-written member | corrected member |
|---|---|---|---|---|---|---|
| database/models/chemicals.py:127 | the first unit branch compares against `AmountUnit.PERCENT_OF_ROCK`, which the enum does not define, so `AttributeError` is raised for every unit after the reset; the additives sheet of NewExperiments (`new_experiments.py:388-411`) calls it for every additive and is modelled with the corrected derivation | any additive, e.g. 5 g of any compound | no percent-of-rock branch; 5 g gives a mass of 5 g | high, not executed | Chemicals.PercentOfRockRaises | Chemicals.Derive |
| database/models/chemicals.py:107-110 | the context reads `water_volume` and `rock_mass`, which the conditions record does not have, so volume and rock mass are always unknown | conditions with 500 mL of water and 100 g of rock, and an additive in ppm | the volume and rock mass are read from `water_volume_mL` and `rock_mass_g` | high, not executed | Chemicals.WrongAttributesLoseVolume | Chemicals.ContextOf |
| backend/services/bulk_uploads/aeris_xrd.py:129-132 | `str()` of an empty Sample ID cell (NaN) is "nan", which is not blank, so the row is reported as malformed | a row whose Sample ID cell is empty | the row is skipped as blank | medium, not executed | AerisXrd.BlankCellAsWritten | AerisXrd.SampleText |
| backend/services/bulk_uploads/experiment_status.py:80-81 | `str(NaN or "")` is "nan", so an empty ID cell lists the experiment ID "nan" | a row whose experiment_id cell is empty | blank rows list nothing | medium, not executed | ExperimentStatusUpload.BlankIdListedAsWritten | ExperimentStatusUpload.IdText |
| backend/services/bulk_uploads/new_experiments.py:96-99 | `str(NaN or '')` is "nan", so a row with an empty ID cell is not skipped | an experiments row whose experiment_id cell is empty | the row is counted as skipped | medium, not executed | NewExperiments.BlankIdNotSkippedAsWritten | NewExperiments.IdText |
| backend/services/icp_service.py:530-533 | `filter_by(time_post_reaction=...)` names a column the results table does not have (it has `time_post_reaction_days`), so the lookup raises | any ICP row | the first result at the experiment and time is reused, else one is created | high, not executed | IcpService.FindOrCreateAsWrittenRaises | IcpService.IcpStore.FindOrCreate |
| backend/services/bulk_uploads/actlabs_titration_data.py:250-260 | with autoflush off, analytes added in the loop are not seen by the query that preloads analyte ids, so their cells are dropped | an import into an empty analyte table | every analyte of the sheet gets an id and its cells are written | high, not executed | ActlabsTitration.NewAnalytesIgnoredAsWritten | ActlabsTitration.ImportKeepsPairsUnique |
| backend/services/bulk_uploads/chemical_inventory.py:68-70 | with autoflush off, a compound created by an earlier row is not found by a later row with the same name, so a second compound of that name is added; the unique constraint on `name` (`database/models/chemicals.py:13`) then makes the commit raise IntegrityError and the whole upload is rolled back | two rows naming the same new compound | the second row updates the compound the first created | high, not executed | ChemicalInventory.RepeatedNameAddedTwiceAsWritten | ChemicalInventory.UploadKeepsNamesUnique |
| backend/services/bulk_uploads/aeris_xrd.py:186-214 | with autoflush off, a phase added by an earlier row is not found by a later row with the same key, so a second phase is added; the unique constraint on that key (`database/models/xrd.py:85`) then makes the commit raise IntegrityError and the whole upload is rolled back | two rows giving the same sample and mineral, both new | the second row updates the phase the first added | high, not executed | AerisXrd.RepeatedKeyAddedTwiceAsWritten | AerisXrd.UpsertSpec |
| backend/services/bulk_uploads/new_experiments.py:392-412 | with autoflush off, an additive added by an earlier upsert row is not found by a later row for the same compound, so a second additive is added; the unique constraint on (experiment, compound) (`database/models/chemicals.py:86`) then makes the flush raise IntegrityError and the whole upload is rolled back | two upsert rows of one experiment naming the same known compound | the second row updates the additive the first added | high, not executed | NewExperiments.RepeatedCompoundAddedTwiceAsWritten | NewExperiments.UpsertRowsKeepPairsUnique |

Places where the code disagrees with its own documentation, proved about the code as written:

- ExperimentValidation.CombinedExampleDisagrees: "Serum_MH_101-2_Desorption" keeps "-2" in its base.
- PxrfNormalize008.TruncatesFraction: migration 008 truncates "12.5" to "12".
- MergeSamples007.TiesPickLaterName: ties pick the alphabetically last ID.
- ResultMerge.CumulatedSkipsBase: the base experiment's own results are never refreshed.
