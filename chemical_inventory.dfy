/**
 * The compound-inventory upload (`backend/services/bulk_uploads/chemical_inventory.py`): each row
 * of the template names a compound and may give its formula, CAS number, physical constants and
 * supplier data. A row whose compound is known (by name in any case, else by CAS number) fills in
 * the fields it supplies; any other row adds the compound.
 *
 * As in the ActLabs importer, the session is the compounds it holds plus how many of them the
 * database has; with autoflush off a query does not see compounds added earlier in the upload.
 */
module ChemicalInventory {
  import opened Wrappers
  import opened PyStr
  import opened Values

  /** Python's `str` of a float. */
  type FloatText = real -> string

  /** The template's optional text columns. */
  const TextColumns: set<string> :=
    {"formula", "cas_number", "solubility", "hazard_class", "supplier", "catalog_number", "notes"}

  /** The template's optional numeric columns. */
  const NumberColumns: set<string> := {"molecular_weight", "density", "melting_point", "boiling_point"}

  /**
   * A compound: its id, name, and the template fields it has a value for (a column missing from a
   * map is NULL). The compound's other columns are not touched by the upload.
   */
  datatype Compound = Compound(id: int, name: string, text: map<string, string>, number: map<string, real>)

  /** The fields one row supplies. */
  datatype Fields = Fields(text: map<string, string>, number: map<string, real>)

  /** `str(v) if pd.notna(v) else None` for each text column. */
  function TextFields(rec: Record, ft: FloatText): (r: map<string, string>)
    ensures forall k | k in TextColumns :: (k in r <==> !Get(rec, k).VNone?)
    ensures forall k | k in r :: k in TextColumns && r[k] == StrOf(Get(rec, k), ft)
  {
    map k | k in TextColumns && !Get(rec, k).VNone? :: StrOf(Get(rec, k), ft)
  }

  /** `num(v)`: `float(v)`, or nothing where it raises. */
  function NumberFields(rec: Record): (r: map<string, real>)
    ensures forall k | k in NumberColumns :: (k in r <==> FloatOfValue(Get(rec, k)).Some?)
    ensures forall k | k in r :: k in NumberColumns && Some(r[k]) == FloatOfValue(Get(rec, k))
  {
    map k | k in NumberColumns && FloatOfValue(Get(rec, k)).Some? :: FloatOfValue(Get(rec, k)).value
  }

  /** `str(v or "").strip()`. */
  function TextOr(v: Value, ft: FloatText): string {
    if Truthy(v) then Strip(StrOf(v, ft)) else ""
  }

  /**
   * The update of an existing compound: a text field takes the row's text when it is non-empty
   * (`new or old`), a numeric field takes the row's number when there is one.
   */
  function Merged(c: Compound, f: Fields): (r: Compound)
    ensures r.id == c.id && r.name == c.name
    ensures forall k | k in f.text && f.text[k] != [] :: k in r.text && r.text[k] == f.text[k]
    ensures forall k | !(k in f.text && f.text[k] != []) ::
      (k in r.text <==> k in c.text) && (k in c.text ==> r.text[k] == c.text[k])
    ensures forall k | k in f.number :: k in r.number && r.number[k] == f.number[k]
    ensures forall k | k !in f.number ::
      (k in r.number <==> k in c.number) && (k in c.number ==> r.number[k] == c.number[k])
  {
    var supplied := set k | k in f.text && f.text[k] != [];
    c.(text := map k | k in c.text.Keys + supplied :: if k in supplied then f.text[k] else c.text[k],
       number := c.number + f.number)
  }

  /** Merging a row that supplies nothing leaves the compound as it was. */
  lemma MergeNothing(c: Compound)
    ensures Merged(c, Fields(map[], map[])) == c
  {
  }

  // ---------------------------------------------------------------------------------------------
  // Finding the compound
  // ---------------------------------------------------------------------------------------------

  /**
   * The compounds the session holds, and the rows the database holds: `flushed[i]` is the
   * database's copy of the session's compound `i`, as of the last flush. Compounds added since
   * are not in the database at all.
   */
  datatype Tables = Tables(compounds: seq<Compound>, flushed: seq<Compound>) {
    predicate Valid() {
      |flushed| <= |compounds| && forall i | 0 <= i < |flushed| :: flushed[i].id == compounds[i].id
    }
  }

  /**
   * The rows a query's SQL is matched against: under autoflush the session is flushed first, so
   * the current compounds; else the database's copies, whose values may be older than the
   * session's. Either way row `i` stands for the session's compound `i` (the identity map).
   */
  function Visible(t: Tables, autoflush: bool): (r: seq<Compound>)
    requires t.Valid()
    ensures |r| <= |t.compounds| && forall i | 0 <= i < |r| :: r[i].id == t.compounds[i].id
    ensures autoflush ==> r == t.compounds
  {
    if autoflush then t.compounds else t.flushed
  }

  /** What a query's autoflush leaves in the database. */
  function BeforeQuery(t: Tables, autoflush: bool): (r: Tables)
    requires t.Valid()
    ensures r.Valid() && r.compounds == t.compounds
  {
    if autoflush then t.(flushed := t.compounds) else t
  }

  predicate NameMatches(c: Compound, name: string) {
    Lower(c.name) == Lower(name)
  }

  predicate CasMatches(c: Compound, cas: string) {
    "cas_number" in c.text && c.text["cas_number"] == cas
  }

  /** `filter(Compound.name.ilike(name)).first()`. */
  function FindName(cs: seq<Compound>, name: string): (r: Option<nat>)
    ensures r.Some? ==> (r.value < |cs| && NameMatches(cs[r.value], name)
      && forall j | 0 <= j < r.value :: !NameMatches(cs[j], name))
    ensures r.None? ==> forall j | 0 <= j < |cs| :: !NameMatches(cs[j], name)
    decreases |cs|
  {
    if cs == [] then None
    else if NameMatches(cs[0], name) then Some(0)
    else
      var r := FindName(cs[1..], name);
      if r.Some? then Some(r.value + 1) else None
  }

  /** `filter(Compound.cas_number == cas).first()`. */
  function FindCas(cs: seq<Compound>, cas: string): (r: Option<nat>)
    ensures r.Some? ==> (r.value < |cs| && CasMatches(cs[r.value], cas)
      && forall j | 0 <= j < r.value :: !CasMatches(cs[j], cas))
    ensures r.None? ==> forall j | 0 <= j < |cs| :: !CasMatches(cs[j], cas)
    decreases |cs|
  {
    if cs == [] then None
    else if CasMatches(cs[0], cas) then Some(0)
    else
      var r := FindCas(cs[1..], cas);
      if r.Some? then Some(r.value + 1) else None
  }

  /**
   * The existing compound of a row: the first with the name in any case; failing that, when the row
   * gives a non-empty CAS number, the first with exactly that CAS number.
   */
  function Match(cs: seq<Compound>, name: string, cas: Option<string>): (r: Option<nat>)
    ensures r.Some? ==> r.value < |cs|
    ensures (exists j | 0 <= j < |cs| :: NameMatches(cs[j], name)) ==> r == FindName(cs, name)
    ensures (forall j | 0 <= j < |cs| :: !NameMatches(cs[j], name)) ==>
      r == (if cas.Some? && cas.value != [] then FindCas(cs, cas.value) else None)
  {
    var byName := FindName(cs, name);
    if byName.Some? then byName
    else if cas.Some? && cas.value != [] then FindCas(cs, cas.value)
    else None
  }

  function CompoundIds(cs: seq<Compound>): (r: seq<int>)
    ensures |r| == |cs| && forall i | 0 <= i < |cs| :: r[i] == cs[i].id
  {
    seq(|cs|, i requires 0 <= i < |cs| => cs[i].id)
  }

  // ---------------------------------------------------------------------------------------------
  // The upload
  // ---------------------------------------------------------------------------------------------

  datatype Summary = Summary(created: nat, updated: nat, skipped: nat, errors: seq<string>)

  /** What a row with a name does. */
  datatype Effect = Skip | Update(index: nat, fields: Fields) | Create(name: string, fields: Fields)

  /** The effect of one row on the compounds a query sees. */
  function EffectOf(visible: seq<Compound>, rec: Record, ft: FloatText): (r: Effect)
    ensures r.Skip? <==> TextOr(Get(rec, "name"), ft) == []
    ensures r.Update? ==> r.index < |visible|
    ensures r.Create? ==> (r.name == TextOr(Get(rec, "name"), ft)
      && forall j | 0 <= j < |visible| :: !NameMatches(visible[j], r.name))
  {
    var name := TextOr(Get(rec, "name"), ft);
    if name == [] then Skip
    else
      var f := Fields(TextFields(rec, ft), NumberFields(rec));
      var cas := if "cas_number" in f.text then Some(f.text["cas_number"]) else None;
      match Match(visible, name, cas)
      case Some(i) => Update(i, f)
      case None => Create(name, f)
  }

  /** One row: skipped without a name, else the matched compound is updated or a compound added. */
  function Row(t: Tables, s: Summary, rec: Record, ft: FloatText, autoflush: bool): (r: (Tables, Summary))
    requires t.Valid()
    ensures r.0.Valid() && r.0.flushed == BeforeQuery(t, autoflush).flushed
    ensures r.1.errors == s.errors
    ensures r.1.created + r.1.updated + r.1.skipped == s.created + s.updated + s.skipped + 1
    ensures forall i | 0 <= i < |t.compounds| :: i < |r.0.compounds| && r.0.compounds[i].name == t.compounds[i].name
  {
    var q := BeforeQuery(t, autoflush);
    match EffectOf(Visible(q, autoflush), rec, ft)
    case Skip => (q, s.(skipped := s.skipped + 1))
    case Update(i, f) =>
      (q.(compounds := q.compounds[i := Merged(q.compounds[i], f)]), s.(updated := s.updated + 1))
    case Create(name, f) =>
      var c := Compound(Fresh(CompoundIds(q.compounds)), name, f.text, f.number);
      (q.(compounds := q.compounds + [c]), s.(created := s.created + 1))
  }

  function Rows(t: Tables, s: Summary, keys: seq<string>, rows: seq<seq<Value>>, ft: FloatText, autoflush: bool)
    : (r: (Tables, Summary))
    requires t.Valid()
    ensures r.0.Valid() && (!autoflush ==> r.0.flushed == t.flushed)
    decreases |rows|
  {
    if rows == [] then (t, s)
    else
      var n := |rows| - 1;
      var (t', s') := Rows(t, s, keys, rows[..n], ft, autoflush);
      Row(t', s', RecordOf(keys, rows[n]), ft, autoflush)
  }

  /** `str(c).lower().strip()` of each column name. */
  function ColumnKeys(columns: seq<string>): (r: seq<string>)
    ensures |r| == |columns| && forall i | 0 <= i < |columns| :: r[i] == Strip(Lower(columns[i]))
  {
    seq(|columns|, i requires 0 <= i < |columns| => Strip(Lower(columns[i])))
  }

  const MissingName := "Missing required column(s): name"

  /** `ChemicalInventoryService.bulk_upsert_from_excel` on the sheet it has read. */
  function BulkUpsert(t: Tables, columns: seq<string>, rows: seq<seq<Value>>, ft: FloatText, autoflush: bool)
    : (r: (Summary, Tables))
    requires t.Valid()
    ensures r.1.Valid()
    ensures "name" !in ColumnKeys(columns) ==> r == (Summary(0, 0, 0, [MissingName]), t)
  {
    var keys := ColumnKeys(columns);
    if "name" !in keys then (Summary(0, 0, 0, [MissingName]), t)
    else
      var (t', s) := Rows(t, Summary(0, 0, 0, []), keys, rows, ft, autoflush);
      (s, t')
  }

  // ---------------------------------------------------------------------------------------------
  // Properties
  // ---------------------------------------------------------------------------------------------

  /** Every row is counted exactly once, as created, updated or skipped, and none is an error. */
  lemma {:induction false} RowsAccounted(t: Tables, s: Summary, keys: seq<string>, rows: seq<seq<Value>>,
                                         ft: FloatText, autoflush: bool)
    requires t.Valid()
    ensures var r := Rows(t, s, keys, rows, ft, autoflush).1;
      r.created + r.updated + r.skipped == s.created + s.updated + s.skipped + |rows| && r.errors == s.errors
    decreases |rows|
  {
    if rows != [] {
      RowsAccounted(t, s, keys, rows[..|rows| - 1], ft, autoflush);
    }
  }

  /** With the name column present, every row of the sheet lands in exactly one count. */
  lemma UploadAccountsForEveryRow(t: Tables, columns: seq<string>, rows: seq<seq<Value>>, ft: FloatText,
                                  autoflush: bool)
    requires t.Valid() && "name" in ColumnKeys(columns)
    ensures var s := BulkUpsert(t, columns, rows, ft, autoflush).0;
      s.created + s.updated + s.skipped == |rows| && s.errors == []
  {
    RowsAccounted(t, Summary(0, 0, 0, []), ColumnKeys(columns), rows, ft, autoflush);
  }

  /** No two compounds share a name in any case: what the name's unique constraint needs. */
  predicate NamesUnique(cs: seq<Compound>) {
    forall i, j | 0 <= i < j < |cs| :: Lower(cs[i].name) != Lower(cs[j].name)
  }

  /** Under autoflush a row keeps compound names unique. */
  lemma RowKeepsNamesUnique(t: Tables, s: Summary, rec: Record, ft: FloatText)
    requires t.Valid() && NamesUnique(t.compounds)
    ensures NamesUnique(Row(t, s, rec, ft, true).0.compounds)
  {
    var r := Row(t, s, rec, ft, true).0;
    match EffectOf(t.compounds, rec, ft)
    case Skip =>
    case Update(i, f) =>
      assert forall j | 0 <= j < |r.compounds| :: r.compounds[j].name == t.compounds[j].name;
    case Create(name, f) =>
      assert forall j | 0 <= j < |t.compounds| :: r.compounds[j] == t.compounds[j];
  }

  lemma {:induction false} RowsKeepNamesUnique(t: Tables, s: Summary, keys: seq<string>, rows: seq<seq<Value>>,
                                               ft: FloatText)
    requires t.Valid() && NamesUnique(t.compounds)
    ensures NamesUnique(Rows(t, s, keys, rows, ft, true).0.compounds)
    decreases |rows|
  {
    if rows != [] {
      var n := |rows| - 1;
      RowsKeepNamesUnique(t, s, keys, rows[..n], ft);
      var (t', s') := Rows(t, s, keys, rows[..n], ft, true);
      RowKeepsNamesUnique(t', s', RecordOf(keys, rows[n]), ft);
    }
  }

  /** Under autoflush the upload keeps compound names unique. */
  lemma UploadKeepsNamesUnique(t: Tables, columns: seq<string>, rows: seq<seq<Value>>, ft: FloatText)
    requires t.Valid() && NamesUnique(t.compounds)
    ensures NamesUnique(BulkUpsert(t, columns, rows, ft, true).1.compounds)
  {
    if "name" in ColumnKeys(columns) {
      RowsKeepNamesUnique(t, Summary(0, 0, 0, []), ColumnKeys(columns), rows, ft);
    }
  }

  /**
   * As written (autoflush off), a name that is new to the database and appears on two rows is added
   * twice: the second row's query does not see the first row's compound.
   */
  lemma RepeatedNameAddedTwiceAsWritten(t: Tables, s: Summary, rec: Record, ft: FloatText)
    requires t.Valid() && t.flushed == t.compounds
    requires TextOr(Get(rec, "name"), ft) != []
    requires forall j | 0 <= j < |t.compounds| :: !NameMatches(t.compounds[j], TextOr(Get(rec, "name"), ft))
    requires forall j | 0 <= j < |t.compounds| :: !("cas_number" in t.compounds[j].text)
    ensures var (t1, s1) := Row(t, s, rec, ft, false);
      var (t2, s2) := Row(t1, s1, rec, ft, false);
      s2.created == s.created + 2 && |t2.compounds| == |t.compounds| + 2
      && !NamesUnique(t2.compounds)
  {
    var name := TextOr(Get(rec, "name"), ft);
    assert Visible(t, false) == t.compounds;
    var r1 := UnseenNameCreates(t, s, rec, ft);
    var r2 := UnseenNameCreates(r1.0, r1.1, rec, ft);
    var n := |t.compounds|;
    assert r2.0.compounds[n] == r1.0.compounds[n];
    assert Lower(r2.0.compounds[n].name) == Lower(r2.0.compounds[n + 1].name);
  }

  /**
   * Without autoflush, a named row that matches no visible compound by name, where no visible
   * compound has a CAS number, appends a compound of that name; what a query sees is unchanged.
   */
  lemma UnseenNameCreates(t: Tables, s: Summary, rec: Record, ft: FloatText) returns (r: (Tables, Summary))
    requires t.Valid() && TextOr(Get(rec, "name"), ft) != []
    requires forall j | 0 <= j < |Visible(t, false)| :: !NameMatches(Visible(t, false)[j], TextOr(Get(rec, "name"), ft))
    requires forall j | 0 <= j < |Visible(t, false)| :: !("cas_number" in Visible(t, false)[j].text)
    ensures r == Row(t, s, rec, ft, false)
    ensures r.1.created == s.created + 1 && |r.0.compounds| == |t.compounds| + 1
    ensures r.0.compounds[..|t.compounds|] == t.compounds
    ensures r.0.compounds[|t.compounds|].name == TextOr(Get(rec, "name"), ft)
    ensures Visible(r.0, false) == Visible(t, false)
  {
    var name := TextOr(Get(rec, "name"), ft);
    var visible := Visible(t, false);
    var f := Fields(TextFields(rec, ft), NumberFields(rec));
    var cas := if "cas_number" in f.text then Some(f.text["cas_number"]) else None;
    assert Match(visible, name, cas).None? by {
      if cas.Some? && cas.value != [] {
        assert forall j | 0 <= j < |visible| :: !CasMatches(visible[j], cas.value);
      }
    }
    r := Row(t, s, rec, ft, false);
  }

  /**
   * As written (autoflush off), the CAS query is matched against the database's copies: a row
   * whose name matches nothing updates the compound whose stored CAS number is the row's, even
   * when an earlier row of the upload changed that compound's CAS number in the session.
   */
  lemma StoredCasMatchedAsWritten(t: Tables, s: Summary, rec: Record, ft: FloatText, i: nat)
    requires t.Valid() && i < |t.flushed|
    requires forall j | 0 <= j < |t.flushed| :: !NameMatches(t.flushed[j], TextOr(Get(rec, "name"), ft))
    requires TextOr(Get(rec, "name"), ft) != []
    requires "cas_number" in TextFields(rec, ft) && TextFields(rec, ft)["cas_number"] != []
    requires FindCas(t.flushed, TextFields(rec, ft)["cas_number"]) == Some(i)
    ensures var r := Row(t, s, rec, ft, false);
      && r.0.compounds == t.compounds[i := Merged(t.compounds[i], Fields(TextFields(rec, ft), NumberFields(rec)))]
      && r.1 == s.(updated := s.updated + 1)
  {
    var name := TextOr(Get(rec, "name"), ft);
    var f := Fields(TextFields(rec, ft), NumberFields(rec));
    assert Match(t.flushed, name, Some(f.text["cas_number"])) == Some(i);
  }

  // ---------------------------------------------------------------------------------------------
  // The session
  // ---------------------------------------------------------------------------------------------

  /** A database session over the compound table. */
  class InventorySession {
    const autoflush: bool
    var compounds: seq<Compound>
    /** The database's copies of the first compounds, as of the last flush. */
    var flushed: seq<Compound>

    function State(): Tables
      reads this
    {
      Tables(compounds, flushed)
    }

    /** A fresh session over the database's compounds, nothing pending. */
    constructor (compounds: seq<Compound>, autoflush: bool)
      ensures State() == Tables(compounds, compounds) && this.autoflush == autoflush
    {
      this.autoflush := autoflush;
      this.compounds := compounds;
      flushed := compounds;
    }

    /** One row of the sheet. */
    method RowStep(s: Summary, rec: Record, ft: FloatText) returns (s': Summary)
      requires State().Valid()
      modifies this
      ensures (State(), s') == Row(old(State()), s, rec, ft, autoflush)
    {
      if autoflush {
        flushed := compounds;
      }
      var visible := if autoflush then compounds else flushed;
      var effect := EffectOf(visible, rec, ft);
      match effect
      case Skip =>
        s' := s.(skipped := s.skipped + 1);
      case Update(i, f) =>
        compounds := compounds[i := Merged(compounds[i], f)];
        s' := s.(updated := s.updated + 1);
      case Create(name, f) =>
        compounds := compounds + [Compound(Fresh(CompoundIds(compounds)), name, f.text, f.number)];
        s' := s.(created := s.created + 1);
    }

    /** `ChemicalInventoryService.bulk_upsert_from_excel` on the sheet it has read. */
    method BulkUpsertFromExcel(columns: seq<string>, rows: seq<seq<Value>>, ft: FloatText) returns (s: Summary)
      requires State().Valid()
      modifies this
      ensures (s, State()) == BulkUpsert(old(State()), columns, rows, ft, autoflush)
    {
      var keys := ColumnKeys(columns);
      if "name" !in keys {
        return Summary(0, 0, 0, [MissingName]);
      }
      s := Summary(0, 0, 0, []);
      var n := 0;
      while n < |rows|
        invariant n <= |rows| && State().Valid()
        invariant (State(), s) == Rows(old(State()), Summary(0, 0, 0, []), keys, rows[..n], ft, autoflush)
      {
        assert rows[..n + 1][..n] == rows[..n];
        s := RowStep(s, RecordOf(keys, rows[n]), ft);
        n := n + 1;
      }
      assert rows[..n] == rows;
    }
  }
}
