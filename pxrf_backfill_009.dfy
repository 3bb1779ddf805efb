/**
 * Data migration 009: makes sure every reading number an external pXRF analysis refers to
 * exists in the reading table. Stored reading rows are indexed twice, by their exact
 * reading number and by its canonical form; a missing reading gets a placeholder row, and
 * each analysis gets its canonical comma-separated list written back.
 *
 * The bookkeeping of the two indexes does not depend on what the canonical form is, so it
 * is stated for any key function `canon`; the service fixes `canon` to `CanonKey`.
 */
module PxrfBackfill009 {
  import opened Wrappers
  import opened PyStr
  import Pxrf

  /**
   * `canonicalize_reading_number`: the same rule as utils/pxrf.py's `normalize_pxrf_token`;
   * "" for a missing or blank value, and a fixed point of the rule otherwise.
   */
  function Canonicalize(value: Option<string>): (r: string)
    ensures r == [] <==> value.None? || AllSpace(value.value)
    ensures Pxrf.NormalizeToken(Some(r)) == r
  {
    Pxrf.TokenIdempotent(value);
    Pxrf.NormalizeToken(value)
  }

  /** The canonical form of a stored reading number (the primary key is never null). */
  function CanonKey(k: string): string {
    Canonicalize(Some(k))
  }

  /** `split_reading_numbers`: the canonical non-empty tokens of the comma pieces, in order. */
  function SplitReadingNumbers(raw: string): seq<string> {
    if raw == [] then [] else Pxrf.NormalizedTokens(Split(raw, ','))
  }

  /** Every token `split_reading_numbers` yields is non-empty, comma-free and its own canonical form. */
  lemma SplitReadingNumbersCanonical(raw: string)
    ensures raw == [] ==> SplitReadingNumbers(raw) == []
    ensures forall i :: 0 <= i < |SplitReadingNumbers(raw)| ==>
      Pxrf.IsCanonicalToken(SplitReadingNumbers(raw)[i]) && CanonKey(SplitReadingNumbers(raw)[i]) == SplitReadingNumbers(raw)[i]
  {
    if raw != [] {
      SplitPiecesFree(raw, ',');
      Pxrf.NormalizedTokensCanonical(Split(raw, ','));
    }
  }

  // ---------------------------------------------------------------- the two indexes

  /** Both indexes name existing rows, and an exact key names a row with that reading number. */
  predicate IndexesSound(readings: seq<string>, byExact: map<string, nat>, byCanonical: map<string, nat>) {
    (forall k | k in byExact :: byExact[k] < |readings| && readings[byExact[k]] == k)
    && (forall c | c in byCanonical :: byCanonical[c] < |readings|)
  }

  /**
   * The invariant of the two indexes: they are sound, a canonical key names a row whose
   * reading number has that canonical form, and every exact key's canonical form is a
   * canonical key.
   */
  predicate IndexesValid(canon: string -> string, readings: seq<string>, byExact: map<string, nat>, byCanonical: map<string, nat>) {
    IndexesSound(readings, byExact, byCanonical)
    && (forall c | c in byCanonical :: canon(readings[byCanonical[c]]) == c)
    && (forall k | k in byExact :: canon(k) in byCanonical)
  }

  /** `readings_by_exact` after loading `rows`: each reading number to its (last) row. */
  function LoadedExact(rows: seq<string>): map<string, nat>
    decreases |rows|
  {
    if rows == [] then map[] else LoadedExact(rows[..|rows| - 1])[rows[|rows| - 1] := |rows| - 1]
  }

  /** `readings_by_canonical` after loading `rows`: `setdefault` keeps the first row per key. */
  function LoadedCanonical(canon: string -> string, rows: seq<string>): map<string, nat>
    decreases |rows|
  {
    if rows == [] then map[]
    else
      var m := LoadedCanonical(canon, rows[..|rows| - 1]);
      var c := canon(rows[|rows| - 1]);
      if c in m then m else m[c := |rows| - 1]
  }

  /** After loading, the exact index holds every reading number and nothing else. */
  lemma {:induction false} LoadedExactSpec(rows: seq<string>)
    ensures forall k :: k in LoadedExact(rows) <==> k in rows
    ensures forall k | k in LoadedExact(rows) :: LoadedExact(rows)[k] < |rows| && rows[LoadedExact(rows)[k]] == k
    decreases |rows|
  {
    if rows != [] {
      var init := rows[..|rows| - 1];
      LoadedExactSpec(init);
      assert rows == init + [rows[|rows| - 1]];
    }
  }

  /** After loading, every reading number's canonical form is a canonical key ... */
  lemma {:induction false} LoadedCanonicalCovers(canon: string -> string, rows: seq<string>)
    ensures forall j | 0 <= j < |rows| :: canon(rows[j]) in LoadedCanonical(canon, rows)
    decreases |rows|
  {
    if rows != [] {
      var init := rows[..|rows| - 1];
      LoadedCanonicalCovers(canon, init);
      assert forall j | 0 <= j < |init| :: rows[j] == init[j];
    }
  }

  /** ... and each canonical key names the FIRST row with that canonical form. */
  lemma {:induction false} LoadedCanonicalFirst(canon: string -> string, rows: seq<string>)
    ensures forall c | c in LoadedCanonical(canon, rows) ::
      LoadedCanonical(canon, rows)[c] < |rows| && canon(rows[LoadedCanonical(canon, rows)[c]]) == c
      && forall j | 0 <= j < LoadedCanonical(canon, rows)[c] :: canon(rows[j]) != c
    decreases |rows|
  {
    if rows != [] {
      var init := rows[..|rows| - 1];
      LoadedCanonicalFirst(canon, init);
      LoadedCanonicalCovers(canon, init);
      var m := LoadedCanonical(canon, init);
      forall c | c in LoadedCanonical(canon, rows)
        ensures LoadedCanonical(canon, rows)[c] < |rows| && canon(rows[LoadedCanonical(canon, rows)[c]]) == c
        ensures forall j | 0 <= j < LoadedCanonical(canon, rows)[c] :: canon(rows[j]) != c
      {
        if c in m {
          assert rows[m[c]] == init[m[c]];
          assert forall j | 0 <= j < m[c] :: rows[j] == init[j];
        } else {
          assert forall j | 0 <= j < |init| :: rows[j] == init[j];
        }
      }
    }
  }

  lemma LoadedValid(canon: string -> string, rows: seq<string>)
    ensures IndexesValid(canon, rows, LoadedExact(rows), LoadedCanonical(canon, rows))
  {
    LoadedExactSpec(rows);
    LoadedCanonicalCovers(canon, rows);
    LoadedCanonicalFirst(canon, rows);
  }

  /** Loading the first `i` rows, one more step. */
  lemma LoadStep(canon: string -> string, rows: seq<string>, i: nat)
    requires i < |rows|
    ensures LoadedExact(rows[..i + 1]) == LoadedExact(rows[..i])[rows[i] := i]
    ensures var m, c := LoadedCanonical(canon, rows[..i]), canon(rows[i]);
      LoadedCanonical(canon, rows[..i + 1]) == if c in m then m else m[c := i]
  {
    assert rows[..i + 1][..i] == rows[..i];
  }

  /**
   * While the indexes are valid, a token that is its own canonical form but not a canonical
   * key is no exact key's canonical form either: the variant search of `ensure_reading`
   * finds nothing, so its rename branch never runs.
   */
  lemma NoVariant(canon: string -> string, readings: seq<string>, byExact: map<string, nat>, byCanonical: map<string, nat>, token: string)
    requires IndexesValid(canon, readings, byExact, byCanonical)
    requires token !in byCanonical
    ensures forall e | e in byExact :: canon(e) != token
  {
  }

  /** A placeholder row for a token that is its own canonical form keeps the indexes valid. */
  lemma CreateKeepsValid(canon: string -> string, readings: seq<string>, byExact: map<string, nat>, byCanonical: map<string, nat>, token: string)
    requires IndexesValid(canon, readings, byExact, byCanonical)
    requires canon(token) == token
    ensures var j := |readings|;
      IndexesValid(canon, readings + [token], byExact[token := j], byCanonical[token := j])
  {
    var rs := readings + [token];
    assert forall k | k in byExact :: rs[byExact[k]] == readings[byExact[k]];
    assert forall c | c in byCanonical :: rs[byCanonical[c]] == readings[byCanonical[c]];
  }

  /** A placeholder row keeps both indexes pointing at rows, whatever the token. */
  lemma CreateKeepsSound(readings: seq<string>, byExact: map<string, nat>, byCanonical: map<string, nat>, token: string)
    requires IndexesSound(readings, byExact, byCanonical)
    ensures var j := |readings|;
      IndexesSound(readings + [token], byExact[token := j], byCanonical[token := j])
  {
    var rs := readings + [token];
    assert forall k | k in byExact :: rs[byExact[k]] == readings[byExact[k]];
  }

  /** Renaming the row of exact key `e` to `token` keeps both indexes pointing at rows. */
  lemma RenameKeepsSound(readings: seq<string>, byExact: map<string, nat>, byCanonical: map<string, nat>, e: string, token: string)
    requires IndexesSound(readings, byExact, byCanonical) && e in byExact
    ensures var row := byExact[e];
      IndexesSound(readings[row := token], (byExact - {e})[token := row], byCanonical[token := row])
  {
  }

  // ---------------------------------------------------------------- the service

  /** An external analysis row; only its reading reference matters here. */
  class Analysis {
    var pxrfReadingNo: Option<string>

    constructor (pxrfReadingNo0: Option<string>)
      ensures pxrfReadingNo == pxrfReadingNo0
    {
      pxrfReadingNo := pxrfReadingNo0;
    }
  }

  /**
   * `PXRFBackfillService` with its `MigrationStats` counters. `readings` is the reading
   * table (row number to reading number); `deleted` the analyses removed from the session;
   * `canon` the canonical form the service indexes by.
   */
  class BackfillService {
    const canon: string -> string
    var readings: seq<string>
    var byExact: map<string, nat>
    var byCanonical: map<string, nat>
    var deleted: seq<Analysis>
    var readingsAlreadyPresent: nat
    var readingsRenamed: nat
    var readingsCreated: nat
    var analysesUpdated: nat
    var legacyRowsDeleted: nat
    var missingAfterAttempt: nat

    /** What every method keeps: the indexes name existing rows. */
    predicate Sound()
      reads this
    {
      IndexesSound(readings, byExact, byCanonical)
    }

    /** The full invariant, kept as long as only tokens in canonical form are ensured. */
    predicate Valid()
      reads this
    {
      IndexesValid(canon, readings, byExact, byCanonical)
    }

    /** `__init__` with `_load_existing_readings`: both indexes built in one pass over the rows. */
    constructor (rows: seq<string>)
      ensures canon == CanonKey && readings == rows && deleted == []
      ensures byExact == LoadedExact(rows) && byCanonical == LoadedCanonical(CanonKey, rows)
      ensures readingsAlreadyPresent == readingsRenamed == readingsCreated == 0
      ensures analysesUpdated == legacyRowsDeleted == missingAfterAttempt == 0
      ensures Valid() && Sound()
    {
      canon := CanonKey;
      readings := rows;
      deleted := [];
      readingsAlreadyPresent, readingsRenamed, readingsCreated := 0, 0, 0;
      analysesUpdated, legacyRowsDeleted, missingAfterAttempt := 0, 0, 0;
      var exact: map<string, nat> := map[];
      var canonical: map<string, nat> := map[];
      var i := 0;
      while i < |rows|
        invariant 0 <= i <= |rows|
        invariant exact == LoadedExact(rows[..i]) && canonical == LoadedCanonical(CanonKey, rows[..i])
      {
        var c := CanonKey(rows[i]);
        LoadStep(CanonKey, rows, i);
        exact := exact[rows[i] := i];
        if c !in canonical {
          canonical := canonical[c := i];
        }
        i := i + 1;
      }
      assert rows[..|rows|] == rows;
      byExact := exact;
      byCanonical := canonical;
      LoadedValid(CanonKey, rows);
    }

    /**
     * `ensure_reading`: the exact hit, else the canonical hit, else the rename of a variant,
     * else a new placeholder row. Returns the row number.
     */
    method EnsureReading(token: string) returns (row: nat)
      requires Sound()
      modifies this
      ensures Sound()
      ensures deleted == old(deleted) && analysesUpdated == old(analysesUpdated)
      ensures legacyRowsDeleted == old(legacyRowsDeleted) && missingAfterAttempt == old(missingAfterAttempt)
      ensures row < |readings| && byCanonical.Keys >= old(byCanonical.Keys)
      // an exact or canonical hit: one more "already present", nothing else changes
      ensures old(token in byExact) ==> row == old(byExact[token])
      ensures !old(token in byExact) && old(token in byCanonical) ==> row == old(byCanonical[token])
      ensures old(token in byExact || token in byCanonical) ==>
        readings == old(readings) && byExact == old(byExact) && byCanonical == old(byCanonical)
        && readingsAlreadyPresent == old(readingsAlreadyPresent) + 1
        && readingsRenamed == old(readingsRenamed) && readingsCreated == old(readingsCreated)
      // no variant either: a placeholder row named `token`, registered under both keys
      ensures old(token !in byExact && token !in byCanonical)
              && (forall e | e in old(byExact) :: canon(e) != token) ==>
        readings == old(readings) + [token] && row == old(|readings|)
        && byExact == old(byExact)[token := row] && byCanonical == old(byCanonical)[token := row]
        && readingsCreated == old(readingsCreated) + 1
        && readingsAlreadyPresent == old(readingsAlreadyPresent) && readingsRenamed == old(readingsRenamed)
      // with valid indexes and a token in canonical form the rename never happens
      ensures old(Valid()) && canon(token) == token ==>
        (Valid() && readingsRenamed == old(readingsRenamed) && token in byCanonical
         && (token in byExact ==> readings[row] == token))
    {
      if token in byExact {
        readingsAlreadyPresent := readingsAlreadyPresent + 1;
        return byExact[token];
      }
      if token in byCanonical {
        readingsAlreadyPresent := readingsAlreadyPresent + 1;
        return byCanonical[token];
      }
      if Valid() && canon(token) == token {
        NoVariant(canon, readings, byExact, byCanonical, token);
      }
      if exists e :: e in byExact && canon(e) == token {
        // The source re-checks `token in readings_by_exact` here, which the first step
        // has already excluded.
        var e :| e in byExact && canon(e) == token;
        row := RenameVariant(e, token);
      } else {
        row := CreatePlaceholder(token);
      }
    }

    /** Step 3 of `ensure_reading`: the row of variant `e` renamed to `token`. */
    method RenameVariant(e: string, token: string) returns (row: nat)
      requires Sound() && e in byExact
      modifies this
      ensures Sound() && row == old(byExact[e])
      ensures readings == old(readings)[row := token]
      ensures byExact == (old(byExact) - {e})[token := row] && byCanonical == old(byCanonical)[token := row]
      ensures readingsRenamed == old(readingsRenamed) + 1
      ensures readingsCreated == old(readingsCreated) && readingsAlreadyPresent == old(readingsAlreadyPresent)
      ensures deleted == old(deleted) && analysesUpdated == old(analysesUpdated)
      ensures legacyRowsDeleted == old(legacyRowsDeleted) && missingAfterAttempt == old(missingAfterAttempt)
    {
      row := byExact[e];
      RenameKeepsSound(readings, byExact, byCanonical, e, token);
      readings := readings[row := token];
      byExact := (byExact - {e})[token := row];
      byCanonical := byCanonical[token := row];
      readingsRenamed := readingsRenamed + 1;
    }

    /** Step 4 of `ensure_reading`: a placeholder row named `token`, under both keys. */
    method CreatePlaceholder(token: string) returns (row: nat)
      requires Sound()
      modifies this
      ensures Sound() && row == old(|readings|)
      ensures readings == old(readings) + [token]
      ensures byExact == old(byExact)[token := row] && byCanonical == old(byCanonical)[token := row]
      ensures readingsCreated == old(readingsCreated) + 1
      ensures readingsRenamed == old(readingsRenamed) && readingsAlreadyPresent == old(readingsAlreadyPresent)
      ensures deleted == old(deleted) && analysesUpdated == old(analysesUpdated)
      ensures legacyRowsDeleted == old(legacyRowsDeleted) && missingAfterAttempt == old(missingAfterAttempt)
      ensures old(Valid()) && canon(token) == token ==> Valid()
    {
      row := |readings|;
      if Valid() && canon(token) == token {
        CreateKeepsValid(canon, readings, byExact, byCanonical, token);
      }
      CreateKeepsSound(readings, byExact, byCanonical, token);
      readings := readings + [token];
      byExact := byExact[token := row];
      byCanonical := byCanonical[token := row];
      readingsCreated := readingsCreated + 1;
    }

    /**
     * `process_analysis`: an analysis without tokens is deleted; otherwise every token is
     * ensured and the comma-join of the tokens is written back when it differs.
     */
    method ProcessAnalysis(analysis: Analysis)
      requires Sound() && canon == CanonKey
      modifies this, analysis
      ensures Sound() && missingAfterAttempt == old(missingAfterAttempt)
      ensures var raw := old(analysis.pxrfReadingNo).UnwrapOr("");
        var tokens := SplitReadingNumbers(raw);
        if tokens == [] then
          deleted == old(deleted) + [analysis] && legacyRowsDeleted == old(legacyRowsDeleted) + 1
          && analysis.pxrfReadingNo == old(analysis.pxrfReadingNo) && analysesUpdated == old(analysesUpdated)
          && readings == old(readings) && byExact == old(byExact) && byCanonical == old(byCanonical)
        else
          var joined := Join(tokens, ',');
          deleted == old(deleted) && legacyRowsDeleted == old(legacyRowsDeleted)
          && analysis.pxrfReadingNo == (if joined != raw then Some(joined) else old(analysis.pxrfReadingNo))
          && analysesUpdated == old(analysesUpdated) + (if joined != raw then 1 else 0)
      ensures old(Valid()) ==>
        (Valid() && readingsRenamed == old(readingsRenamed)
         && forall t | t in SplitReadingNumbers(old(analysis.pxrfReadingNo).UnwrapOr("")) :: t in byCanonical)
    {
      var raw := analysis.pxrfReadingNo.UnwrapOr("");
      var tokens := SplitReadingNumbers(raw);
      if tokens == [] {
        deleted := deleted + [analysis];
        legacyRowsDeleted := legacyRowsDeleted + 1;
      } else {
        RewriteAnalysis(analysis, raw, tokens);
      }
    }

    /** The branch of `process_analysis` for an analysis with tokens: ensure them, then write the join back. */
    method RewriteAnalysis(analysis: Analysis, raw: string, tokens: seq<string>)
      requires Sound() && canon == CanonKey
      requires analysis.pxrfReadingNo.UnwrapOr("") == raw && tokens == SplitReadingNumbers(raw) && tokens != []
      modifies this, analysis
      ensures Sound() && missingAfterAttempt == old(missingAfterAttempt)
      ensures deleted == old(deleted) && legacyRowsDeleted == old(legacyRowsDeleted)
      ensures var joined := Join(tokens, ',');
        && analysis.pxrfReadingNo == (if joined != raw then Some(joined) else old(analysis.pxrfReadingNo))
        && analysesUpdated == old(analysesUpdated) + (if joined != raw then 1 else 0)
      ensures old(Valid()) ==> (Valid() && readingsRenamed == old(readingsRenamed) && forall t | t in tokens :: t in byCanonical)
    {
      SplitReadingNumbersCanonical(raw);
      var canonicalTokens := EnsureTokens(tokens);
      var normalized := Join(canonicalTokens, ',');
      if normalized != raw {
        analysis.pxrfReadingNo := Some(normalized);
        analysesUpdated := analysesUpdated + 1;
      }
    }

    /** One token of the loop below: `EnsureReading` seen through what the loop keeps. */
    method EnsureCanonical(token: string)
      requires Sound() && canon(token) == token
      modifies this
      ensures Sound()
      ensures deleted == old(deleted) && analysesUpdated == old(analysesUpdated)
      ensures legacyRowsDeleted == old(legacyRowsDeleted) && missingAfterAttempt == old(missingAfterAttempt)
      ensures byCanonical.Keys >= old(byCanonical.Keys)
      ensures old(Valid()) ==> Valid() && readingsRenamed == old(readingsRenamed) && token in byCanonical
    {
      var _ := EnsureReading(token);
    }

    /** The token loop of `process_analysis`: each token ensured, the kept tokens returned. */
    method EnsureTokens(tokens: seq<string>) returns (canonicalTokens: seq<string>)
      requires Sound()
      requires forall i | 0 <= i < |tokens| :: tokens[i] != [] && canon(tokens[i]) == tokens[i]
      modifies this
      ensures Sound() && canonicalTokens == tokens
      ensures deleted == old(deleted) && analysesUpdated == old(analysesUpdated)
      ensures legacyRowsDeleted == old(legacyRowsDeleted) && missingAfterAttempt == old(missingAfterAttempt)
      ensures old(Valid()) ==>
        (Valid() && readingsRenamed == old(readingsRenamed) && forall t | t in tokens :: t in byCanonical)
    {
      ghost var valid0 := Valid();
      // Every row object is truthy, so no token ever lands in `unresolved_tokens` and
      // `missing_after_attempt` is never increased.
      canonicalTokens := [];
      var i := 0;
      while i < |tokens|
        invariant 0 <= i <= |tokens| && Sound()
        invariant canonicalTokens == tokens[..i]
        invariant valid0 ==>
          (Valid() && readingsRenamed == old(readingsRenamed) && forall j | 0 <= j < i :: tokens[j] in byCanonical)
        invariant deleted == old(deleted) && analysesUpdated == old(analysesUpdated)
        invariant legacyRowsDeleted == old(legacyRowsDeleted) && missingAfterAttempt == old(missingAfterAttempt)
      {
        var token := tokens[i];
        if token != [] {
          EnsureCanonical(token);
          canonicalTokens := canonicalTokens + [token];
        }
        i := i + 1;
      }
      assert tokens[..|tokens|] == tokens;
    }
  }
}
