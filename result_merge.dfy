/**
 * Time-point result rows (`result_merge_utils.py`): bucketing a time, choosing the row a new
 * child result attaches to, keeping exactly one primary row per experiment and time point,
 * and the cumulative time of a result along its experiment's lineage chain.
 *
 * Times are exact reals; the rounding of `round(x, 4)` is round-half-to-even on the exact
 * value, not on the binary float Python rounds.
 */
module ResultMerge {
  import opened Wrappers
  import opened PyNum

  // ---------------------------------------------------------------- time points

  /** `round(x, 4)`. */
  function Round4(x: real): real {
    RoundHalfEven(x * 10000.0) as real / 10000.0
  }

  /** Bucket width and tolerance: `TIMEPOINT_TOLERANCE_DAYS`. */
  const Tolerance: real := 0.0001

  /** `normalize_timepoint`: no time stays none; a time is rounded to four decimals. */
  function NormalizeTimepoint(t: Option<real>): (r: Option<real>)
    ensures t.None? <==> r.None?
  {
    match t
    case None => None
    case Some(x) => Some(Round4(x))
  }

  /**
   * A normalised time lies within half a bucket of the time, and normalising it again keeps
   * it: the buckets are stable.
   */
  lemma NormalizeTimepointSpec(x: real)
    ensures var r := Round4(x); x - Tolerance / 2.0 <= r <= x + Tolerance / 2.0
    ensures Round4(Round4(x)) == Round4(x)
  {
    var n := RoundHalfEven(x * 10000.0);
    assert Round4(x) * 10000.0 == n as real;
    RoundIntegral(n);
  }

  // ---------------------------------------------------------------- result rows

  /**
   * An `ExperimentalResults` row: whether a scalar and an ICP child exist, the raw time, the
   * bucket, the primary flag and the cumulative time along the lineage chain.
   */
  datatype ResultRow = ResultRow(
    id: int, experimentFk: int, time: Option<real>, bucket: Option<real>,
    hasScalar: bool, hasIcp: bool, isPrimary: bool, cumulative: Option<real>, description: string)

  /** `BETWEEN lo AND hi` on a nullable column: a null never matches. */
  predicate Between(v: Option<real>, lo: real, hi: real) {
    v.Some? && lo <= v.value <= hi
  }

  /** The filter of `find_timepoint_candidates`. */
  predicate IsCandidate(r: ResultRow, experimentFk: int, time: Option<real>) {
    && r.experimentFk == experimentFk
    && match NormalizeTimepoint(time)
       case None => r.time.None? && r.bucket.None?
       case Some(n) => Between(r.bucket, n - Tolerance, n + Tolerance) || Between(r.time, n - Tolerance, n + Tolerance)
  }

  /** A row stored with exactly the requested time is always one of its candidates. */
  lemma ExactTimeIsCandidate(r: ResultRow, experimentFk: int, time: Option<real>)
    requires r.experimentFk == experimentFk && r.time == time && (time.None? ==> r.bucket.None?)
    ensures IsCandidate(r, experimentFk, time)
  {
    if time.Some? {
      NormalizeTimepointSpec(time.value);
    }
  }

  /**
   * `find_timepoint_candidates`: the indices of the candidate rows among the first `n` rows,
   * in table order, which is id order.
   */
  function Candidates(rows: seq<ResultRow>, experimentFk: int, time: Option<real>, n: nat): (r: seq<nat>)
    requires n <= |rows|
    ensures forall t | 0 <= t < |r| :: r[t] < n
    decreases n
  {
    if n == 0 then []
    else Candidates(rows, experimentFk, time, n - 1) + (if IsCandidate(rows[n - 1], experimentFk, time) then [n - 1] else [])
  }

  lemma {:induction false} CandidatesSpec(rows: seq<ResultRow>, experimentFk: int, time: Option<real>, n: nat)
    requires n <= |rows|
    ensures var r := Candidates(rows, experimentFk, time, n);
      && (forall i: nat :: i in r <==> i < n && IsCandidate(rows[i], experimentFk, time))
      && (forall a, b | 0 <= a < b < |r| :: r[a] < r[b])
    decreases n
  {
    if n > 0 {
      CandidatesSpec(rows, experimentFk, time, n - 1);
    }
  }

  // ---------------------------------------------------------------- ranking

  /** `_rank_primary_candidate`: 0 with both children, 1 with one, 2 with none; then `-id`. */
  function Tier(r: ResultRow): nat {
    if r.hasScalar && r.hasIcp then 0 else if r.hasScalar || r.hasIcp then 1 else 2
  }

  /** The tuple order on `(Tier, -id)`. */
  predicate RankLess(a: ResultRow, b: ResultRow) {
    Tier(a) < Tier(b) || (Tier(a) == Tier(b) && -a.id < -b.id)
  }

  /**
   * `min(candidates, key=_rank_primary_candidate)`: the first row of least rank, over the
   * rows at the listed indices.
   */
  function MinRank(rows: seq<ResultRow>, cs: seq<nat>): (p: nat)
    requires cs != [] && forall t | 0 <= t < |cs| :: cs[t] < |rows|
    ensures p in cs
    ensures forall c | c in cs :: Tier(rows[p]) < Tier(rows[c]) || (Tier(rows[p]) == Tier(rows[c]) && rows[c].id <= rows[p].id)
    decreases |cs|
  {
    if |cs| == 1 then cs[0]
    else
      var best := MinRank(rows, cs[1..]);
      assert forall c | c in cs :: c == cs[0] || c in cs[1..];
      if RankLess(rows[best], rows[cs[0]]) then best else cs[0]
  }

  /** With distinct ids the least-rank row is unique: any row no candidate beats is it. */
  lemma MinRankUnique(rows: seq<ResultRow>, cs: seq<nat>, q: nat)
    requires cs != [] && forall t | 0 <= t < |cs| :: cs[t] < |rows|
    requires forall a, b | 0 <= a < |rows| && 0 <= b < |rows| && a != b :: rows[a].id != rows[b].id
    requires q in cs && forall c | c in cs :: !RankLess(rows[c], rows[q])
    ensures q == MinRank(rows, cs)
  {
  }

  // ---------------------------------------------------------------- parent choice

  /** The data type the incoming child is not: ICP for a scalar child, scalar otherwise. */
  predicate HasOpposite(r: ResultRow, incoming: string) {
    if incoming == "scalar" then r.hasIcp && !r.hasScalar else r.hasScalar && !r.hasIcp
  }

  /** The preference class of `choose_parent_candidate`: lower is preferred. */
  function Class(r: ResultRow, incoming: string): nat {
    if r.hasScalar && r.hasIcp then 0
    else if HasOpposite(r, incoming) then 1
    else if r.hasScalar || r.hasIcp then 2
    else 3
  }

  /** `max(rows, key=id)`: the first row of greatest id. */
  function MaxById(rows: seq<ResultRow>): (r: ResultRow)
    requires rows != []
    ensures r in rows && forall c | c in rows :: c.id <= r.id
    decreases |rows|
  {
    if |rows| == 1 then rows[0]
    else
      var best := MaxById(rows[1..]);
      assert forall c | c in rows :: c == rows[0] || c in rows[1..];
      if rows[0].id < best.id then best else rows[0]
  }

  function Filter(rows: seq<ResultRow>, p: ResultRow -> bool): (r: seq<ResultRow>)
    ensures forall c :: c in r <==> c in rows && p(c)
    decreases |rows|
  {
    if rows == [] then []
    else
      assert forall c :: c in rows <==> c == rows[0] || c in rows[1..];
      (if p(rows[0]) then [rows[0]] else []) + Filter(rows[1..], p)
  }

  /** `choose_parent_candidate`: the four lists tried in turn, the highest id of the first non-empty one. */
  function ChooseParent(candidates: seq<ResultRow>, incoming: string): (r: Option<ResultRow>)
    ensures r.None? <==> candidates == []
    ensures r.Some? ==> r.value in candidates
  {
    if candidates == [] then None
    else
      var both := Filter(candidates, (c: ResultRow) => c.hasScalar && c.hasIcp);
      var opposite := Filter(candidates, (c: ResultRow) => HasOpposite(c, incoming));
      var anyData := Filter(candidates, (c: ResultRow) => c.hasScalar || c.hasIcp);
      if both != [] then Some(MaxById(both))
      else if opposite != [] then Some(MaxById(opposite))
      else if anyData != [] then Some(MaxById(anyData))
      else Some(MaxById(candidates))
  }

  /**
   * The chosen parent has the least preference class and, within it, the highest id: both
   * children first, then only the opposite type, then any data, then anything.
   */
  lemma ChooseParentPrefers(candidates: seq<ResultRow>, incoming: string)
    requires candidates != []
    ensures var p := ChooseParent(candidates, incoming).value;
      forall c | c in candidates ::
        Class(p, incoming) < Class(c, incoming) || (Class(p, incoming) == Class(c, incoming) && c.id <= p.id)
  {
  }

  /** With distinct ids, that preference picks one row: any row meeting it is the chosen one. */
  lemma ChooseParentUnique(candidates: seq<ResultRow>, incoming: string, q: ResultRow)
    requires candidates != [] && q in candidates
    requires forall a, b | a in candidates && b in candidates && a.id == b.id :: a == b
    requires forall c | c in candidates ::
      Class(q, incoming) < Class(c, incoming) || (Class(q, incoming) == Class(c, incoming) && c.id <= q.id)
    ensures ChooseParent(candidates, incoming) == Some(q)
  {
    ChooseParentPrefers(candidates, incoming);
    var p := ChooseParent(candidates, incoming).value;
    assert Class(p, incoming) == Class(q, incoming) && p.id == q.id;
  }

  // ---------------------------------------------------------------- lineage chain

  /** An experiment: its id, its experiment ID, and its lineage fields. */
  datatype Experiment = Experiment(id: int, experimentId: string, baseId: Option<string>, parentFk: Option<int>)

  function ExpIds(exps: seq<Experiment>): set<int> {
    set e | e in exps :: e.id
  }

  lemma ExpIdsTake(exps: seq<Experiment>, c: nat)
    requires c < |exps|
    ensures ExpIds(exps[..c + 1]) == ExpIds(exps[..c]) + {exps[c].id}
  {
    assert exps[..c + 1] == exps[..c] + [exps[c]];
    assert forall x :: x in exps[..c + 1] <==> x in exps[..c] || x == exps[c];
  }

  /** The `.first()` experiment with this id. */
  function FindExp(exps: seq<Experiment>, id: int): (r: Option<Experiment>)
    ensures r.Some? ==> r.value in exps && r.value.id == id
    ensures r.None? ==> id !in ExpIds(exps)
    decreases |exps|
  {
    if exps == [] then None
    else if exps[0].id == id then Some(exps[0])
    else
      assert ExpIds(exps) == {exps[0].id} + ExpIds(exps[1..]) by {
        assert forall e :: e in exps <==> e == exps[0] || e in exps[1..];
      }
      FindExp(exps[1..], id)
  }

  /** `max(time_post_reaction_days)` over one experiment's results; nulls are ignored. */
  function MaxTime(rows: seq<ResultRow>, experimentFk: int): (r: Option<real>)
    ensures r.Some? ==> exists i | 0 <= i < |rows| :: rows[i].experimentFk == experimentFk && rows[i].time == r
    ensures forall i | 0 <= i < |rows| && rows[i].experimentFk == experimentFk && rows[i].time.Some? ::
      r.Some? && rows[i].time.value <= r.value
    decreases |rows|
  {
    if rows == [] then None
    else
      var n := |rows| - 1;
      var pre := MaxTime(rows[..n], experimentFk);
      var last := rows[n];
      assert forall i | 0 <= i < n :: rows[..n][i] == rows[i];
      if last.experimentFk != experimentFk || last.time.None? then pre
      else if pre.Some? && last.time.value <= pre.value then pre
      else last.time
  }

  function MaxTimeOrZero(rows: seq<ResultRow>, experimentFk: int): real {
    match MaxTime(rows, experimentFk)
    case Some(m) => m
    case None => 0.0
  }

  lemma FreshIdShrinks(ids: set<int>, visited: set<int>, x: int)
    requires x in ids && x !in visited
    ensures |ids - (visited + {x})| < |ids - visited|
  {
    assert ids - (visited + {x}) == (ids - visited) - {x};
  }

  /**
   * What `get_ancestor_time_offset` adds up from `cur` on, with the ids `visited` already
   * passed: the greatest time of each parent in turn, until an experiment has no parent, its
   * parent does not exist, or an experiment comes round again.
   */
  function Offset(exps: seq<Experiment>, rows: seq<ResultRow>, cur: Experiment, visited: set<int>): real
    requires cur.id in ExpIds(exps)
    decreases |ExpIds(exps) - visited|
  {
    if cur.parentFk.None? || cur.id in visited then 0.0
    else
      match FindExp(exps, cur.parentFk.value)
      case None => 0.0
      case Some(p) =>
        FreshIdShrinks(ExpIds(exps), visited, cur.id);
        MaxTimeOrZero(rows, p.id) + Offset(exps, rows, p, visited + {cur.id})
  }

  /**
   * `get_ancestor_time_offset`: walk up the parent links, summing each parent's greatest
   * time; the set of visited ids stops the walk on a cycle.
   */
  method AncestorTimeOffset(exps: seq<Experiment>, rows: seq<ResultRow>, e: Experiment) returns (offset: real)
    requires e in exps
    ensures offset == Offset(exps, rows, e, {})
    ensures e.parentFk.None? ==> offset == 0.0
  {
    offset := 0.0;
    var current := e;
    var visited: set<int> := {};
    while current.parentFk.Some?
      invariant current.id in ExpIds(exps) && visited <= ExpIds(exps)
      invariant offset + Offset(exps, rows, current, visited) == Offset(exps, rows, e, {})
      decreases |ExpIds(exps) - visited|
    {
      if current.id in visited {
        break;
      }
      FreshIdShrinks(ExpIds(exps), visited, current.id);
      visited := visited + {current.id};
      var parent := FindExp(exps, current.parentFk.value);
      if parent.None? {
        break;
      }
      var maxTime := MaxTime(rows, parent.value.id);
      if maxTime.Some? {
        offset := offset + maxTime.value;
      }
      current := parent.value;
    }
  }

  /**
   * The documented chain: for `c` whose parent is `b` whose parent is the base `a`, the
   * offset of `c` is the greatest time of `a` plus that of `b`.
   */
  lemma OffsetOfChain(exps: seq<Experiment>, rows: seq<ResultRow>, a: Experiment, b: Experiment, c: Experiment)
    requires forall x, y | x in exps && y in exps && x.id == y.id :: x == y
    requires a in exps && b in exps && c in exps
    requires a.parentFk.None? && b.parentFk == Some(a.id) && c.parentFk == Some(b.id) && c.id != b.id
    ensures Offset(exps, rows, c, {}) == MaxTimeOrZero(rows, b.id) + MaxTimeOrZero(rows, a.id)
  {
    assert b.id in ExpIds(exps) && a.id in ExpIds(exps) && c.id in ExpIds(exps);
    assert FindExp(exps, b.id) == Some(b);
    assert FindExp(exps, a.id) == Some(a);
    assert Offset(exps, rows, a, {c.id, b.id}) == 0.0;
    assert Offset(exps, rows, b, {c.id}) == MaxTimeOrZero(rows, a.id) + Offset(exps, rows, a, {c.id} + {b.id});
    assert Offset(exps, rows, c, {}) == MaxTimeOrZero(rows, b.id) + Offset(exps, rows, b, {} + {c.id});
  }

  /** An experiment that is its own parent is counted once, then the cycle guard stops the walk. */
  lemma OffsetOfSelfLoop(exps: seq<Experiment>, rows: seq<ResultRow>, e: Experiment)
    requires forall x, y | x in exps && y in exps && x.id == y.id :: x == y
    requires e in exps && e.parentFk == Some(e.id)
    ensures Offset(exps, rows, e, {}) == MaxTimeOrZero(rows, e.id)
  {
    assert e.id in ExpIds(exps);
    assert FindExp(exps, e.id) == Some(e);
    assert Offset(exps, rows, e, {e.id}) == 0.0;
    assert Offset(exps, rows, e, {}) == MaxTimeOrZero(rows, e.id) + Offset(exps, rows, e, {} + {e.id});
  }

  // ---------------------------------------------------------------- one primary per bucket

  /** A candidate row as `ensure_primary_result_for_timepoint` leaves it. */
  function Restamp(r: ResultRow, primary: bool, normalized: Option<real>): ResultRow {
    r.(isPrimary := primary, bucket := if normalized.Some? then normalized else r.bucket)
  }

  /**
   * The table after `ensure_primary_result_for_timepoint`: every candidate demoted and put in
   * the normalised bucket, then the least-rank candidate promoted; nothing else changes.
   */
  function Promote(rows: seq<ResultRow>, experimentFk: int, time: Option<real>): (r: seq<ResultRow>)
    ensures |r| == |rows|
  {
    var cs := Candidates(rows, experimentFk, time, |rows|);
    if cs == [] then rows
    else
      var p := MinRank(rows, cs);
      seq(|rows|, i requires 0 <= i < |rows| =>
        if IsCandidate(rows[i], experimentFk, time) then Restamp(rows[i], i == p, NormalizeTimepoint(time)) else rows[i])
  }

  /** The rows once the first `t` candidates in `cs` are demoted. */
  function DemoteUpTo(rows: seq<ResultRow>, cs: seq<nat>, t: nat, normalized: Option<real>): (r: seq<ResultRow>)
    requires t <= |cs| && forall u | 0 <= u < |cs| :: cs[u] < |rows|
    ensures |r| == |rows|
  {
    if t == 0 then rows
    else
      var r := DemoteUpTo(rows, cs, t - 1, normalized);
      r[cs[t - 1] := Restamp(r[cs[t - 1]], false, normalized)]
  }

  lemma {:induction false} DemoteUpToSpec(rows: seq<ResultRow>, cs: seq<nat>, t: nat, normalized: Option<real>)
    requires t <= |cs| && forall u | 0 <= u < |cs| :: cs[u] < |rows|
    requires forall a, b | 0 <= a < b < |cs| :: cs[a] < cs[b]
    ensures forall i | 0 <= i < |rows| ::
      DemoteUpTo(rows, cs, t, normalized)[i] == if i in cs[..t] then Restamp(rows[i], false, normalized) else rows[i]
  {
    if t > 0 {
      DemoteUpToSpec(rows, cs, t - 1, normalized);
      assert forall i :: i in cs[..t] <==> i in cs[..t - 1] || i == cs[t - 1];
      assert cs[t - 1] !in cs[..t - 1];
    }
  }

  /** Demoting every candidate in table order, then promoting the least-rank one, is `Promote`. */
  lemma PromoteByDemoting(rows: seq<ResultRow>, experimentFk: int, time: Option<real>)
    requires Candidates(rows, experimentFk, time, |rows|) != []
    ensures var cs := Candidates(rows, experimentFk, time, |rows|);
      var p := MinRank(rows, cs);
      var n := NormalizeTimepoint(time);
      var d := DemoteUpTo(rows, cs, |cs|, n);
      d[p := Restamp(d[p], true, n)] == Promote(rows, experimentFk, time)
  {
    var cs := Candidates(rows, experimentFk, time, |rows|);
    var n := NormalizeTimepoint(time);
    CandidatesSpec(rows, experimentFk, time, |rows|);
    DemoteUpToSpec(rows, cs, |cs|, n);
    assert cs[..|cs|] == cs;
  }

  /** `Promote` changes no id and no row's children, so no rank. */
  lemma PromoteKeepsRanks(rows: seq<ResultRow>, experimentFk: int, time: Option<real>)
    ensures var r := Promote(rows, experimentFk, time);
      forall i | 0 <= i < |r| :: r[i].id == rows[i].id && Tier(r[i]) == Tier(rows[i])
  {
  }

  /** Restamping keeps a row a candidate of the same time point, and a non-candidate is untouched. */
  lemma RestampKeepsCandidate(r: ResultRow, experimentFk: int, time: Option<real>, primary: bool)
    requires IsCandidate(r, experimentFk, time)
    ensures IsCandidate(Restamp(r, primary, NormalizeTimepoint(time)), experimentFk, time)
  {
  }

  /** Rows that agree on everything the candidate filter and the ranking read give the same candidates. */
  lemma {:induction false} CandidatesAgree(a: seq<ResultRow>, b: seq<ResultRow>, experimentFk: int, time: Option<real>, n: nat)
    requires n <= |a| == |b|
    requires forall i | 0 <= i < n :: IsCandidate(a[i], experimentFk, time) == IsCandidate(b[i], experimentFk, time)
    ensures Candidates(a, experimentFk, time, n) == Candidates(b, experimentFk, time, n)
    decreases n
  {
    if n > 0 {
      CandidatesAgree(a, b, experimentFk, time, n - 1);
    }
  }

  lemma {:induction false} MinRankAgree(a: seq<ResultRow>, b: seq<ResultRow>, cs: seq<nat>)
    requires cs != [] && |a| == |b| && forall t | 0 <= t < |cs| :: cs[t] < |a|
    requires forall t | 0 <= t < |cs| :: Tier(a[cs[t]]) == Tier(b[cs[t]]) && a[cs[t]].id == b[cs[t]].id
    ensures MinRank(a, cs) == MinRank(b, cs)
    decreases |cs|
  {
    if |cs| > 1 {
      MinRankAgree(a, b, cs[1..]);
    }
  }

  /** `Promote` keeps the candidates of the time point: it moves rows only within their bucket. */
  lemma PromoteKeepsCandidates(rows: seq<ResultRow>, experimentFk: int, time: Option<real>)
    ensures var r := Promote(rows, experimentFk, time);
      forall i | 0 <= i < |rows| :: IsCandidate(r[i], experimentFk, time) == IsCandidate(rows[i], experimentFk, time)
    ensures var r := Promote(rows, experimentFk, time);
      Candidates(r, experimentFk, time, |r|) == Candidates(rows, experimentFk, time, |rows|)
  {
    var r := Promote(rows, experimentFk, time);
    var cs := Candidates(rows, experimentFk, time, |rows|);
    if cs != [] {
      forall i | 0 <= i < |rows|
        ensures IsCandidate(r[i], experimentFk, time) == IsCandidate(rows[i], experimentFk, time)
      {
        if IsCandidate(rows[i], experimentFk, time) {
          RestampKeepsCandidate(rows[i], experimentFk, time, i == MinRank(rows, cs));
        }
      }
    }
    CandidatesAgree(r, rows, experimentFk, time, |rows|);
  }

  /**
   * After `Promote` exactly one candidate is primary, the one of least rank, and every
   * candidate sits in the normalised bucket.
   */
  lemma PromoteSinglePrimary(rows: seq<ResultRow>, experimentFk: int, time: Option<real>)
    requires Candidates(rows, experimentFk, time, |rows|) != []
    ensures var r := Promote(rows, experimentFk, time);
      var p := MinRank(rows, Candidates(rows, experimentFk, time, |rows|));
      && IsCandidate(r[p], experimentFk, time) && r[p].isPrimary
      && (forall i | 0 <= i < |r| && IsCandidate(r[i], experimentFk, time) && i != p :: !r[i].isPrimary)
      && (forall i | 0 <= i < |r| && IsCandidate(r[i], experimentFk, time) && time.Some? :: r[i].bucket == NormalizeTimepoint(time))
  {
    CandidatesSpec(rows, experimentFk, time, |rows|);
    PromoteKeepsCandidates(rows, experimentFk, time);
  }

  /** Enforcing the single primary twice is the same as once. */
  lemma PromoteIdempotent(rows: seq<ResultRow>, experimentFk: int, time: Option<real>)
    ensures Promote(Promote(rows, experimentFk, time), experimentFk, time) == Promote(rows, experimentFk, time)
  {
    var r := Promote(rows, experimentFk, time);
    var r2 := Promote(r, experimentFk, time);
    forall i | 0 <= i < |r|
      ensures r2[i] == r[i]
    {
      PromoteTwiceAt(rows, experimentFk, time, i);
    }
  }

  /** `PromoteIdempotent` at one row. */
  lemma PromoteTwiceAt(rows: seq<ResultRow>, experimentFk: int, time: Option<real>, i: nat)
    requires i < |rows|
    ensures Promote(Promote(rows, experimentFk, time), experimentFk, time)[i] == Promote(rows, experimentFk, time)[i]
  {
    var cs := Candidates(rows, experimentFk, time, |rows|);
    var r := Promote(rows, experimentFk, time);
    PromoteKeepsCandidates(rows, experimentFk, time);
    if cs != [] {
      PromoteKeepsRanks(rows, experimentFk, time);
      MinRankAgree(r, rows, cs);
      var p := MinRank(rows, cs);
      var n := NormalizeTimepoint(time);
      if IsCandidate(rows[i], experimentFk, time) {
        assert r[i] == Restamp(rows[i], i == p, n);
      }
    }
  }

  // ---------------------------------------------------------------- cumulative times

  /** The experiment whose chain is refreshed: `base_experiment_id or experiment_id`. */
  function ChainBase(e: Experiment): (b: string)
    ensures e.baseId.Some? && e.baseId.value != [] ==> b == e.baseId.value
    ensures (e.baseId.None? || e.baseId == Some([])) ==> b == e.experimentId
  {
    if e.baseId.Some? && e.baseId.value != [] then e.baseId.value else e.experimentId
  }

  /** A result row with its cumulative time set from the chain offset; no time gives none. */
  function Stamp(r: ResultRow, offset: real): ResultRow {
    r.(cumulative := if r.time.Some? then Some(offset + r.time.value) else None)
  }

  predicate DistinctExpIds(exps: seq<Experiment>) {
    forall a, b | 0 <= a < b < |exps| :: exps[a].id != exps[b].id
  }

  /** The experiments of the chain: `base_experiment_id == base` (a null never equals). */
  function ChainOf(exps: seq<Experiment>, base: string): (r: seq<Experiment>)
    ensures forall e :: e in r <==> e in exps && e.baseId == Some(base)
    decreases |exps|
  {
    if exps == [] then []
    else
      assert forall e :: e in exps <==> e == exps[0] || e in exps[1..];
      (if exps[0].baseId == Some(base) then [exps[0]] else []) + ChainOf(exps[1..], base)
  }

  /** The rows after `update_cumulative_times_for_chain` for the chain of `base`. */
  function Cumulated(exps: seq<Experiment>, rows: seq<ResultRow>, base: string): (r: seq<ResultRow>)
    ensures |r| == |rows|
  {
    seq(|rows|, i requires 0 <= i < |rows| =>
      match FindExp(exps, rows[i].experimentFk)
      case Some(e) => if e.baseId == Some(base) then Stamp(rows[i], Offset(exps, rows, e, {})) else rows[i]
      case None => rows[i])
  }

  /** Rows that agree on owner and time. */
  predicate SameTimes(a: seq<ResultRow>, b: seq<ResultRow>) {
    |a| == |b| && forall i | 0 <= i < |a| :: a[i].experimentFk == b[i].experimentFk && a[i].time == b[i].time
  }

  lemma {:induction false} MaxTimeSameTimes(a: seq<ResultRow>, b: seq<ResultRow>, experimentFk: int)
    requires SameTimes(a, b)
    ensures MaxTime(a, experimentFk) == MaxTime(b, experimentFk)
    decreases |a|
  {
    if a != [] {
      var n := |a| - 1;
      assert SameTimes(a[..n], b[..n]);
      MaxTimeSameTimes(a[..n], b[..n], experimentFk);
    }
  }

  /** The offset reads only the owners and times of the results. */
  lemma {:induction false} OffsetSameTimes(exps: seq<Experiment>, a: seq<ResultRow>, b: seq<ResultRow>, cur: Experiment, visited: set<int>)
    requires SameTimes(a, b) && cur.id in ExpIds(exps)
    ensures Offset(exps, a, cur, visited) == Offset(exps, b, cur, visited)
    decreases |ExpIds(exps) - visited|
  {
    if cur.parentFk.Some? && cur.id !in visited {
      match FindExp(exps, cur.parentFk.value)
      case None =>
      case Some(p) =>
        FreshIdShrinks(ExpIds(exps), visited, cur.id);
        MaxTimeSameTimes(a, b, p.id);
        OffsetSameTimes(exps, a, b, p, visited + {cur.id});
    }
  }

  /**
   * Refreshing the chain twice is the same as once: the cumulative times depend only on the
   * raw times, which the refresh does not touch.
   */
  lemma CumulatedIdempotent(exps: seq<Experiment>, rows: seq<ResultRow>, base: string)
    ensures Cumulated(exps, Cumulated(exps, rows, base), base) == Cumulated(exps, rows, base)
  {
    var r := Cumulated(exps, rows, base);
    assert SameTimes(r, rows);
    forall i | 0 <= i < |rows|
      ensures Cumulated(exps, r, base)[i] == r[i]
    {
      match FindExp(exps, rows[i].experimentFk)
      case None =>
      case Some(e) =>
        assert e.id in ExpIds(exps);
        OffsetSameTimes(exps, r, rows, e, {});
    }
  }

  /**
   * The chain is found through `base_experiment_id` alone, so an experiment without one (a
   * base experiment) never has its own results refreshed, even when it is the one asked for.
   */
  lemma CumulatedSkipsBase(exps: seq<Experiment>, rows: seq<ResultRow>, base: string, i: nat)
    requires i < |rows|
    requires forall e | e in exps && e.id == rows[i].experimentFk :: e.baseId.None?
    ensures Cumulated(exps, rows, base)[i] == rows[i]
  {
  }

  /** A row of a chain experiment gets its own time plus the sum of its ancestors' greatest times. */
  lemma CumulatedChainRow(exps: seq<Experiment>, rows: seq<ResultRow>, base: string, i: nat, e: Experiment)
    requires DistinctExpIds(exps) && i < |rows|
    requires e in exps && e.id == rows[i].experimentFk && e.baseId == Some(base) && rows[i].time.Some?
    ensures Cumulated(exps, rows, base)[i].cumulative == Some(Offset(exps, rows, e, {}) + rows[i].time.value)
  {
    FindExpDistinct(exps, e);
  }

  lemma FindExpDistinct(exps: seq<Experiment>, e: Experiment)
    requires DistinctExpIds(exps) && e in exps
    ensures FindExp(exps, e.id) == Some(e)
  {
    assert e.id in ExpIds(exps);
    var f := FindExp(exps, e.id).value;
    var a :| 0 <= a < |exps| && exps[a] == e;
    var b :| 0 <= b < |exps| && exps[b] == f;
    assert a == b;
  }

  // ---------------------------------------------------------------- the session

  /** The experiments and result rows the helpers read and change through the session. */
  class ResultStore {
    var experiments: seq<Experiment>
    var results: seq<ResultRow>

    /** Experiment ids are a key; result ids ascend in table order. */
    predicate Valid()
      reads this
    {
      && DistinctExpIds(experiments)
      && forall a, b | 0 <= a < b < |results| :: results[a].id < results[b].id
    }

    constructor (experiments: seq<Experiment>, results: seq<ResultRow>)
      requires DistinctExpIds(experiments)
      requires forall a, b | 0 <= a < b < |results| :: results[a].id < results[b].id
      ensures Valid() && this.experiments == experiments && this.results == results
    {
      this.experiments := experiments;
      this.results := results;
    }

    /**
     * `ensure_primary_result_for_timepoint`: none when the time point has no rows; otherwise
     * every candidate is demoted (and bucketed), then the least-rank one promoted, and its
     * index returned.
     */
    method EnsurePrimary(experimentFk: int, time: Option<real>) returns (primary: Option<nat>)
      requires Valid()
      modifies this
      ensures Valid() && experiments == old(experiments)
      ensures results == Promote(old(results), experimentFk, time)
      ensures primary.None? <==> Candidates(old(results), experimentFk, time, |old(results)|) == []
      ensures primary.Some? ==> primary.value == MinRank(old(results), Candidates(old(results), experimentFk, time, |old(results)|))
    {
      var cs := Candidates(results, experimentFk, time, |results|);
      if cs == [] {
        return None;
      }
      ghost var rows0 := results;
      var p := MinRank(results, cs);
      var normalized := NormalizeTimepoint(time);
      DemoteAll(cs, normalized);
      results := results[p := Restamp(results[p], true, normalized)];
      PromoteByDemoting(rows0, experimentFk, time);
      PromoteKeepsRanks(rows0, experimentFk, time);
      primary := Some(p);
    }

    /** The demotion loop: each candidate in turn loses the primary flag and gets the bucket. */
    method DemoteAll(cs: seq<nat>, normalized: Option<real>)
      requires forall u | 0 <= u < |cs| :: cs[u] < |results|
      modifies this
      ensures experiments == old(experiments)
      ensures results == DemoteUpTo(old(results), cs, |cs|, normalized)
    {
      var t := 0;
      while t < |cs|
        invariant 0 <= t <= |cs| && experiments == old(experiments)
        invariant results == DemoteUpTo(old(results), cs, t, normalized)
      {
        results := results[cs[t] := Restamp(results[cs[t]], false, normalized)];
        t := t + 1;
      }
    }

    /**
     * `create_experimental_result_row`: a time is required (`ValueError` otherwise, modelled as
     * none); the new row is bucketed, primary and without children. The database's next id is
     * modelled as one above the last.
     */
    method CreateRow(experimentFk: int, time: Option<real>, description: string) returns (created: Option<nat>)
      requires Valid()
      modifies this
      ensures Valid() && experiments == old(experiments)
      ensures time.None? ==> created.None? && results == old(results)
      ensures time.Some? ==> created == Some(|old(results)|) && results == old(results) + [NewRow(old(results), experimentFk, time.value, description)]
    {
      if time.None? {
        return None;
      }
      var row := NewRow(results, experimentFk, time.value, description);
      results := results + [row];
      created := Some(|results| - 1);
    }

    /**
     * `update_cumulative_times_for_chain`: nothing when the experiment does not exist; otherwise
     * every result of every experiment in its chain gets its cumulative time.
     */
    method UpdateCumulativeTimes(experimentFk: int)
      requires Valid()
      modifies this
      ensures Valid() && experiments == old(experiments)
      ensures results == match FindExp(experiments, experimentFk)
        case None => old(results)
        case Some(e) => Cumulated(experiments, old(results), ChainBase(e))
    {
      var experiment := FindExp(experiments, experimentFk);
      if experiment.None? {
        return;
      }
      var base := ChainBase(experiment.value);
      var chain := ChainOf(experiments, base);
      ghost var rows0 := results;
      assert results == ChainState(experiments, rows0, ExpIds(chain[..0]));
      var c := 0;
      while c < |chain|
        invariant 0 <= c <= |chain| && Valid() && experiments == old(experiments)
        invariant results == ChainState(experiments, rows0, ExpIds(chain[..c]))
      {
        var exp := chain[c];
        FindExpDistinct(experiments, exp);
        ChainStateStep(experiments, rows0, ExpIds(chain[..c]), exp);
        var offset := AncestorTimeOffset(experiments, results, exp);
        OffsetSameTimes(experiments, results, rows0, exp, {});
        StampAll(exp.id, offset);
        ExpIdsTake(chain, c);
        c := c + 1;
      }
      assert chain[..c] == chain;
      CumulatedIsChainState(experiments, rows0, base);
    }

    /** The inner loop: every result of experiment `expId` gets its cumulative time from `offset`. */
    method StampAll(expId: int, offset: real)
      requires Valid()
      modifies this
      ensures Valid() && experiments == old(experiments)
      ensures results == StampWhere(old(results), expId, offset)
    {
      ghost var r1 := results;
      var i := 0;
      while i < |results|
        invariant 0 <= i <= |results| == |r1| && experiments == old(experiments)
        invariant forall j | 0 <= j < i :: results[j] == if r1[j].experimentFk == expId then Stamp(r1[j], offset) else r1[j]
        invariant forall j | i <= j < |results| :: results[j] == r1[j]
      {
        if results[i].experimentFk == expId {
          results := results[i := Stamp(results[i], offset)];
        }
        i := i + 1;
      }
      assert results == StampWhere(r1, expId, offset);
    }
  }

  /** Every result of experiment `expId` stamped with `offset`. */
  function StampWhere(rows: seq<ResultRow>, expId: int, offset: real): (r: seq<ResultRow>)
    ensures SameTimes(r, rows) && forall j | 0 <= j < |r| :: r[j].id == rows[j].id
  {
    seq(|rows|, j requires 0 <= j < |rows| => if rows[j].experimentFk == expId then Stamp(rows[j], offset) else rows[j])
  }

  /** The rows once the chain experiments with ids in `done` are refreshed. */
  function ChainState(exps: seq<Experiment>, rows0: seq<ResultRow>, done: set<int>): (r: seq<ResultRow>)
    ensures SameTimes(r, rows0) && forall j | 0 <= j < |r| :: r[j].id == rows0[j].id
  {
    seq(|rows0|, j requires 0 <= j < |rows0| =>
      if rows0[j].experimentFk in done then
        match FindExp(exps, rows0[j].experimentFk)
        case Some(e) => Stamp(rows0[j], Offset(exps, rows0, e, {}))
        case None => rows0[j]
      else rows0[j])
  }

  lemma ChainStateStep(exps: seq<Experiment>, rows0: seq<ResultRow>, done: set<int>, exp: Experiment)
    requires FindExp(exps, exp.id) == Some(exp)
    ensures ChainState(exps, rows0, done + {exp.id})
      == StampWhere(ChainState(exps, rows0, done), exp.id, Offset(exps, rows0, exp, {}))
  {
    var a := ChainState(exps, rows0, done + {exp.id});
    var b := StampWhere(ChainState(exps, rows0, done), exp.id, Offset(exps, rows0, exp, {}));
    forall j | 0 <= j < |rows0|
      ensures a[j] == b[j]
    {
    }
  }

  lemma CumulatedIsChainState(exps: seq<Experiment>, rows0: seq<ResultRow>, base: string)
    requires DistinctExpIds(exps)
    ensures Cumulated(exps, rows0, base) == ChainState(exps, rows0, ExpIds(ChainOf(exps, base)))
  {
    var a := Cumulated(exps, rows0, base);
    var b := ChainState(exps, rows0, ExpIds(ChainOf(exps, base)));
    forall j | 0 <= j < |rows0|
      ensures a[j] == b[j]
    {
      match FindExp(exps, rows0[j].experimentFk)
      case None =>
      case Some(e) =>
        if e.id in ExpIds(ChainOf(exps, base)) {
          var e' :| e' in ChainOf(exps, base) && e'.id == e.id;
          FindExpDistinct(exps, e');
        } else {
          assert e !in ChainOf(exps, base);
        }
    }
  }

  /** The row `create_experimental_result_row` adds. */
  function NewRow(rows: seq<ResultRow>, experimentFk: int, time: real, description: string): (r: ResultRow)
    ensures forall i | 0 <= i < |rows| :: rows[i].id < r.id || i < |rows| - 1
    ensures r.isPrimary && !r.hasScalar && !r.hasIcp && r.time == Some(time)
  {
    ResultRow(if rows == [] then 1 else rows[|rows| - 1].id + 1, experimentFk, Some(time),
      NormalizeTimepoint(Some(time)), false, false, true, None, description)
  }

  /**
   * A freshly created row is a candidate of its own time point, so a following
   * `EnsurePrimary` for that time always finds a primary.
   */
  lemma NewRowIsCandidate(rows: seq<ResultRow>, experimentFk: int, time: real, description: string)
    ensures var r := rows + [NewRow(rows, experimentFk, time, description)];
      Candidates(r, experimentFk, Some(time), |r|) != []
  {
    var r := rows + [NewRow(rows, experimentFk, time, description)];
    NormalizeTimepointSpec(time);
    CandidatesSpec(r, experimentFk, Some(time), |r|);
    assert IsCandidate(r[|rows|], experimentFk, Some(time));
  }
}
