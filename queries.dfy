/**
 * The read queries of the storage layer, as compositions over the two
 * tables: a left join of results to ideas on `appIdeaId`, an optional
 * verdict filter, newest-first ordering on the result's `createdAt`, a row
 * limit, and finally the dropping of rows whose idea is missing.  The limit
 * is applied to the joined rows before that last filter, as in the source.
 */
module Queries {
  import opened Wrappers
  import opened Schema

  /** A row of `results LEFT JOIN ideas`: the idea side is null when no idea matches. */
  datatype Joined = Joined(result: ValidationResult, idea: Option<AppIdea>)

  /** The idea with the given id, if any (ids are primary keys, so the first match is the match). */
  function FindIdea(ideas: seq<AppIdea>, id: Id): (r: Option<AppIdea>)
    ensures r.Some? ==> r.value in ideas && r.value.id == id
    ensures r.None? <==> forall a :: a in ideas ==> a.id != id
  {
    if ideas == [] then None
    else if ideas[0].id == id then Some(ideas[0])
    else FindIdea(ideas[1..], id)
  }

  /** The result with the given id, if any. */
  function FindResult(results: seq<ValidationResult>, id: Id): (r: Option<ValidationResult>)
    ensures r.Some? ==> r.value in results && r.value.id == id
    ensures r.None? <==> forall v :: v in results ==> v.id != id
  {
    if results == [] then None
    else if results[0].id == id then Some(results[0])
    else FindResult(results[1..], id)
  }

  function LeftJoin(results: seq<ValidationResult>, ideas: seq<AppIdea>): (rows: seq<Joined>)
    ensures |rows| == |results|
    ensures forall i :: 0 <= i < |rows| ==> rows[i] == Joined(results[i], FindIdea(ideas, results[i].appIdeaId))
  {
    if results == [] then []
    else [Joined(results[0], FindIdea(ideas, results[0].appIdeaId))] + LeftJoin(results[1..], ideas)
  }

  /** `WHERE verdict = v`. */
  function OfVerdict(results: seq<ValidationResult>, verdict: string): (r: seq<ValidationResult>)
    ensures forall k :: 0 <= k < |r| ==> r[k] in results && r[k].verdict == verdict
    ensures forall v :: v in results && v.verdict == verdict ==> v in r
    ensures multiset(r) <= multiset(results) && |r| <= |results|
  {
    if results == [] then []
    else
      assert results == [results[0]] + results[1..];
      if results[0].verdict == verdict then [results[0]] + OfVerdict(results[1..], verdict)
      else OfVerdict(results[1..], verdict)
  }

  /** `ORDER BY created_at DESC`. */
  predicate NewestFirst(rows: seq<Joined>)
  {
    forall i, j :: 0 <= i < j < |rows| ==> rows[i].result.createdAt >= rows[j].result.createdAt
  }

  function InsertByDate(x: Joined, rows: seq<Joined>): (r: seq<Joined>)
    requires NewestFirst(rows)
    ensures |r| == |rows| + 1
    ensures NewestFirst(r)
    ensures multiset(r) == multiset(rows) + multiset{x}
    ensures r[0] == x || (|rows| > 0 && r[0] == rows[0])
  {
    if rows == [] then [x]
    else if x.result.createdAt >= rows[0].result.createdAt then
      ConsKeepsOrder(x, rows);
      [x] + rows
    else
      var rest := InsertByDate(x, rows[1..]);
      ConsKeepsOrder(rows[0], rest);
      assert rows == [rows[0]] + rows[1..];
      assert multiset([rows[0]] + rest) == multiset{rows[0]} + multiset(rest);
      [rows[0]] + rest
  }

  /** A row no older than the first of a newest-first sequence can lead it. */
  lemma ConsKeepsOrder(h: Joined, t: seq<Joined>)
    requires NewestFirst(t)
    requires |t| > 0 ==> t[0].result.createdAt <= h.result.createdAt
    ensures NewestFirst([h] + t)
  {
    var s := [h] + t;
    forall i, j | 0 <= i < j < |s| ensures s[i].result.createdAt >= s[j].result.createdAt {
      if i == 0 && j > 1 {
        assert s[j] == t[j - 1];
      }
    }
  }

  /** A newest-first permutation of the rows (rows with equal timestamps in some order). */
  function SortNewestFirst(rows: seq<Joined>): (r: seq<Joined>)
    ensures |r| == |rows|
    ensures NewestFirst(r)
    ensures multiset(r) == multiset(rows)
  {
    if rows == [] then []
    else
      assert rows == [rows[0]] + rows[1..];
      InsertByDate(rows[0], SortNewestFirst(rows[1..]))
  }

  /** `LIMIT n`. */
  function Take<T>(rows: seq<T>, n: nat): (r: seq<T>)
    ensures |r| == if |rows| <= n then |rows| else n
    ensures |rows| <= n ==> r == rows
    ensures forall k :: 0 <= k < |r| ==> r[k] == rows[k]
  {
    if |rows| <= n then rows else rows[..n]
  }

  predicate NewestFirstWithIdea(rows: seq<ResultWithIdea>)
  {
    forall i, j :: 0 <= i < j < |rows| ==> rows[i].result.createdAt >= rows[j].result.createdAt
  }

  /** Drop the joined rows whose idea is null and pair each remaining result with its idea. */
  function WithIdeas(rows: seq<Joined>): (r: seq<ResultWithIdea>)
    ensures |r| <= |rows|
    ensures forall k :: 0 <= k < |r| ==> Joined(r[k].result, Some(r[k].appIdea)) in rows
  {
    if rows == [] then []
    else
      var rest := WithIdeas(rows[1..]);
      assert forall k :: 0 <= k < |rest| ==> Joined(rest[k].result, Some(rest[k].appIdea)) in rows[1..];
      match rows[0].idea
      case None => rest
      case Some(a) => [ResultWithIdea(rows[0].result, a)] + rest
  }

  /** The filter works row by row: on a concatenation it is the concatenation of its parts... */
  lemma {:induction false} WithIdeasAppend(xs: seq<Joined>, ys: seq<Joined>)
    ensures WithIdeas(xs + ys) == WithIdeas(xs) + WithIdeas(ys)
  {
    if xs == [] {
      assert xs + ys == ys;
    } else {
      assert (xs + ys)[1..] == xs[1..] + ys;
      WithIdeasAppend(xs[1..], ys);
      var rest := WithIdeas(xs[1..]);
      if xs[0].idea.Some? {
        var h := [ResultWithIdea(xs[0].result, xs[0].idea.value)];
        assert h + (rest + WithIdeas(ys)) == (h + rest) + WithIdeas(ys);
      }
    }
  }

  /** ...and a single row is kept, paired with its idea, exactly when the idea is present. */
  lemma WithIdeasSingle(row: Joined)
    ensures WithIdeas([row]) == if row.idea.Some? then [ResultWithIdea(row.result, row.idea.value)] else []
  {
  }

  /** Every row whose idea is present is kept. */
  lemma {:induction false} WithIdeasKeepsPresent(rows: seq<Joined>, i: nat)
    requires i < |rows| && rows[i].idea.Some?
    ensures ResultWithIdea(rows[i].result, rows[i].idea.value) in WithIdeas(rows)
  {
    if i > 0 {
      WithIdeasKeepsPresent(rows[1..], i - 1);
    }
  }

  /** When every row has its idea, nothing is dropped. */
  lemma {:induction false} WithIdeasKeepsAll(rows: seq<Joined>)
    requires forall i :: 0 <= i < |rows| ==> rows[i].idea.Some?
    ensures |WithIdeas(rows)| == |rows|
    ensures forall k :: 0 <= k < |rows| ==> WithIdeas(rows)[k] == ResultWithIdea(rows[k].result, rows[k].idea.value)
  {
    if rows != [] {
      WithIdeasKeepsAll(rows[1..]);
    }
  }

  /** Dropping the rows without an idea keeps the newest-first order. */
  lemma {:induction false} WithIdeasKeepsOrder(rows: seq<Joined>)
    requires NewestFirst(rows)
    ensures NewestFirstWithIdea(WithIdeas(rows))
  {
    if rows != [] {
      var tail := rows[1..];
      WithIdeasKeepsOrder(tail);
      var rest := WithIdeas(tail);
      forall k | 0 <= k < |rest| ensures rest[k].result.createdAt <= rows[0].result.createdAt {
        var row := Joined(rest[k].result, Some(rest[k].appIdea));
        assert row in tail;
        var i :| 0 <= i < |tail| && tail[i] == row;
        assert rows[i + 1] == row;
      }
    }
  }

  /** Referential integrity: every result's `appIdeaId` names an idea. */
  predicate ForeignKeysHold(results: seq<ValidationResult>, ideas: seq<AppIdea>)
  {
    forall v :: v in results ==> exists a :: a in ideas && a.id == v.appIdeaId
  }

  const AllResultsLimit := 100
  const DefaultBailLimit := 50

  /** Join, sort newest first, keep the first `n` rows, drop those without an idea. */
  function Listing(results: seq<ValidationResult>, ideas: seq<AppIdea>, n: nat): (r: seq<ResultWithIdea>)
    ensures |r| <= n
    ensures forall k :: 0 <= k < |r| ==>
      r[k].result in results && r[k].appIdea in ideas && r[k].appIdea.id == r[k].result.appIdeaId
    ensures NewestFirstWithIdea(r)
  {
    var rows := Take(SortNewestFirst(LeftJoin(results, ideas)), n);
    var out := WithIdeas(rows);
    ListedRowsAreGenuine(results, ideas, n, out);
    WithIdeasKeepsOrder(rows);
    out
  }

  /** `getAllValidationResults`. */
  function AllValidationResults(results: seq<ValidationResult>, ideas: seq<AppIdea>): (r: seq<ResultWithIdea>)
    ensures |r| <= AllResultsLimit
    ensures forall k :: 0 <= k < |r| ==>
      r[k].result in results && r[k].appIdea in ideas && r[k].appIdea.id == r[k].result.appIdeaId
    ensures NewestFirstWithIdea(r)
  {
    Listing(results, ideas, AllResultsLimit)
  }

  /** `getBailVerdicts(limit)`. */
  function BailVerdicts(results: seq<ValidationResult>, ideas: seq<AppIdea>, limit: nat := DefaultBailLimit): (r: seq<ResultWithIdea>)
    ensures |r| <= limit
    ensures forall k :: 0 <= k < |r| ==>
      r[k].result in results && r[k].result.verdict == "BAIL"
      && r[k].appIdea in ideas && r[k].appIdea.id == r[k].result.appIdeaId
    ensures NewestFirstWithIdea(r)
  {
    Listing(OfVerdict(results, "BAIL"), ideas, limit)
  }

  /** `getValidationResultWithIdea(id)`: nothing when the result or its idea is missing. */
  function ResultWithIdeaById(results: seq<ValidationResult>, ideas: seq<AppIdea>, id: Id): (r: Option<ResultWithIdea>)
    ensures r.None? <==> FindResult(results, id).None? || FindIdea(ideas, FindResult(results, id).value.appIdeaId).None?
    ensures r.Some? ==> r.value.result == FindResult(results, id).value
    ensures r.Some? ==> r.value.result.id == id && r.value.result in results
    ensures r.Some? ==> r.value.appIdea in ideas && r.value.appIdea.id == r.value.result.appIdeaId
  {
    match FindResult(results, id)
    case None => None
    case Some(v) =>
      match FindIdea(ideas, v.appIdeaId)
      case None => None
      case Some(a) => Some(ResultWithIdea(v, a))
  }

  /** Every listed row pairs a stored result with the stored idea its `appIdeaId` names. */
  lemma ListedRowsAreGenuine(results: seq<ValidationResult>, ideas: seq<AppIdea>, n: nat, out: seq<ResultWithIdea>)
    requires out == WithIdeas(Take(SortNewestFirst(LeftJoin(results, ideas)), n))
    ensures forall k :: 0 <= k < |out| ==>
      out[k].result in results && out[k].appIdea in ideas && out[k].appIdea.id == out[k].result.appIdeaId
  {
    var joined := LeftJoin(results, ideas);
    var sorted := SortNewestFirst(joined);
    var rows := Take(sorted, n);
    forall k | 0 <= k < |out|
      ensures out[k].result in results && out[k].appIdea in ideas && out[k].appIdea.id == out[k].result.appIdeaId
    {
      var row := Joined(out[k].result, Some(out[k].appIdea));
      assert row in rows;
      assert row in multiset(sorted);
      assert row in multiset(joined);
      var i :| 0 <= i < |joined| && joined[i] == row;
    }
  }

  /** With every foreign key intact, each sorted joined row has its idea. */
  lemma SortedRowsHaveIdeas(results: seq<ValidationResult>, ideas: seq<AppIdea>, sorted: seq<Joined>)
    requires ForeignKeysHold(results, ideas)
    requires sorted == SortNewestFirst(LeftJoin(results, ideas))
    ensures forall i :: 0 <= i < |sorted| ==> sorted[i].idea.Some?
  {
    var joined := LeftJoin(results, ideas);
    forall i | 0 <= i < |joined| ensures joined[i].idea.Some? {
      var a :| a in ideas && a.id == results[i].appIdeaId;
    }
    forall i | 0 <= i < |sorted| ensures sorted[i].idea.Some? {
      assert sorted[i] in multiset(joined);
      var k :| 0 <= k < |joined| && joined[k] == sorted[i];
    }
  }

  /** With every foreign key intact the join drops nothing, so the listing is the
      first `n` rows of the sorted join, position by position. */
  lemma ListingFollowsSortedJoin(results: seq<ValidationResult>, ideas: seq<AppIdea>, n: nat, sorted: seq<Joined>, out: seq<ResultWithIdea>)
    requires ForeignKeysHold(results, ideas)
    requires sorted == SortNewestFirst(LeftJoin(results, ideas))
    requires out == Listing(results, ideas, n)
    ensures |out| == if |sorted| <= n then |sorted| else n
    ensures forall k :: 0 <= k < |out| ==> out[k].result == sorted[k].result
  {
    SortedRowsHaveIdeas(results, ideas, sorted);
    var rows := Take(sorted, n);
    assert out == WithIdeas(rows);
    WithIdeasKeepsAll(rows);
  }

  /** Where a stored result stands in the sorted join. */
  lemma PositionInSortedJoin(results: seq<ValidationResult>, ideas: seq<AppIdea>, sorted: seq<Joined>, x: ValidationResult)
      returns (j: nat)
    requires sorted == SortNewestFirst(LeftJoin(results, ideas))
    requires x in results
    ensures j < |sorted| && sorted[j].result == x
  {
    var joined := LeftJoin(results, ideas);
    var xi :| 0 <= xi < |results| && results[xi] == x;
    assert joined[xi].result == x;
    assert joined[xi] in multiset(sorted);
    j :| 0 <= j < |sorted| && sorted[j] == joined[xi];
  }

  /** With every foreign key intact, a listing of `n` rows holds the `n` newest results:
      a result left out is no newer than any listed one, and is left out only when `n` are listed. */
  lemma ListingOmitsOnlyOlder(results: seq<ValidationResult>, ideas: seq<AppIdea>, n: nat, out: seq<ResultWithIdea>, x: ValidationResult)
    requires ForeignKeysHold(results, ideas)
    requires out == Listing(results, ideas, n)
    requires x in results
    requires forall k :: 0 <= k < |out| ==> out[k].result != x
    ensures |out| == n
    ensures forall k :: 0 <= k < |out| ==> x.createdAt <= out[k].result.createdAt
  {
    var sorted := SortNewestFirst(LeftJoin(results, ideas));
    ListingFollowsSortedJoin(results, ideas, n, sorted, out);
    var j := PositionInSortedJoin(results, ideas, sorted, x);
    assert j >= |out|;
  }

  /** With every foreign key intact and at most `n` results, every result is listed. */
  lemma ListingKeepsAllWhenShort(results: seq<ValidationResult>, ideas: seq<AppIdea>, n: nat, out: seq<ResultWithIdea>)
    requires ForeignKeysHold(results, ideas)
    requires out == Listing(results, ideas, n)
    requires |results| <= n
    ensures |out| == |results|
    ensures forall v :: v in results ==> exists k :: 0 <= k < |out| && out[k].result == v
  {
    var sorted := SortNewestFirst(LeftJoin(results, ideas));
    ListingFollowsSortedJoin(results, ideas, n, sorted, out);
    forall v | v in results ensures exists k :: 0 <= k < |out| && out[k].result == v {
      var j := PositionInSortedJoin(results, ideas, sorted, v);
      assert out[j].result == v;
    }
  }

  /** With every foreign key intact, the listing is the at most 100 newest results:
      a result left out is no newer than any listed one, and is left out only when 100 are listed. */
  lemma OmittedResultsAreOlder(results: seq<ValidationResult>, ideas: seq<AppIdea>, out: seq<ResultWithIdea>, x: ValidationResult)
    requires ForeignKeysHold(results, ideas)
    requires out == AllValidationResults(results, ideas)
    requires x in results
    requires forall k :: 0 <= k < |out| ==> out[k].result != x
    ensures |out| == AllResultsLimit
    ensures forall k :: 0 <= k < |out| ==> x.createdAt <= out[k].result.createdAt
  {
    ListingOmitsOnlyOlder(results, ideas, AllResultsLimit, out, x);
  }

  /** With every foreign key intact and at most 100 results, every result is listed. */
  lemma ListingIsCompleteWhenSmall(results: seq<ValidationResult>, ideas: seq<AppIdea>, out: seq<ResultWithIdea>)
    requires ForeignKeysHold(results, ideas)
    requires out == AllValidationResults(results, ideas)
    requires |results| <= AllResultsLimit
    ensures |out| == |results|
    ensures forall v :: v in results ==> exists k :: 0 <= k < |out| && out[k].result == v
  {
    ListingKeepsAllWhenShort(results, ideas, AllResultsLimit, out);
  }

  /** The BAIL results keep their ideas when all results do. */
  lemma ForeignKeysOfVerdict(results: seq<ValidationResult>, ideas: seq<AppIdea>, verdict: string)
    requires ForeignKeysHold(results, ideas)
    ensures ForeignKeysHold(OfVerdict(results, verdict), ideas)
  {
    var picked := OfVerdict(results, verdict);
    forall v | v in picked ensures exists a :: a in ideas && a.id == v.appIdeaId {
      var k :| 0 <= k < |picked| && picked[k] == v;
      assert v in results;
    }
  }

  /** With every foreign key intact, `getBailVerdicts(limit)` holds the `limit` newest BAIL results:
      a BAIL result left out is no newer than any listed one, and is left out only when `limit` are listed. */
  lemma OmittedBailVerdictsAreOlder(results: seq<ValidationResult>, ideas: seq<AppIdea>, limit: nat, out: seq<ResultWithIdea>, x: ValidationResult)
    requires ForeignKeysHold(results, ideas)
    requires out == BailVerdicts(results, ideas, limit)
    requires x in results && x.verdict == "BAIL"
    requires forall k :: 0 <= k < |out| ==> out[k].result != x
    ensures |out| == limit
    ensures forall k :: 0 <= k < |out| ==> x.createdAt <= out[k].result.createdAt
  {
    ForeignKeysOfVerdict(results, ideas, "BAIL");
    ListingOmitsOnlyOlder(OfVerdict(results, "BAIL"), ideas, limit, out, x);
  }

  /** With every foreign key intact and at most `limit` BAIL results, every BAIL result is listed. */
  lemma BailVerdictsCompleteWhenFew(results: seq<ValidationResult>, ideas: seq<AppIdea>, limit: nat, out: seq<ResultWithIdea>)
    requires ForeignKeysHold(results, ideas)
    requires out == BailVerdicts(results, ideas, limit)
    requires |OfVerdict(results, "BAIL")| <= limit
    ensures forall v :: v in results && v.verdict == "BAIL" ==> exists k :: 0 <= k < |out| && out[k].result == v
  {
    ForeignKeysOfVerdict(results, ideas, "BAIL");
    ListingKeepsAllWhenShort(OfVerdict(results, "BAIL"), ideas, limit, out);
  }
}
