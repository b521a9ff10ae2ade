/**
 * `DatabaseStorage`: the three tables held in memory.  Inserts append a row
 * with a freshly generated id; the rate-limit update changes one row's count
 * in place; every read is one of the query functions over the current tables.
 */
module Storage {
  import opened Wrappers
  import opened Schema
  import Queries
  import RateLimit

  /** Stands for the database driver's foreign-key error; its exact text is not modelled. */
  const ForeignKeyViolation := "insert on table validation_results violates foreign key constraint"

  /** Every idea id is below `next`, and no two ideas share one. */
  predicate IdeaKeys(ideas: seq<AppIdea>, next: nat)
  {
    && (forall i :: 0 <= i < |ideas| ==> ideas[i].id < next)
    && (forall i, j :: 0 <= i < j < |ideas| ==> ideas[i].id != ideas[j].id)
  }

  /** Every result id is below `next`, and no two results share one. */
  predicate ResultKeys(results: seq<ValidationResult>, next: nat)
  {
    && (forall i :: 0 <= i < |results| ==> results[i].id < next)
    && (forall i, j :: 0 <= i < j < |results| ==> results[i].id != results[j].id)
  }

  /** Every rate-limit id is below `next`, and no two records share one. */
  predicate LimitKeys(limits: seq<RateLimit.RateLimitRecord>, next: nat)
  {
    && (forall i :: 0 <= i < |limits| ==> limits[i].id < next)
    && (forall i, j :: 0 <= i < j < |limits| ==> limits[i].id != limits[j].id)
  }

  /** Raising the id counter keeps every key below it. */
  lemma KeysGrow(ideas: seq<AppIdea>, results: seq<ValidationResult>, limits: seq<RateLimit.RateLimitRecord>, next: nat)
    requires IdeaKeys(ideas, next) && ResultKeys(results, next) && LimitKeys(limits, next)
    ensures IdeaKeys(ideas, next + 1) && ResultKeys(results, next + 1) && LimitKeys(limits, next + 1)
  {
  }

  lemma IdeaAppended(ideas: seq<AppIdea>, next: nat, idea: AppIdea)
    requires IdeaKeys(ideas, next) && idea.id == next
    ensures IdeaKeys(ideas + [idea], next + 1)
    ensures forall a :: a in ideas ==> a.id != idea.id
  {
  }

  lemma ResultAppended(results: seq<ValidationResult>, next: nat, row: ValidationResult)
    requires ResultKeys(results, next) && row.id == next
    ensures ResultKeys(results + [row], next + 1)
  {
  }

  lemma LimitAppended(limits: seq<RateLimit.RateLimitRecord>, next: nat, row: RateLimit.RateLimitRecord)
    requires LimitKeys(limits, next) && row.id == next
    ensures LimitKeys(limits + [row], next + 1)
  {
  }

  /** Changing a record but not its id keeps the keys. */
  lemma LimitReplaced(limits: seq<RateLimit.RateLimitRecord>, next: nat, i: nat, row: RateLimit.RateLimitRecord)
    requires LimitKeys(limits, next) && i < |limits| && row.id == limits[i].id
    ensures LimitKeys(limits[i := row], next)
  {
  }

  /** A result whose idea is stored keeps referential integrity. */
  lemma ForeignKeyAppended(results: seq<ValidationResult>, ideas: seq<AppIdea>, row: ValidationResult, owner: AppIdea)
    requires Queries.ForeignKeysHold(results, ideas)
    requires owner in ideas && owner.id == row.appIdeaId
    ensures Queries.ForeignKeysHold(results + [row], ideas)
  {
    forall v | v in results + [row] ensures exists a :: a in ideas && a.id == v.appIdeaId {
      if v == row {
        assert owner in ideas && owner.id == v.appIdeaId;
      } else {
        assert v in results;
      }
    }
  }

  /** Adding an idea keeps every stored reference intact. */
  lemma ForeignKeyIdeaAdded(results: seq<ValidationResult>, ideas: seq<AppIdea>, idea: AppIdea)
    requires Queries.ForeignKeysHold(results, ideas)
    ensures Queries.ForeignKeysHold(results, ideas + [idea])
  {
    forall v | v in results ensures exists a :: a in ideas + [idea] && a.id == v.appIdeaId {
      var a :| a in ideas && a.id == v.appIdeaId;
      assert a in ideas + [idea];
    }
  }

  class DatabaseStorage {
    var ideas: seq<AppIdea>
    var results: seq<ValidationResult>
    var limits: seq<RateLimit.RateLimitRecord>
    /** The next id the database hands out; every stored id is below it. */
    var nextId: nat

    /** Primary keys are distinct and below `nextId`; every result references a stored idea. */
    ghost predicate Valid()
      reads this
    {
      && IdeaKeys(ideas, nextId)
      && ResultKeys(results, nextId)
      && LimitKeys(limits, nextId)
      && Queries.ForeignKeysHold(results, ideas)
    }

    constructor ()
      ensures Valid()
      ensures ideas == [] && results == [] && limits == []
    {
      ideas, results, limits, nextId := [], [], [], 0;
    }

    /** `createAppIdea`: insert the idea with a generated id and the current time. */
    method CreateAppIdea(data: IdeaData, now: int) returns (idea: AppIdea)
      requires Valid()
      modifies this
      ensures Valid()
      ensures idea == NewIdea(old(nextId), data, now)
      ensures forall a :: a in old(ideas) ==> a.id != idea.id
      ensures ideas == old(ideas) + [idea]
      ensures results == old(results) && limits == old(limits)
      ensures nextId == old(nextId) + 1
    {
      idea := NewIdea(nextId, data, now);
      KeysGrow(ideas, results, limits, nextId);
      IdeaAppended(ideas, nextId, idea);
      ForeignKeyIdeaAdded(results, ideas, idea);
      ideas := ideas + [idea];
      nextId := nextId + 1;
    }

    /** `createValidationResult`: insert the result, or fail when its idea does not exist. */
    method CreateValidationResult(data: InsertValidationResult, now: int) returns (r: Result<ValidationResult, string>)
      requires Valid()
      modifies this
      ensures Valid()
      ensures r.Success? <==> exists a :: a in ideas && a.id == data.appIdeaId
      ensures r.Success? ==>
        && r.value == NewResult(old(nextId), data, now)
        && results == old(results) + [r.value]
        && nextId == old(nextId) + 1
      ensures r.Failure? ==> r.error == ForeignKeyViolation && results == old(results) && nextId == old(nextId)
      ensures ideas == old(ideas) && limits == old(limits)
    {
      var owner := Queries.FindIdea(ideas, data.appIdeaId);
      if owner.None? {
        r := Failure(ForeignKeyViolation);
        return;
      }
      var row := NewResult(nextId, data, now);
      KeysGrow(ideas, results, limits, nextId);
      ResultAppended(results, nextId, row);
      ForeignKeyAppended(results, ideas, row, owner.value);
      results := results + [row];
      nextId := nextId + 1;
      r := Success(row);
    }

    /** `getAppIdea(id)`. */
    function GetAppIdea(id: Id): Option<AppIdea>
      reads this
    {
      Queries.FindIdea(ideas, id)
    }

    /** `getValidationResult(id)`. */
    function GetValidationResult(id: Id): Option<ValidationResult>
      reads this
    {
      Queries.FindResult(results, id)
    }

    /** `getValidationResultWithIdea(id)`. */
    function GetValidationResultWithIdea(id: Id): Option<ResultWithIdea>
      reads this
    {
      Queries.ResultWithIdeaById(results, ideas, id)
    }

    /** `getAllValidationResults()`. */
    function GetAllValidationResults(): seq<ResultWithIdea>
      reads this
    {
      Queries.AllValidationResults(results, ideas)
    }

    /** `getBailVerdicts(limit = 50)`. */
    function GetBailVerdicts(limit: nat := Queries.DefaultBailLimit): seq<ResultWithIdea>
      reads this
    {
      Queries.BailVerdicts(results, ideas, limit)
    }

    /** `checkRateLimit(userIp)` at time `now`. */
    function CheckRateLimit(userIp: string, now: int): RateLimit.Decision
      reads this
    {
      RateLimit.Check(limits, userIp, now)
    }

    /** `updateRateLimit(userIp)` at time `now`. */
    method UpdateRateLimit(userIp: string, now: int)
      requires Valid()
      modifies this
      ensures Valid()
      ensures limits == RateLimit.Update(old(limits), userIp, now, old(nextId))
      ensures RateLimit.CountInWindow(limits, userIp, now) == RateLimit.CountInWindow(old(limits), userIp, now) + 1
      ensures ideas == old(ideas) && results == old(results)
      // An id is used up only when a new record is inserted.
      ensures nextId == old(nextId) + (if RateLimit.FindInWindow(old(limits), userIp, now).Some? then 0 else 1)
    {
      var found := RateLimit.FindInWindow(limits, userIp, now);
      if found.Some? {
        var i := found.value;
        var bumped := limits[i].(requestCount := limits[i].requestCount + 1, lastRequest := now);
        LimitReplaced(limits, nextId, i, bumped);
        limits := limits[i := bumped];
      } else {
        KeysGrow(ideas, results, limits, nextId);
        LimitAppended(limits, nextId, RateLimit.FreshRecord(nextId, userIp, now));
        limits := limits + [RateLimit.FreshRecord(nextId, userIp, now)];
        nextId := nextId + 1;
      }
    }
  }
}
