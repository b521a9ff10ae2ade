/**
 * The per-IP rate limiter over the `rate_limits` table: a record counts the
 * requests of one IP since its window start; a record whose window started
 * more than an hour before `now` is ignored.  At most five requests are
 * allowed per window.  Times are milliseconds.
 */
module RateLimit {
  import opened Wrappers
  import opened Schema

  const WindowMs := 60 * 60 * 1000
  const MaxRequests := 5

  /** A row of `rate_limits`. */
  datatype RateLimitRecord = RateLimitRecord(
    id: Id,
    userIp: string,
    windowStart: int,
    requestCount: nat,
    lastRequest: int)

  /** The answer of `checkRateLimit`. */
  datatype Decision = Decision(allowed: bool, remainingRequests: int)

  /** `userIp = ip AND windowStart >= now - one hour`. */
  predicate InWindow(r: RateLimitRecord, ip: string, now: int)
  {
    r.userIp == ip && r.windowStart >= now - WindowMs
  }

  /** The position of the first record of `ip` whose window is still open at `now`. */
  function FindInWindow(limits: seq<RateLimitRecord>, ip: string, now: int): (r: Option<nat>)
    ensures r.Some? ==> r.value < |limits| && InWindow(limits[r.value], ip, now)
    ensures r.Some? ==> forall j :: 0 <= j < r.value ==> !InWindow(limits[j], ip, now)
    ensures r.None? <==> forall j :: 0 <= j < |limits| ==> !InWindow(limits[j], ip, now)
  {
    if limits == [] then None
    else if InWindow(limits[0], ip, now) then Some(0)
    else match FindInWindow(limits[1..], ip, now)
      case None => None
      case Some(i) => Some(i + 1)
  }

  /** The first open window is determined by its two defining properties. */
  lemma FindInWindowAt(limits: seq<RateLimitRecord>, ip: string, now: int, i: nat)
    requires i < |limits| && InWindow(limits[i], ip, now)
    requires forall j :: 0 <= j < i ==> !InWindow(limits[j], ip, now)
    ensures FindInWindow(limits, ip, now) == Some(i)
  {
    var r := FindInWindow(limits, ip, now);
    assert r.Some?;
    assert !(r.value < i);
    assert !(i < r.value);
  }

  /** The requests `ip` has made in its open window at `now`: 0 when it has none. */
  function CountInWindow(limits: seq<RateLimitRecord>, ip: string, now: int): nat
  {
    match FindInWindow(limits, ip, now)
    case None => 0
    case Some(i) => limits[i].requestCount
  }

  /** `checkRateLimit(ip)` at time `now`. */
  function Check(limits: seq<RateLimitRecord>, ip: string, now: int): (d: Decision)
    ensures FindInWindow(limits, ip, now).None? ==> d == Decision(true, 4)
    ensures d.allowed <==> CountInWindow(limits, ip, now) < MaxRequests
    ensures d.remainingRequests == if d.allowed then MaxRequests - CountInWindow(limits, ip, now) - 1 else 0
    ensures 0 <= d.remainingRequests <= MaxRequests - 1
  {
    match FindInWindow(limits, ip, now)
    case None => Decision(true, 4)
    case Some(i) =>
      var requestCount := limits[i].requestCount;
      if requestCount >= MaxRequests then Decision(false, 0)
      else Decision(true, MaxRequests - requestCount - 1)
  }

  /** The record `updateRateLimit` inserts when `ip` has no open window. */
  function FreshRecord(id: Id, ip: string, now: int): RateLimitRecord
  {
    RateLimitRecord(id, ip, now, 1, now)
  }

  /** `updateRateLimit(ip)` at time `now`: bump the open window's count, or open a new window. */
  function Update(limits: seq<RateLimitRecord>, ip: string, now: int, freshId: Id): (r: seq<RateLimitRecord>)
    ensures CountInWindow(r, ip, now) == CountInWindow(limits, ip, now) + 1
    ensures FindInWindow(limits, ip, now).Some? ==>
      var i := FindInWindow(limits, ip, now).value;
      && |r| == |limits|
      && r[i] == limits[i].(requestCount := limits[i].requestCount + 1, lastRequest := now)
      && forall j :: 0 <= j < |limits| && j != i ==> r[j] == limits[j]
    ensures FindInWindow(limits, ip, now).None? ==> r == limits + [FreshRecord(freshId, ip, now)]
  {
    match FindInWindow(limits, ip, now)
    case Some(i) =>
      var r := limits[i := limits[i].(requestCount := limits[i].requestCount + 1, lastRequest := now)];
      FindInWindowAt(r, ip, now, i);
      r
    case None =>
      var r := limits + [FreshRecord(freshId, ip, now)];
      FindInWindowAt(r, ip, now, |limits|);
      r
  }

  /** An update for one IP leaves every other IP's count, at every time, as it was. */
  lemma UpdateIsolatesIps(limits: seq<RateLimitRecord>, ip: string, now: int, freshId: Id, other: string, t: int)
    requires other != ip
    ensures CountInWindow(Update(limits, ip, now, freshId), other, t) == CountInWindow(limits, other, t)
  {
    var r := Update(limits, ip, now, freshId);
    assert forall j :: 0 <= j < |limits| ==> (InWindow(r[j], other, t) <==> InWindow(limits[j], other, t));
    assert |r| > |limits| ==> !InWindow(r[|limits|], other, t);
    match FindInWindow(limits, other, t)
    case None =>
      assert FindInWindow(r, other, t).None?;
    case Some(i) =>
      assert FindInWindow(r, other, t) == Some(i);
  }

  /** Records outside their window: ignored by the check and untouched by the update. */
  predicate AllStale(stale: seq<RateLimitRecord>, ip: string, now: int)
  {
    forall k :: 0 <= k < |stale| ==> !InWindow(stale[k], ip, now)
  }

  lemma {:induction false} FindSkipsStale(stale: seq<RateLimitRecord>, limits: seq<RateLimitRecord>, ip: string, now: int)
    requires AllStale(stale, ip, now)
    ensures FindInWindow(stale + limits, ip, now) ==
      match FindInWindow(limits, ip, now)
      case None => None
      case Some(i) => Some(|stale| + i)
  {
    if stale != [] {
      assert (stale + limits)[0] == stale[0];
      assert (stale + limits)[1..] == stale[1..] + limits;
      FindSkipsStale(stale[1..], limits, ip, now);
    } else {
      assert stale + limits == limits;
    }
  }

  lemma FindIgnoresTrailingStale(limits: seq<RateLimitRecord>, stale: seq<RateLimitRecord>, ip: string, now: int)
    requires AllStale(stale, ip, now)
    ensures FindInWindow(limits + stale, ip, now) == FindInWindow(limits, ip, now)
  {
    var all := limits + stale;
    assert forall j :: 0 <= j < |limits| ==> all[j] == limits[j];
    assert forall j :: |limits| <= j < |all| ==> all[j] == stale[j - |limits|];
    match FindInWindow(limits, ip, now)
    case None =>
      assert FindInWindow(all, ip, now).None?;
    case Some(i) =>
      assert FindInWindow(all, ip, now) == Some(i);
  }

  /** Records whose window closed before `now`, before or after the others, do not change the check. */
  lemma StaleRecordsIgnored(stale: seq<RateLimitRecord>, limits: seq<RateLimitRecord>, ip: string, now: int)
    requires AllStale(stale, ip, now)
    ensures Check(stale + limits, ip, now) == Check(limits, ip, now)
    ensures Check(limits + stale, ip, now) == Check(limits, ip, now)
  {
    FindSkipsStale(stale, limits, ip, now);
    FindIgnoresTrailingStale(limits, stale, ip, now);
    var found := FindInWindow(limits, ip, now);
    if found.Some? {
      var i := found.value;
      assert (stale + limits)[|stale| + i] == limits[i];
      assert (limits + stale)[i] == limits[i];
      SameRecordSameCheck(stale + limits, limits, ip, now, |stale| + i, i);
      SameRecordSameCheck(limits + stale, limits, ip, now, i, i);
    }
  }

  /** The check only looks at the record the lookup finds. */
  lemma SameRecordSameCheck(a: seq<RateLimitRecord>, b: seq<RateLimitRecord>, ip: string, now: int, i: nat, j: nat)
    requires FindInWindow(a, ip, now) == Some(i) && FindInWindow(b, ip, now) == Some(j)
    requires i < |a| && j < |b| && a[i] == b[j]
    ensures Check(a, ip, now) == Check(b, ip, now)
  {
  }

  /** ...and the update neither touches them nor is deflected by them. */
  lemma UpdateSkipsStale(stale: seq<RateLimitRecord>, limits: seq<RateLimitRecord>, ip: string, now: int, freshId: Id)
    requires AllStale(stale, ip, now)
    ensures Update(stale + limits, ip, now, freshId) == stale + Update(limits, ip, now, freshId)
  {
    FindSkipsStale(stale, limits, ip, now);
    var all := stale + limits;
    var found := FindInWindow(limits, ip, now);
    if found.None? {
      assert FindInWindow(all, ip, now).None?;
      var newRecord := FreshRecord(freshId, ip, now);
      assert Update(all, ip, now, freshId) == all + [newRecord];
      assert Update(limits, ip, now, freshId) == limits + [newRecord];
      assert all + [newRecord] == stale + (limits + [newRecord]);
    } else {
      var i := found.value;
      assert FindInWindow(all, ip, now) == Some(|stale| + i);
      assert all[|stale| + i] == limits[i];
      var bumped := limits[i].(requestCount := limits[i].requestCount + 1, lastRequest := now);
      assert Update(all, ip, now, freshId) == all[|stale| + i := bumped];
      assert Update(limits, ip, now, freshId) == limits[i := bumped];
      SetInSuffix(stale, limits, i, bumped);
    }
  }

  /** Replacing an element of the second part of a concatenation. */
  lemma SetInSuffix<T>(a: seq<T>, b: seq<T>, i: nat, x: T)
    requires i < |b|
    ensures (a + b)[|a| + i := x] == a + b[i := x]
  {
  }

  /** A sequence of updates for one IP at the given times, starting from `limits`. */
  function Replay(limits: seq<RateLimitRecord>, ip: string, times: seq<int>, nextId: Id): seq<RateLimitRecord>
    decreases |times|
  {
    if times == [] then limits
    else Replay(Update(limits, ip, times[0], nextId), ip, times[1..], nextId + 1)
  }

  /** Updates that all fall inside a record's window only bump that record. */
  lemma {:induction false} ReplayOnOpenWindow(rec: RateLimitRecord, ip: string, times: seq<int>, nextId: Id)
    requires rec.userIp == ip
    requires forall k :: 0 <= k < |times| ==> times[k] <= rec.windowStart + WindowMs
    ensures var r := Replay([rec], ip, times, nextId);
      && |r| == 1
      && r[0].id == rec.id && r[0].userIp == ip && r[0].windowStart == rec.windowStart
      && r[0].requestCount == rec.requestCount + |times|
    decreases |times|
  {
    if times != [] {
      assert InWindow(rec, ip, times[0]);
      var next := rec.(requestCount := rec.requestCount + 1, lastRequest := times[0]);
      assert Update([rec], ip, times[0], nextId) == [next];
      ReplayOnOpenWindow(next, ip, times[1..], nextId + 1);
    }
  }

  /** From an empty table, k requests inside one window leave a count of k, so the
      next check (inside that window) allows the request exactly when k < 5. */
  lemma RequestsWithinOneWindow(ip: string, times: seq<int>, firstId: Id, now: int)
    requires forall k :: 0 <= k < |times| ==> times[0] <= times[k] <= times[0] + WindowMs
    requires |times| > 0 ==> times[0] <= now <= times[0] + WindowMs
    ensures CountInWindow(Replay([], ip, times, firstId), ip, now) == |times|
    ensures Check(Replay([], ip, times, firstId), ip, now).allowed <==> |times| < MaxRequests
    ensures Check(Replay([], ip, times, firstId), ip, now).remainingRequests ==
      if |times| < MaxRequests then MaxRequests - 1 - |times| else 0
  {
    if times != [] {
      var rec := FreshRecord(firstId, ip, times[0]);
      assert Update([], ip, times[0], firstId) == [rec];
      ReplayOnOpenWindow(rec, ip, times[1..], firstId + 1);
      var r := Replay([], ip, times, firstId);
      assert r == Replay([rec], ip, times[1..], firstId + 1);
      assert InWindow(r[0], ip, now);
    }
  }
}
