/** The request limiter and the profile pipeline of src/services/github.ts: a cached
    profile is served as it is; otherwise the decoded payloads go through
    processContributions, calculateStats and evaluateProfile, and the result is cached. */
module GitHubService {
  import opened Types
  import opened Cache
  import opened GitHubStats
  import opened GitHubEvaluation

  // ---------------------------------------------------------------------------
  // RateLimiter

  /** Requests allowed before the limiter looks at the clock. */
  const RequestLimit: nat := 60

  const RateLimitMessage: string := "Rate limit exceeded"

  /** Result of one `checkLimit` call and the request count after it. */
  datatype LimitStep = LimitStep(outcome: Outcome<bool>, requests: nat)

  /** One `checkLimit` call at time `now`. At the limit it throws while `now` is before
      `resetTime`; otherwise it starts counting afresh from zero before counting the
      request. */
  function CheckLimitStep(requests: nat, resetTime: int, now: int): (s: LimitStep)
    ensures s.outcome.Fail? <==> requests >= RequestLimit && now < resetTime
    ensures s.outcome.Fail? ==> s.requests == requests && s.outcome.message == RateLimitMessage
    ensures s.outcome.Ok? ==> s.outcome.value
    ensures s.outcome.Ok? ==> s.requests == if requests >= RequestLimit then 1 else requests + 1
  {
    if requests >= RequestLimit then
      if now < resetTime then LimitStep(Fail(RateLimitMessage), requests)
      else LimitStep(Ok(true), 1)
    else LimitStep(Ok(true), requests + 1)
  }

  /** The steps of successive calls made at the times in `clock`. */
  function Replay(requests: nat, resetTime: int, clock: seq<int>): (steps: seq<LimitStep>)
    ensures |steps| == |clock|
    decreases |clock|
  {
    if clock == [] then []
    else
      var first := CheckLimitStep(requests, resetTime, clock[0]);
      [first] + Replay(first.requests, resetTime, clock[1..])
  }

  /** The count never passes the limit. */
  lemma StepKeepsBound(requests: nat, resetTime: int, now: int)
    requires requests <= RequestLimit
    ensures CheckLimitStep(requests, resetTime, now).requests <= RequestLimit
  {
  }

  /** While the clock is before `resetTime`, a limiter that has counted `requests`
      requests lets exactly the next `60 - requests` calls through and refuses every
      call after them. */
  lemma {:induction false} BeforeResetTime(requests: nat, resetTime: int, clock: seq<int>)
    requires requests <= RequestLimit
    requires forall j :: 0 <= j < |clock| ==> clock[j] < resetTime
    ensures forall i :: 0 <= i < |clock| ==>
      (Replay(requests, resetTime, clock)[i].outcome.Ok? <==> requests + i < RequestLimit)
    decreases |clock|
  {
    if clock != [] {
      var first := CheckLimitStep(requests, resetTime, clock[0]);
      var steps := Replay(requests, resetTime, clock);
      BeforeResetTime(first.requests, resetTime, clock[1..]);
      forall i | 1 <= i < |clock|
        ensures steps[i].outcome.Ok? <==> requests + i < RequestLimit
      {
        assert steps[i] == Replay(first.requests, resetTime, clock[1..])[i - 1];
      }
    }
  }

  /** From `resetTime` on no call is refused, whatever the count. */
  lemma {:induction false} FromResetTime(requests: nat, resetTime: int, clock: seq<int>)
    requires forall j :: 0 <= j < |clock| ==> clock[j] >= resetTime
    ensures forall i :: 0 <= i < |clock| ==> Replay(requests, resetTime, clock)[i].outcome.Ok?
    decreases |clock|
  {
    if clock != [] {
      var first := CheckLimitStep(requests, resetTime, clock[0]);
      var steps := Replay(requests, resetTime, clock);
      FromResetTime(first.requests, resetTime, clock[1..]);
      forall i | 1 <= i < |clock| ensures steps[i].outcome.Ok? {
        assert steps[i] == Replay(first.requests, resetTime, clock[1..])[i - 1];
      }
    }
  }

  /** A fresh limiter whose calls come before its construction time refuses the 61st
      call; with calls at or after its construction time, which is where a clock that
      does not go backwards puts them, it refuses none. */
  lemma FreshLimiter(resetTime: int, clock: seq<int>)
    ensures (forall j :: 0 <= j < |clock| ==> clock[j] < resetTime) ==>
      forall i :: 0 <= i < |clock| ==> (Replay(0, resetTime, clock)[i].outcome.Ok? <==> i < RequestLimit)
    ensures (forall j :: 0 <= j < |clock| ==> clock[j] >= resetTime) ==>
      forall i :: 0 <= i < |clock| ==> Replay(0, resetTime, clock)[i].outcome.Ok?
  {
    if forall j :: 0 <= j < |clock| ==> clock[j] < resetTime {
      BeforeResetTime(0, resetTime, clock);
    }
    if forall j :: 0 <= j < |clock| ==> clock[j] >= resetTime {
      FromResetTime(0, resetTime, clock);
    }
  }

  class RateLimiter {
    var requests: nat
    /** Set once, to the construction time, and never reassigned. */
    const resetTime: int

    constructor(now: int)
      ensures requests == 0 && resetTime == now
    {
      requests := 0;
      resetTime := now;
    }

    method CheckLimit(now: int) returns (r: Outcome<bool>)
      modifies this
      ensures LimitStep(r, requests) == CheckLimitStep(old(requests), resetTime, now)
    {
      if requests >= RequestLimit {
        if now < resetTime {
          return Fail(RateLimitMessage);
        }
        requests := 0;
      }
      requests := requests + 1;
      return Ok(true);
    }
  }

  // ---------------------------------------------------------------------------
  // fetchGitHubProfile

  const FetchFailedMessage: string := "Failed to fetch GitHub profile"

  /** The two API responses, already decoded: the mapped repositories and the events. */
  datatype Payload = Payload(repositories: seq<Repository>, events: seq<RawEvent>)

  /** A fresh cached profile is returned without fetching. Otherwise a failed fetch
      (`payload` absent) becomes the single error message, and a successful one is
      processed, evaluated, cached under the user name and returned. `now` is the clock
      and `oneYearAgo` the statistics cutoff. */
  method FetchGitHubProfile(username: string, cache: CacheService<GitHubProfile>, payload: Option<Payload>,
                            ts: string -> int, now: int, oneYearAgo: int)
    returns (r: Outcome<GitHubProfile>)
    modifies cache
    ensures GetResult(old(cache.store), username, now).Some? ==>
      r == Ok(GetResult(old(cache.store), username, now).value) && cache.store == old(cache.store)
    ensures GetResult(old(cache.store), username, now).None? && payload.None? ==>
      r == Fail(FetchFailedMessage) && cache.store == AfterGet(old(cache.store), username, now)
    ensures GetResult(old(cache.store), username, now).None? && payload.Some? ==>
      r.Ok? && r.value.username == username &&
      r.value.repositories == payload.value.repositories &&
      StatsOf(r.value.stats, payload.value.repositories, ProcessContributions(payload.value.events), ts, oneYearAgo) &&
      EvaluationOf(r.value.evaluationResults, payload.value.repositories, r.value.stats, ts, now) &&
      cache.store == Stored(AfterGet(old(cache.store), username, now), username, r.value, now)
  {
    var cachedProfile := cache.Get(username, now);
    if cachedProfile.Some? {
      return Ok(cachedProfile.value);
    }
    if payload.None? {
      return Fail(FetchFailedMessage);
    }
    var repositories := payload.value.repositories;
    var contributions := ProcessContributions(payload.value.events);
    var stats := CalculateStats(repositories, contributions, ts, oneYearAgo);
    var evaluationResults := EvaluateProfile(repositories, stats, ts, now);
    var profile := GitHubProfile(username, repositories, stats, evaluationResults);
    cache.Set(username, profile, now);
    return Ok(profile);
  }
}
