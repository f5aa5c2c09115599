/**
 * The retry loop: how often and when it calls, and when it gives up. Time is
 * counted in nanoseconds since the loop started; only calls and sleeps take any.
 */
module Retry {
  import opened Prelude

  const NS_PER_MS := 1_000_000
  const FALLBACK_BACKOFF_MS := 1000

  datatype Policy = Policy(maxAttempts: nat, backoffMs: seq<nat>, totalCapMs: nat) {
    function Cap(): nat {
      totalCapMs * NS_PER_MS
    }

    /** The backoff after attempt number `attempt`; past the end of the list its last entry, or the fallback. */
    function Backoff(attempt: nat): nat {
      (if attempt < |backoffMs| then backoffMs[attempt]
       else if backoffMs != [] then backoffMs[|backoffMs| - 1]
       else FALLBACK_BACKOFF_MS) * NS_PER_MS
    }

    /** The sleep after attempt `attempt` when `elapsed` has passed: the backoff, cut to what is left of the cap. */
    function Pause(attempt: nat, elapsed: nat): nat {
      if elapsed >= Cap() then 0
      else if Backoff(attempt) <= Cap() - elapsed then Backoff(attempt)
      else Cap() - elapsed
    }
  }

  const DEFAULT_POLICY := Policy(3, [1000, 2000, 4000], 10_000)

  /** What a provider call yields: an extraction or a completion. */
  type Response = string

  /** What the k-th call returns and how long it takes. */
  datatype Op = Op(outcome: nat -> Result<Response, CoreError>, duration: nat -> nat)

  datatype Call = Call(begin: nat, end: nat)

  predicate IsRetryable(r: Result<Response, CoreError>) {
    r.Err? && r.error.Http?
  }

  /** Call `k` follows a retryable error and the sleep after it. */
  ghost predicate FollowsRetry(p: Policy, op: Op, calls: seq<Call>, k: nat)
    requires 0 < k < |calls|
  {
    && op.outcome(k - 1).Err? && op.outcome(k - 1).error.Http?
    && p.Pause(k - 1, calls[k - 1].end) > 0
    && calls[k].begin == calls[k - 1].end + p.Pause(k - 1, calls[k - 1].end)
  }

  /** The calls start at 0, each takes its time, and each but the first follows a retryable error and a sleep. */
  ghost predicate Timeline(p: Policy, op: Op, calls: seq<Call>) {
    && |calls| <= p.maxAttempts
    && (forall k :: 0 <= k < |calls| ==>
          calls[k].begin < p.Cap() && calls[k].end == calls[k].begin + op.duration(k))
    && (calls != [] ==> calls[0].begin == 0)
    && (forall k :: 0 < k < |calls| ==> FollowsRetry(p, op, calls, k))
  }

  lemma TimelineAppended(p: Policy, op: Op, calls: seq<Call>, c: Call)
    requires Timeline(p, op, calls) && |calls| < p.maxAttempts
    requires c.begin < p.Cap() && c.end == c.begin + op.duration(|calls|)
    requires var n := |calls|;
      if n == 0 then c.begin == 0
      else
        && op.outcome(n - 1).Err? && op.outcome(n - 1).error.Http?
        && p.Pause(n - 1, calls[n - 1].end) > 0
        && c.begin == calls[n - 1].end + p.Pause(n - 1, calls[n - 1].end)
    ensures Timeline(p, op, calls + [c])
  {
    var all := calls + [c];
    forall k | 0 < k < |all| ensures FollowsRetry(p, op, all, k) {
      assert k < |calls| ==> FollowsRetry(p, op, calls, k);
    }
  }

  /** After the last call of `calls` the policy allows one more. */
  predicate MoreDue(p: Policy, op: Op, calls: seq<Call>) {
    var n := |calls|;
    && n < p.maxAttempts
    && if n == 0 then 0 < p.Cap()
       else
         var pause := p.Pause(n - 1, calls[n - 1].end);
         op.outcome(n - 1).Err? && op.outcome(n - 1).error.Http? && pause > 0 && calls[n - 1].end + pause < p.Cap()
  }

  /** When the loop returns: at the end of its last call, or of the sleep after it. */
  function Finish(p: Policy, op: Op, calls: seq<Call>): nat {
    var n := |calls|;
    if n == 0 then 0
    else if op.outcome(n - 1).Err? && op.outcome(n - 1).error.Http? && n < p.maxAttempts then
      calls[n - 1].end + p.Pause(n - 1, calls[n - 1].end)
    else calls[n - 1].end
  }

  /** The loop is about to make one more call at time `now`, if the cap allows. */
  ghost predicate Ready(p: Policy, op: Op, calls: seq<Call>, now: nat) {
    var n := |calls|;
    && n < p.maxAttempts
    && if n == 0 then now == 0
       else
         var pause := p.Pause(n - 1, calls[n - 1].end);
         IsRetryable(op.outcome(n - 1)) && pause > 0 && now == calls[n - 1].end + pause
  }

  /** What the last call returned. */
  function ResultOf(op: Op, calls: seq<Call>): Result<Response, CoreError> {
    if calls == [] then Err(Llm("retries exhausted")) else op.outcome(|calls| - 1)
  }

  /**
   * The loop makes every call that is due and no other, and returns what the
   * last call returned.
   */
  method RunWithRetry(p: Policy, op: Op)
    returns (r: Result<Response, CoreError>, ghost calls: seq<Call>, ghost finish: nat)
    ensures Timeline(p, op, calls) && !MoreDue(p, op, calls)
    ensures r == if calls == [] then Err(Llm("retries exhausted")) else op.outcome(|calls| - 1)
    ensures forall c :: Timeline(p, op, c) && !MoreDue(p, op, c) ==> r == ResultOf(op, c)
    ensures finish == Finish(p, op, calls)
  {
    var now: nat := 0;
    var lastErr: Option<CoreError> := None;
    calls := [];
    for attempt := 0 to p.maxAttempts
      invariant |calls| == attempt && Timeline(p, op, calls)
      invariant attempt < p.maxAttempts ==> Ready(p, op, calls, now)
      invariant attempt > 0 ==>
        IsRetryable(op.outcome(attempt - 1)) && lastErr == Some(op.outcome(attempt - 1).error)
      invariant attempt == 0 ==> lastErr == None
      invariant now == Finish(p, op, calls)
    {
      if now >= p.Cap() {
        break;
      }
      ghost var begin := now;
      var outcome := op.outcome(attempt);
      now := now + op.duration(attempt);
      TimelineAppended(p, op, calls, Call(begin, now));
      calls := calls + [Call(begin, now)];
      if outcome.Ok? {
        OnlyTimeline(p, op, calls);
        return outcome, calls, now;
      }
      if !IsRetryable(outcome) {
        OnlyTimeline(p, op, calls);
        return Err(outcome.error), calls, now;
      }
      lastErr := Some(outcome.error);
      if attempt + 1 < p.maxAttempts {
        var sleep := p.Pause(attempt, now);
        if sleep == 0 {
          break;
        }
        now := now + sleep;
      }
    }
    OnlyTimeline(p, op, calls);
    r := Err(if lastErr.Some? then lastErr.value else Llm("retries exhausted"));
    finish := now;
  }

  /** The time spent in the first `n` calls. */
  function Working(op: Op, n: nat): nat {
    if n == 0 then 0 else Working(op, n - 1) + op.duration(n - 1)
  }

  /** The sleeps between the first `n` calls. */
  function Slept(p: Policy, calls: seq<Call>, n: nat): nat
    requires n <= |calls|
  {
    if n <= 1 then 0 else Slept(p, calls, n - 1) + p.Pause(n - 2, calls[n - 2].end)
  }

  lemma {:induction false} TimeAddsUp(p: Policy, op: Op, calls: seq<Call>, n: nat)
    requires Timeline(p, op, calls) && 0 < n <= |calls|
    ensures calls[n - 1].end == Working(op, n) + Slept(p, calls, n)
  {
    if n == 1 {
      assert Working(op, 0) == 0;
    } else {
      TimeAddsUp(p, op, calls, n - 1);
      assert FollowsRetry(p, op, calls, n - 1);
    }
  }

  /**
   * The wall clock: every call starts before the cap, the loop returns no
   * later than the cap or the end of its last call, which is at most the cap
   * plus that call's duration, and all sleeps together stay within the cap.
   */
  lemma TimeBounds(p: Policy, op: Op, calls: seq<Call>)
    requires Timeline(p, op, calls)
    ensures forall k :: 0 <= k < |calls| ==> calls[k].begin < p.totalCapMs * 1_000_000
    ensures Finish(p, op, calls) <= p.totalCapMs * 1_000_000 + (if calls == [] then 0 else op.duration(|calls| - 1))
    ensures Finish(p, op, calls) - Working(op, |calls|) <= p.totalCapMs * 1_000_000
  {
    if calls != [] {
      var n := |calls|;
      TimeAddsUp(p, op, calls, n);
      assert calls[n - 1].begin == Working(op, n - 1) + Slept(p, calls, n);
    }
  }

  /** None of the calls comes after a success or an error that is not an HTTP error. */
  lemma NothingAfterFinal(p: Policy, op: Op, calls: seq<Call>, k: nat)
    requires Timeline(p, op, calls) && k < |calls| && (op.outcome(k).Ok? || !op.outcome(k).error.Http?)
    ensures k == |calls| - 1
  {
    assert k + 1 < |calls| ==> FollowsRetry(p, op, calls, k + 1);
  }

  /** The policy and the outcomes determine the timeline: no other list of calls is possible. */
  lemma TimelineUnique(p: Policy, op: Op, a: seq<Call>, b: seq<Call>)
    requires Timeline(p, op, a) && Timeline(p, op, b) && !MoreDue(p, op, a) && !MoreDue(p, op, b)
    ensures a == b
  {
    NotLonger(p, op, a, b);
    NotLonger(p, op, b, a);
    forall k | 0 <= k < |a| ensures a[k] == b[k] {
      SameCall(p, op, a, b, k);
    }
  }

  lemma OnlyTimeline(p: Policy, op: Op, calls: seq<Call>)
    requires Timeline(p, op, calls) && !MoreDue(p, op, calls)
    ensures forall c :: Timeline(p, op, c) && !MoreDue(p, op, c) ==> c == calls
  {
    forall c | Timeline(p, op, c) && !MoreDue(p, op, c) ensures c == calls {
      TimelineUnique(p, op, c, calls);
    }
  }

  lemma NotLonger(p: Policy, op: Op, a: seq<Call>, b: seq<Call>)
    requires Timeline(p, op, a) && Timeline(p, op, b) && !MoreDue(p, op, a)
    ensures |b| <= |a|
  {
    if |a| < |b| {
      forall k | 0 <= k < |a| ensures a[k] == b[..|a|][k] {
        SameCall(p, op, a, b, k);
      }
      assert b[..|a|] == a;
      NextIsDue(p, op, b, |a|);
    }
  }

  lemma {:induction false} SameCall(p: Policy, op: Op, a: seq<Call>, b: seq<Call>, k: nat)
    requires Timeline(p, op, a) && Timeline(p, op, b) && k < |a| && k < |b|
    ensures a[k] == b[k]
  {
    if k > 0 {
      SameCall(p, op, a, b, k - 1);
      assert FollowsRetry(p, op, a, k) && FollowsRetry(p, op, b, k);
    }
  }

  lemma NextIsDue(p: Policy, op: Op, calls: seq<Call>, n: nat)
    requires Timeline(p, op, calls) && n < |calls|
    ensures MoreDue(p, op, calls[..n])
  {
    assert calls[n].begin < p.Cap();
    assert n > 0 ==> FollowsRetry(p, op, calls, n);
  }

  /** When attempt `k` is due: after the calls and the full backoffs before it. */
  function StartAt(p: Policy, op: Op, k: nat): nat {
    if k == 0 then 0 else StartAt(p, op, k - 1) + op.duration(k - 1) + p.Backoff(k - 1)
  }

  /** A sleep that is cut short ends at the cap, and no call follows it. */
  lemma {:induction false} BeginsAtStart(p: Policy, op: Op, calls: seq<Call>, k: nat)
    requires Timeline(p, op, calls) && k < |calls|
    ensures calls[k].begin == StartAt(p, op, k)
  {
    if k > 0 {
      BeginsAtStart(p, op, calls, k - 1);
      assert FollowsRetry(p, op, calls, k);
    }
  }

  /** Attempt `k` returns an HTTP error, and the next one is due after a positive backoff and before the cap. */
  predicate GoesOn(p: Policy, op: Op, k: nat) {
    && op.outcome(k).Err? && op.outcome(k).error.Http?
    && p.Backoff(k) > 0 && StartAt(p, op, k + 1) < p.Cap()
  }

  /** The next attempt is made exactly after an HTTP error, if the backoff is positive and ends before the cap. */
  lemma NextCall(p: Policy, op: Op, calls: seq<Call>, k: nat)
    requires Timeline(p, op, calls) && !MoreDue(p, op, calls) && k + 1 < p.maxAttempts
    ensures k + 1 < |calls| <==>
      && k < |calls| && op.outcome(k).Err? && op.outcome(k).error.Http?
      && p.Backoff(k) > 0 && StartAt(p, op, k + 1) < p.totalCapMs * 1_000_000
  {
    if k < |calls| {
      BeginsAtStart(p, op, calls, k);
    }
    if k + 1 < |calls| {
      BeginsAtStart(p, op, calls, k + 1);
      assert FollowsRetry(p, op, calls, k + 1);
    }
  }

  /** No call follows a shortened sleep: what passes between two calls is the backoff listed for that attempt. */
  lemma CallGap(p: Policy, op: Op, calls: seq<Call>, k: nat)
    requires Timeline(p, op, calls) && k + 1 < |calls|
    ensures calls[k + 1].begin == calls[k].end + 1_000_000 *
      (if p.backoffMs == [] then 1000 else p.backoffMs[Min(k, |p.backoffMs| - 1)])
  {
    BeginsAtStart(p, op, calls, k);
    BeginsAtStart(p, op, calls, k + 1);
  }

  /** Attempt `k` is made if and only if the cap is positive and every attempt before it goes on. */
  lemma {:induction false} MadeExactly(p: Policy, op: Op, calls: seq<Call>, k: nat)
    requires Timeline(p, op, calls) && !MoreDue(p, op, calls) && k < p.maxAttempts
    ensures k < |calls| <==> p.Cap() > 0 && forall j :: 0 <= j < k ==> GoesOn(p, op, j)
  {
    if k > 0 {
      MadeExactly(p, op, calls, k - 1);
      NextCall(p, op, calls, k - 1);
      assert (forall j :: 0 <= j < k ==> GoesOn(p, op, j)) <==>
        GoesOn(p, op, k - 1) && forall j :: 0 <= j < k - 1 ==> GoesOn(p, op, j);
    }
  }

  /** All attempts are used if and only if each but the last goes on. */
  lemma AllAttemptsUsed(p: Policy, op: Op, calls: seq<Call>)
    requires Timeline(p, op, calls) && !MoreDue(p, op, calls) && p.maxAttempts > 0
    ensures |calls| == p.maxAttempts <==>
      p.Cap() > 0 && forall k :: 0 <= k && k + 1 < p.maxAttempts ==> GoesOn(p, op, k)
  {
    MadeExactly(p, op, calls, p.maxAttempts - 1);
  }

  /** A zero backoff ends the loop after one retryable failure, however many attempts are left. */
  lemma ZeroBackoffStops(p: Policy, op: Op, calls: seq<Call>)
    requires Timeline(p, op, calls) && !MoreDue(p, op, calls)
    requires p.backoffMs != [] && p.backoffMs[0] == 0
    ensures |calls| <= 1
  {
    assert |calls| > 1 ==> FollowsRetry(p, op, calls, 1);
  }

  /** The default policy on a provider that fails with HTTP errors at once: three calls, at 0, 1 and 3 seconds. */
  lemma DefaultTimeline(op: Op, calls: seq<Call>)
    requires Timeline(DEFAULT_POLICY, op, calls) && !MoreDue(DEFAULT_POLICY, op, calls)
    requires forall k :: 0 <= k < 3 ==> op.outcome(k).Err? && op.outcome(k).error.Http? && op.duration(k) == 0
    ensures |calls| == 3
    ensures calls[0].begin == 0 && calls[1].begin == 1000 * NS_PER_MS && calls[2].begin == 3000 * NS_PER_MS
  {
    assert |calls| > 1 ==> FollowsRetry(DEFAULT_POLICY, op, calls, 1);
    assert |calls| > 2 ==> FollowsRetry(DEFAULT_POLICY, op, calls, 2);
  }

  /** On a provider that answers, or fails with any other error, it makes one call and returns what that returned. */
  lemma DefaultStopsAtOnce(op: Op, calls: seq<Call>)
    requires Timeline(DEFAULT_POLICY, op, calls) && !MoreDue(DEFAULT_POLICY, op, calls)
    requires op.outcome(0).Ok? || !op.outcome(0).error.Http?
    ensures |calls| == 1 && ResultOf(op, calls) == op.outcome(0)
  {
    MadeExactly(DEFAULT_POLICY, op, calls, 0);
    NothingAfterFinal(DEFAULT_POLICY, op, calls, 0);
  }
}
