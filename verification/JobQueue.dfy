/**
 * The ingest job table: how one row moves, and the statements that move it.
 */
module QueueRow {
  import opened Prelude

  type JobId = nat

  datatype Status = Queued | Running | Completed | Failed {
    predicate Terminal() {
      Completed? || Failed?
    }
  }

  datatype Job = Job(status: Status, source: string, namespace: string, chunkStrategy: string,
                     payload: Option<seq<Byte>>, error: Option<string>, attemptCount: nat,
                     enqueuedAt: int, startedAt: Option<int>, finishedAt: Option<int>, updatedAt: int)

  type Jobs = map<JobId, Job>

  const MAX_ATTEMPTS := 3

  function Enqueued(source: string, namespace: string, chunkStrategy: string, payload: Option<seq<Byte>>,
                    now: int): Job
  {
    Job(Queued, source, namespace, chunkStrategy, payload, None, 0, now, None, None, now)
  }

  function Claimed(j: Job, now: int): Job {
    j.(status := Running, startedAt := if j.startedAt.Some? then j.startedAt else Some(now),
       updatedAt := now, attemptCount := j.attemptCount + 1)
  }

  /** Neither finaliser looks at the status it overwrites. */
  function MarkedCompleted(j: Job, now: int): Job {
    j.(status := Completed, finishedAt := Some(now), updatedAt := now, error := None)
  }

  function MarkedFailed(j: Job, now: int, error: string): Job {
    j.(status := Failed, finishedAt := Some(now), updatedAt := now, error := Some(error))
  }

  predicate Stale(j: Job, now: int, interval: int) {
    j.status == Running && j.updatedAt < now - interval
  }

  predicate Requeueable(j: Job, now: int, interval: int) {
    Stale(j, now, interval) && j.attemptCount < MAX_ATTEMPTS
  }

  predicate Exhausted(j: Job, now: int, interval: int) {
    Stale(j, now, interval) && j.attemptCount >= MAX_ATTEMPTS
  }

  function Requeued(j: Job, now: int): Job {
    j.(status := Queued, updatedAt := now)
  }

  function ReapFailed(j: Job, now: int): Job {
    j.(status := Failed,
       error := Some((if j.error.Some? then j.error.value else "") + " (reaper: max attempts reached)"),
       finishedAt := Some(now), updatedAt := now)
  }

  /** The reaper's first statement. */
  function RequeueAll(jobs: Jobs, now: int, interval: int): (r: Jobs)
    ensures r.Keys == jobs.Keys
  {
    map id | id in jobs :: if Requeueable(jobs[id], now, interval) then Requeued(jobs[id], now) else jobs[id]
  }

  /** The reaper's second statement. */
  function FailAll(jobs: Jobs, now: int, interval: int): (r: Jobs)
    ensures r.Keys == jobs.Keys
  {
    map id | id in jobs :: if Exhausted(jobs[id], now, interval) then ReapFailed(jobs[id], now) else jobs[id]
  }

  /** What a row comes to in one sweep: stale rows are requeued below three attempts and failed from there on. */
  lemma SweepWrites(jobs: Jobs, now: int, interval: int, id: JobId)
    requires id in jobs
    ensures var j := jobs[id];
      FailAll(RequeueAll(jobs, now, interval), now, interval)[id] ==
        if j.status == Running && j.updatedAt < now - interval then
          if j.attemptCount < 3 then j.(status := Queued, updatedAt := now)
          else j.(status := Failed, finishedAt := Some(now), updatedAt := now,
                  error := Some((if j.error.Some? then j.error.value else "") + " (reaper: max attempts reached)"))
        else j
  {
  }

  /** The rows the two statements of a sweep update; the first takes none from the second. */
  function RequeuedIds(jobs: Jobs, now: int, interval: int): (ids: set<JobId>)
    ensures ids == set id | id in jobs && jobs[id].status == Running && jobs[id].updatedAt < now - interval
                            && jobs[id].attemptCount < 3
  {
    set id | id in jobs && Requeueable(jobs[id], now, interval)
  }

  function FailedIds(jobs: Jobs, now: int, interval: int): (ids: set<JobId>)
    ensures ids == set id | id in jobs && jobs[id].status == Running && jobs[id].updatedAt < now - interval
                            && jobs[id].attemptCount >= 3
  {
    set id | id in jobs && Exhausted(jobs[id], now, interval)
  }

  lemma RequeuedStay(jobs: Jobs, now: int, interval: int)
    ensures FailedIds(RequeueAll(jobs, now, interval), now, interval) == FailedIds(jobs, now, interval)
  {
  }

  /** What no statement on an existing row changes. */
  predicate SameContent(j: Job, k: Job) {
    j.namespace == k.namespace && j.payload == k.payload && j.source == k.source && j.chunkStrategy == k.chunkStrategy
  }
}

module JobQueue {
  import opened Prelude
  import opened QueueRow

  datatype ClaimedJob = ClaimedJob(id: JobId, source: Option<string>, namespace: string,
                                   chunkStrategy: Option<string>, payload: Option<seq<Byte>>, attemptCount: nat)

  datatype ReapOutcome = ReapOutcome(requeued: nat, failed: nat)

  /** `id` is the oldest queued row among those no other claim has locked. */
  ghost predicate OldestQueued(jobs: Jobs, locked: set<JobId>, id: JobId) {
    && id in jobs && id !in locked && jobs[id].status == Queued
    && forall k :: k in jobs && k !in locked && jobs[k].status == Queued ==> jobs[id].enqueuedAt <= jobs[k].enqueuedAt
  }

  lemma {:induction false} OldestExists(jobs: Jobs, ids: set<JobId>)
    requires ids != {} && ids <= jobs.Keys
    ensures exists id :: id in ids && forall k :: k in ids ==> jobs[id].enqueuedAt <= jobs[k].enqueuedAt
  {
    var any :| any in ids;
    var rest := ids - {any};
    if rest == {} {
      assert ids == {any};
    } else {
      OldestExists(jobs, rest);
      var eldest :| eldest in rest && forall k :: k in rest ==> jobs[eldest].enqueuedAt <= jobs[k].enqueuedAt;
      var id := if jobs[any].enqueuedAt < jobs[eldest].enqueuedAt then any else eldest;
      assert id in ids && forall k :: k in ids ==> jobs[id].enqueuedAt <= jobs[k].enqueuedAt;
    }
  }

  class JobQueue {
    var jobs: Jobs

    constructor ()
      ensures jobs == map[]
    {
      jobs := map[];
    }

    method Enqueue(id: JobId, source: string, namespace: string, chunkStrategy: string,
                   payload: Option<seq<Byte>>, now: int)
      requires id !in jobs
      modifies this
      ensures jobs == old(jobs)[id := Job(Queued, source, namespace, chunkStrategy, payload, None, 0, now, None, None, now)]
    {
      jobs := jobs[id := Enqueued(source, namespace, chunkStrategy, payload, now)];
    }

    /** Claims the oldest queued row, skipping rows locked by concurrent claims. */
    method ClaimNextJob(now: int, locked: set<JobId>) returns (claimed: Option<ClaimedJob>)
      modifies this
      ensures claimed.None? ==>
        jobs == old(jobs) && forall k :: k in jobs && k !in locked ==> jobs[k].status != Queued
      ensures claimed.Some? ==>
        var c := claimed.value;
        && c.id in old(jobs) && c.id !in locked && old(jobs)[c.id].status == Queued
        && (forall k :: k in old(jobs) && k !in locked && old(jobs)[k].status == Queued ==>
              old(jobs)[c.id].enqueuedAt <= old(jobs)[k].enqueuedAt)
        && var j := old(jobs)[c.id];
           && jobs == old(jobs)[c.id := j.(status := Running, attemptCount := j.attemptCount + 1, updatedAt := now,
                                           startedAt := if j.startedAt.Some? then j.startedAt else Some(now))]
           && c.attemptCount == j.attemptCount + 1
           && c.namespace == j.namespace && c.payload == j.payload
           && c.source == Some(j.source) && c.chunkStrategy == Some(j.chunkStrategy)
    {
      var queued := set k | k in jobs && k !in locked && jobs[k].status == Queued;
      assert forall k :: k in jobs && k !in locked && jobs[k].status == Queued ==> k in queued;
      if queued == {} {
        return None;
      }
      OldestExists(jobs, queued);
      var id :| id in queued && forall k :: k in queued ==> jobs[id].enqueuedAt <= jobs[k].enqueuedAt;
      var job := Claimed(jobs[id], now);
      jobs := jobs[id := job];
      return Some(ClaimedJob(id, Some(job.source), job.namespace, Some(job.chunkStrategy), job.payload,
                             job.attemptCount));
    }

    method CompleteJob(id: JobId, now: int)
      modifies this
      ensures id !in old(jobs) ==> jobs == old(jobs)
      ensures id in old(jobs) ==> jobs == old(jobs)[id :=
        old(jobs)[id].(status := Completed, finishedAt := Some(now), updatedAt := now, error := None)]
    {
      if id in jobs {
        jobs := jobs[id := MarkedCompleted(jobs[id], now)];
      }
    }

    method FailJob(id: JobId, error: string, now: int)
      modifies this
      ensures id !in old(jobs) ==> jobs == old(jobs)
      ensures id in old(jobs) ==> jobs == old(jobs)[id :=
        old(jobs)[id].(status := Failed, finishedAt := Some(now), updatedAt := now, error := Some(error))]
    {
      if id in jobs {
        jobs := jobs[id := MarkedFailed(jobs[id], now, error)];
      }
    }

    /**
     * One sweep. A stale running row is requeued below the attempt cap and
     * failed at the cap; every other row stays as it is.
     */
    method ReapStaleJobs(now: int, interval: int) returns (outcome: ReapOutcome)
      modifies this
      ensures jobs.Keys == old(jobs).Keys
      ensures forall id :: id in jobs ==>
        var j := old(jobs)[id];
        jobs[id] ==
          if j.status == Running && j.updatedAt < now - interval then
            if j.attemptCount < 3 then j.(status := Queued, updatedAt := now)
            else j.(status := Failed, finishedAt := Some(now), updatedAt := now,
                    error := Some((if j.error.Some? then j.error.value else "") + " (reaper: max attempts reached)"))
          else j
      ensures outcome.requeued == |RequeuedIds(old(jobs), now, interval)|
      ensures outcome.failed == |FailedIds(old(jobs), now, interval)|
    {
      forall id | id in jobs {
        SweepWrites(jobs, now, interval, id);
      }
      RequeuedStay(jobs, now, interval);
      var requeued := RequeuedIds(jobs, now, interval);
      jobs := RequeueAll(jobs, now, interval);
      var failed := FailedIds(jobs, now, interval);
      jobs := FailAll(jobs, now, interval);
      outcome := ReapOutcome(|requeued|, |failed|);
    }
  }
}
