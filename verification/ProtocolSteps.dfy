/**
 * What each step of the ingest protocol writes, column by column, and what it
 * leaves alone.
 */
module ProtocolSteps {
  import opened Prelude
  import opened QueueRow
  import opened IngestProtocol

  /** Claims, finalisers and new rows; every other step but the sweeps leaves the job table as it is. */
  lemma RowsWritten(env: Env, s: State, step: Step)
    requires Enabled(env, s, step) && !step.Requeue? && !step.ReapFail?
    ensures Apply(env, s, step).jobs ==
      match step
      case Enqueue(id, source, namespace, chunkStrategy, payload) =>
        s.jobs[id := Job(Queued, source, namespace, chunkStrategy, payload, None, 0, s.now, None, None, s.now)]
      case Claim(_, id) =>
        var j := s.jobs[id];
        s.jobs[id := j.(status := Running, attemptCount := j.attemptCount + 1, updatedAt := s.now,
                        startedAt := if j.startedAt.Some? then j.startedAt else Some(s.now))]
      case MarkCompleted(w) =>
        var id := s.workers[w].job;
        s.jobs[id := s.jobs[id].(status := Completed, finishedAt := Some(s.now), updatedAt := s.now, error := None)]
      case MarkFailed(w, error) =>
        var id := s.workers[w].job;
        s.jobs[id := s.jobs[id].(status := Failed, finishedAt := Some(s.now), updatedAt := s.now, error := Some(error))]
      case _ => s.jobs
  {
  }

  /** The reaper's two statements, row by row: which rows they take, and what becomes of them. */
  lemma SweepsWrite(env: Env, s: State, id: JobId)
    requires id in s.jobs
    ensures var j := s.jobs[id];
      var stale := j.status == Running && j.updatedAt < s.now - env.interval;
      && Apply(env, s, Requeue).jobs.Keys == Apply(env, s, ReapFail).jobs.Keys == s.jobs.Keys
      && Apply(env, s, Requeue).jobs[id] ==
           (if stale && j.attemptCount < 3 then j.(status := Queued, updatedAt := s.now) else j)
      && Apply(env, s, ReapFail).jobs[id] ==
           (if stale && j.attemptCount >= 3 then
              j.(status := Failed, finishedAt := Some(s.now), updatedAt := s.now,
                 error := Some((if j.error.Some? then j.error.value else "") + " (reaper: max attempts reached)"))
            else j)
  {
  }

  /** Only a commit makes rows visible, and it makes exactly those its transaction wrote visible. */
  lemma DataWritten(env: Env, s: State, step: Step)
    requires Enabled(env, s, step)
    ensures var s' := Apply(env, s, step);
      if step.Commit? then
        s'.docs == s.docs + s.workers[step.w].docs && s'.chunks == s.chunks + s.workers[step.w].chunks
      else s'.docs == s.docs && s'.chunks == s.chunks
    ensures step.Rollback? ==>
      Apply(env, s, step).workers[step.w].docs == {} && Apply(env, s, step).workers[step.w].chunks == {}
  {
  }

  /** Whose step it is, if it is a worker's. */
  function Mover(step: Step): Option<WorkerId> {
    if step.Enqueue? || step.Requeue? || step.ReapFail? || step.Tick? then None else Some(step.w)
  }

  /** A step changes no other worker and no other worker's open transaction. */
  lemma OthersUndisturbed(env: Env, s: State, step: Step, v: WorkerId)
    requires Enabled(env, s, step) && Mover(step) != Some(v)
    ensures v in Apply(env, s, step).workers <==> v in s.workers
    ensures v in s.workers ==> Apply(env, s, step).workers[v] == s.workers[v]
  {
  }
}
