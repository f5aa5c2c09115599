/**
 * Bounded retries over every run of the ingest protocol, late finalisers
 * included: each job is claimed at most three times, and claimed or swept at
 * most six times in all.
 */
module BoundedRetries {
  import opened QueueRow
  import opened IngestProtocol

  predicate RowOk(j: Job) {
    j.attemptCount <= MAX_ATTEMPTS && (j.status == Queued ==> j.attemptCount < MAX_ATTEMPTS)
  }

  /** Claims and sweeps a job can still go through. */
  function Measure(j: Job): int {
    match j.status
    case Queued => 2 * (MAX_ATTEMPTS - j.attemptCount)
    case Running => 2 * (MAX_ATTEMPTS - j.attemptCount) + 1
    case _ => 0
  }

  predicate Claims(step: Step, id: JobId) {
    step.Claim? && step.id == id
  }

  /** The step claims, requeues or reaps job `id`. */
  predicate Moves(env: Env, s: State, step: Step, id: JobId) {
    || Claims(step, id)
    || (step.Requeue? && id in s.jobs && Requeueable(s.jobs[id], s.now, env.interval))
    || (step.ReapFail? && id in s.jobs && Exhausted(s.jobs[id], s.now, env.interval))
  }

  /**
   * One step of a known job: claims count up, a final status is never left,
   * and the measure drops on claims and sweeps and never rises.
   */
  lemma StepOfJob(env: Env, s: State, step: Step, id: JobId)
    requires Enabled(env, s, step) && id in s.jobs && RowOk(s.jobs[id])
    ensures id in Apply(env, s, step).jobs
    ensures var j, j' := s.jobs[id], Apply(env, s, step).jobs[id];
      && RowOk(j')
      && j'.attemptCount == j.attemptCount + (if Claims(step, id) then 1 else 0)
      && (j.status.Terminal() ==> j'.status.Terminal())
      && (step.MarkCompleted? && s.workers[step.w].job == id ==> j'.status == Completed)
      && (step.MarkFailed? && s.workers[step.w].job == id ==> j'.status == Failed)
      && Measure(j') <= Measure(j) - (if Moves(env, s, step, id) then 1 else 0)
  {
  }

  lemma StepOfNewJob(env: Env, s: State, step: Step, id: JobId)
    requires Enabled(env, s, step) && id !in s.jobs
    ensures !Moves(env, s, step, id)
    ensures id in Apply(env, s, step).jobs ==>
      var j := Apply(env, s, step).jobs[id]; j.status == Queued && j.attemptCount == 0
  {
  }

  function ClaimCount(steps: seq<Step>, id: JobId): nat {
    if steps == [] then 0 else (if Claims(steps[0], id) then 1 else 0) + ClaimCount(steps[1..], id)
  }

  function MoveCount(env: Env, s: State, steps: seq<Step>, id: JobId): nat
    requires Playable(env, s, steps)
    decreases |steps|
  {
    if steps == [] then 0
    else (if Moves(env, s, steps[0], id) then 1 else 0) + MoveCount(env, Apply(env, s, steps[0]), steps[1..], id)
  }

  /** What the count of claims and the measure of a job come to over a run that starts with the job known. */
  lemma {:induction false} RunOfJob(env: Env, s: State, steps: seq<Step>, id: JobId)
    requires Playable(env, s, steps) && id in s.jobs && RowOk(s.jobs[id])
    ensures id in Play(env, s, steps).jobs
    ensures var j, j' := s.jobs[id], Play(env, s, steps).jobs[id];
      && RowOk(j')
      && j'.attemptCount == j.attemptCount + ClaimCount(steps, id)
      && (j.status.Terminal() ==> j'.status.Terminal())
      && MoveCount(env, s, steps, id) + Measure(j') <= Measure(j)
    decreases |steps|
  {
    if steps != [] {
      StepOfJob(env, s, steps[0], id);
      RunOfJob(env, Apply(env, s, steps[0]), steps[1..], id);
    }
  }

  /** The same, from the job's enqueueing on. */
  lemma {:induction false} RunOfNewJob(env: Env, s: State, steps: seq<Step>, id: JobId)
    requires Playable(env, s, steps) && id !in s.jobs
    ensures id in Play(env, s, steps).jobs ==>
      var j := Play(env, s, steps).jobs[id];
      RowOk(j) && j.attemptCount == ClaimCount(steps, id) && MoveCount(env, s, steps, id) + Measure(j) <= 2 * MAX_ATTEMPTS
    ensures id !in Play(env, s, steps).jobs ==> MoveCount(env, s, steps, id) == 0
    decreases |steps|
  {
    if steps != [] {
      StepOfNewJob(env, s, steps[0], id);
      var s' := Apply(env, s, steps[0]);
      if id in s'.jobs {
        RunOfJob(env, s', steps[1..], id);
      } else {
        RunOfNewJob(env, s', steps[1..], id);
      }
    }
  }

  /**
   * Over every run, each job's attempt count is the number of its claims and
   * at most three, at most two while it is queued, and at most six steps claim
   * or sweep it.
   */
  lemma BoundedRetries(env: Env, s0: State, steps: seq<Step>, id: JobId)
    requires Initial(s0) && Playable(env, s0, steps)
    ensures MoveCount(env, s0, steps, id) <= 6
    ensures id in Play(env, s0, steps).jobs ==>
      var j := Play(env, s0, steps).jobs[id];
      && j.attemptCount == ClaimCount(steps, id) <= 3
      && (j.status == Queued ==> j.attemptCount <= 2)
  {
    RunOfNewJob(env, s0, steps, id);
    if id in Play(env, s0, steps).jobs {
      assert Measure(Play(env, s0, steps).jobs[id]) >= 0;
    }
  }

  /** {completed, failed} is never left, however the run goes on. */
  lemma FinalStaysFinal(env: Env, s0: State, before: seq<Step>, after: seq<Step>, id: JobId)
    requires Initial(s0) && Playable(env, s0, before) && Playable(env, Play(env, s0, before), after)
    requires var s := Play(env, s0, before); id in s.jobs && s.jobs[id].status.Terminal()
    ensures var s' := Play(env, Play(env, s0, before), after);
      id in s'.jobs && s'.jobs[id].status.Terminal() && s'.jobs[id].attemptCount == Play(env, s0, before).jobs[id].attemptCount
  {
    var s := Play(env, s0, before);
    RunOfNewJob(env, s0, before, id);
    RunOfJob(env, s, after, id);
    NoClaimsLeft(env, s, after, id);
  }

  /** A job in a final status is not claimed again. */
  lemma {:induction false} NoClaimsLeft(env: Env, s: State, steps: seq<Step>, id: JobId)
    requires Playable(env, s, steps) && id in s.jobs && RowOk(s.jobs[id]) && s.jobs[id].status.Terminal()
    ensures ClaimCount(steps, id) == 0
    decreases |steps|
  {
    if steps != [] {
      StepOfJob(env, s, steps[0], id);
      NoClaimsLeft(env, Apply(env, s, steps[0]), steps[1..], id);
    }
  }
}
