/**
 * Mutual exclusion under a lease: the reaper takes a job away from its worker
 * after an interval, so a job has one holder as long as no live worker keeps
 * one longer than that.
 */
module LeaseExclusion {
  import opened Prelude
  import opened QueueRow
  import opened IngestProtocol

  /** No live worker has held its job longer than the reaper interval. */
  ghost predicate InLease(env: Env, s: State) {
    forall w :: w in s.workers ==> s.now - s.workers[w].since <= env.interval
  }

  /** Every held job is running, on the clock of its holder, and has no other holder. */
  ghost predicate Exclusive(s: State) {
    && (forall w :: w in s.workers ==>
          var k := s.workers[w];
          k.job in s.jobs && s.jobs[k.job].status == Running && s.jobs[k.job].updatedAt == k.since)
    && (forall v, w :: v in s.workers && w in s.workers && s.workers[v].job == s.workers[w].job ==> v == w)
  }

  predicate Sweeps(step: Step) {
    step.Requeue? || step.ReapFail?
  }

  /** The lease holds whenever the reaper runs. */
  ghost predicate LeaseKept(env: Env, s: State, steps: seq<Step>)
    requires Playable(env, s, steps)
    decreases |steps|
  {
    steps == [] ||
    ((Sweeps(steps[0]) ==> InLease(env, s)) && LeaseKept(env, Apply(env, s, steps[0]), steps[1..]))
  }

  /** The workers of `s'` hold what they held, since when they held it, and the rows of their jobs stand still. */
  ghost predicate HoldersStand(s: State, s': State) {
    forall w :: w in s'.workers ==>
      && w in s.workers && s'.workers[w].job == s.workers[w].job && s'.workers[w].since == s.workers[w].since
      && (s.workers[w].job in s.jobs ==>
            s.workers[w].job in s'.jobs && s'.jobs[s.workers[w].job] == s.jobs[s.workers[w].job])
  }

  lemma StandingKeepsExclusive(s: State, s': State)
    requires Exclusive(s) && HoldersStand(s, s')
    ensures Exclusive(s')
  {
  }

  /** The step is not a sweep that takes a held job away. */
  ghost predicate Spares(env: Env, s: State, step: Step) {
    forall w :: w in s.workers && s.workers[w].job in s.jobs ==>
      var j := s.jobs[s.workers[w].job];
      && (step.Requeue? ==> !Requeueable(j, s.now, env.interval))
      && (step.ReapFail? ==> !Exhausted(j, s.now, env.interval))
  }

  lemma LeaseSpares(env: Env, s: State, step: Step)
    requires Exclusive(s) && (Sweeps(step) ==> InLease(env, s))
    ensures Spares(env, s, step)
  {
  }

  lemma SweepKeepsExclusive(env: Env, s: State, step: Step)
    requires Exclusive(s) && Sweeps(step) && Spares(env, s, step)
    ensures Exclusive(Apply(env, s, step))
  {
    assert HoldersStand(s, Apply(env, s, step));
    StandingKeepsExclusive(s, Apply(env, s, step));
  }

  /** A job that a sweep takes away is not running any more. */
  lemma TakingBreaksExclusive(env: Env, s: State, step: Step)
    requires Exclusive(s) && !Spares(env, s, step)
    ensures Enabled(env, s, step) && !Exclusive(Apply(env, s, step))
  {
    var w :| w in s.workers && s.workers[w].job in s.jobs &&
      var j := s.jobs[s.workers[w].job];
      (step.Requeue? && Requeueable(j, s.now, env.interval)) || (step.ReapFail? && Exhausted(j, s.now, env.interval));
    assert Apply(env, s, step).jobs[s.workers[w].job].status != Running;
  }

  /** A claimed job was queued, so nobody held it. */
  lemma ClaimKeepsExclusive(env: Env, s: State, w: WorkerId, id: JobId)
    requires Exclusive(s) && Enabled(env, s, Claim(w, id))
    ensures Exclusive(Apply(env, s, Claim(w, id)))
  {
  }

  /** A finalised job has no holder left. */
  lemma FinalisedKeepsExclusive(s: State, w: WorkerId, j: Job)
    requires Exclusive(s) && At(s, w)
    ensures Exclusive(Finalised(s, w, j))
  {
    assert HoldersStand(s, Finalised(s, w, j));
    StandingKeepsExclusive(s, Finalised(s, w, j));
  }

  predicate Finalises(step: Step) {
    step.MarkCompleted? || step.MarkFailed?
  }

  /** A worker that moves on with its job leaves the holders and their rows as they are. */
  lemma PutStands(s: State, s': State, w: WorkerId)
    requires w in s.workers && w in s'.workers && s'.workers == s.workers[w := s'.workers[w]] && s'.jobs == s.jobs
    requires s'.workers[w].job == s.workers[w].job && s'.workers[w].since == s.workers[w].since
    ensures HoldersStand(s, s')
  {
  }

  /** So does every other step. */
  lemma OtherKeepsExclusive(env: Env, s: State, step: Step)
    requires Exclusive(s) && Enabled(env, s, step) && !Sweeps(step) && !step.Claim? && !Finalises(step)
    ensures Exclusive(Apply(env, s, step))
  {
    if !step.Enqueue? && !step.Tick? && !step.Crash? {
      PutStands(s, Apply(env, s, step), step.w);
    }
    StandingKeepsExclusive(s, Apply(env, s, step));
  }

  lemma StepKeepsExclusive(env: Env, s: State, step: Step)
    requires Exclusive(s) && Enabled(env, s, step) && Spares(env, s, step)
    ensures Exclusive(Apply(env, s, step))
  {
    if step.Claim? {
      ClaimKeepsExclusive(env, s, step.w, step.id);
    } else if step.MarkCompleted? {
      FinalisedKeepsExclusive(s, step.w, MarkedCompleted(s.jobs[s.workers[step.w].job], s.now));
    } else if step.MarkFailed? {
      FinalisedKeepsExclusive(s, step.w, MarkedFailed(s.jobs[s.workers[step.w].job], s.now, step.error));
    } else if Sweeps(step) {
      SweepKeepsExclusive(env, s, step);
    } else {
      OtherKeepsExclusive(env, s, step);
    }
  }

  /** Exclusion holds before, between and after the steps. */
  ghost predicate AlwaysExclusive(env: Env, s: State, steps: seq<Step>)
    requires Playable(env, s, steps)
    decreases |steps|
  {
    Exclusive(s) && (steps != [] ==> AlwaysExclusive(env, Apply(env, s, steps[0]), steps[1..]))
  }

  /** No sweep of the run meets a held job that it takes away. */
  ghost predicate SweepsSpare(env: Env, s: State, steps: seq<Step>)
    requires Playable(env, s, steps)
    decreases |steps|
  {
    steps != [] ==> Spares(env, s, steps[0]) && SweepsSpare(env, Apply(env, s, steps[0]), steps[1..])
  }

  /**
   * Exclusion holds all along a run if and only if no requeueing meets a held
   * job that is stale and below the attempt cap, and no reaping one that is
   * stale and at the cap.
   */
  lemma {:induction false} ExclusiveExactly(env: Env, s: State, steps: seq<Step>)
    requires Exclusive(s) && Playable(env, s, steps)
    ensures AlwaysExclusive(env, s, steps) <==> SweepsSpare(env, s, steps)
    decreases |steps|
  {
    if steps != [] {
      if Spares(env, s, steps[0]) {
        StepKeepsExclusive(env, s, steps[0]);
        ExclusiveExactly(env, Apply(env, s, steps[0]), steps[1..]);
      } else {
        TakingBreaksExclusive(env, s, steps[0]);
      }
    }
  }

  /** Over every run that keeps the lease, a job has at most one holder and a held job is running. */
  lemma {:induction false} MutualExclusion(env: Env, s: State, steps: seq<Step>)
    requires (Initial(s) || Exclusive(s)) && Playable(env, s, steps) && LeaseKept(env, s, steps)
    ensures AlwaysExclusive(env, s, steps) && Exclusive(Play(env, s, steps))
    decreases |steps|
  {
    if steps != [] {
      LeaseSpares(env, s, steps[0]);
      StepKeepsExclusive(env, s, steps[0]);
      MutualExclusion(env, Apply(env, s, steps[0]), steps[1..]);
    }
  }

  function Sweep(env: Env, s: State): State {
    Apply(env, Apply(env, s, Requeue), ReapFail)
  }

  /** The lease is exactly what a sweep needs: it keeps exclusion if and only if no live holder is overdue. */
  lemma SweepExact(env: Env, s: State)
    requires Exclusive(s)
    ensures Exclusive(Sweep(env, s)) <==> InLease(env, s)
  {
    if InLease(env, s) {
      LeaseSpares(env, s, Requeue);
      StepKeepsExclusive(env, s, Requeue);
      LeaseSpares(env, Apply(env, s, Requeue), ReapFail);
      StepKeepsExclusive(env, Apply(env, s, Requeue), ReapFail);
    } else {
      var w :| w in s.workers && s.now - s.workers[w].since > env.interval;
      assert Sweep(env, s).jobs[s.workers[w].job].status != Running;
    }
  }

  /** What an overdue holder leads to: the sweep hands its job to a second worker. */
  lemma OverdueJobGetsSecondHolder(env: Env, s: State, w: WorkerId, v: WorkerId)
    requires Exclusive(s) && w in s.workers && v !in s.workers
    requires s.now - s.workers[w].since > env.interval && s.jobs[s.workers[w].job].attemptCount < MAX_ATTEMPTS
    ensures var id, s' := s.workers[w].job, Sweep(env, s);
      && Enabled(env, s', Claim(v, id))
      && var s'' := Apply(env, s', Claim(v, id));
         w != v && w in s''.workers && v in s''.workers && s''.workers[w].job == s''.workers[v].job == id
  {
    var id := s.workers[w].job;
    var s1 := Apply(env, s, Requeue);
    assert s1.jobs[id] == Requeued(s.jobs[id], s.now);
    assert Apply(env, s1, ReapFail).jobs[id] == s1.jobs[id];
  }

  /** Worker 1 claims a job and outlives the interval. */
  function Outliving(interval: nat): seq<Step> {
    [Enqueue(0, "d", "ns", "auto", None)] + ([Claim(1, 0)] + ([Tick(interval + 1)] + []))
  }

  /** The job is swept and claimed by worker 2. */
  function SweptAndClaimed(): seq<Step> {
    [Requeue] + ([ReapFail] + ([Claim(2, 0)] + []))
  }

  /** Worker 1 holds job 0 past the interval, with attempts left. */
  ghost predicate OverdueAtOne(env: Env, s: State) {
    && Exclusive(s) && 1 in s.workers && s.workers[1].job == 0 && 2 !in s.workers
    && s.now - s.workers[1].since > env.interval && s.jobs[0].attemptCount < MAX_ATTEMPTS
  }

  lemma OutlivingIsOverdue(env: Env, s0: State)
    requires Initial(s0)
    ensures Playable(env, s0, Outliving(env.interval)) && OverdueAtOne(env, Play(env, s0, Outliving(env.interval)))
  {
    var enqueue, claim, tick := Enqueue(0, "d", "ns", "auto", None), Claim(1, 0), Tick(env.interval + 1);
    var s1 := Apply(env, s0, enqueue);
    var s2 := Apply(env, s1, claim);
    ClaimKeepsExclusive(env, s1, 1, 0);
    PlayStep(env, s2, tick, []);
    PlayStep(env, s1, claim, [tick] + []);
    PlayStep(env, s0, enqueue, [claim] + ([tick] + []));
  }

  lemma OverdueIsTaken(env: Env, s: State)
    requires OverdueAtOne(env, s)
    ensures Playable(env, s, SweptAndClaimed())
    ensures var s' := Play(env, s, SweptAndClaimed());
      1 in s'.workers && 2 in s'.workers && s'.workers[1].job == s'.workers[2].job == 0
  {
    OverdueJobGetsSecondHolder(env, s, 1, 2);
    PlayStep(env, Sweep(env, s), Claim(2, 0), []);
    PlayStep(env, Apply(env, s, Requeue), ReapFail, [Claim(2, 0)] + []);
    PlayStep(env, s, Requeue, [ReapFail] + ([Claim(2, 0)] + []));
  }

  /** Without the lease exclusion fails, whatever the interval: a run in which two workers hold one job. */
  lemma TwoHolders(env: Env, s0: State)
    requires Initial(s0)
    ensures var run := Outliving(env.interval) + SweptAndClaimed();
      && Playable(env, s0, run)
      && var s := Play(env, s0, run); 1 in s.workers && 2 in s.workers && s.workers[1].job == s.workers[2].job == 0
  {
    OutlivingIsOverdue(env, s0);
    OverdueIsTaken(env, Play(env, s0, Outliving(env.interval)));
    PlayConcat(env, s0, Outliving(env.interval), SweptAndClaimed());
  }
}
