/** The runs a job has in company: other jobs may bring its document in. */
module SharedProgress {
  import opened Prelude
  import opened QueueRow
  import opened IngestProtocol
  import opened EffectivelyOnce
  import opened IngestProgress

  /** Some bytes of this hash can be ingested under some strategy. */
  ghost predicate PlannableHash(env: Env, hash: string) {
    exists chunkStrategy, bytes :: env.hash(bytes) == hash && env.Plannable(chunkStrategy, bytes)
  }

  /** Every document in sight has a namespace that exists and a hash some job could ingest. */
  ghost predicate Sourced(env: Env, s: State) {
    && (forall d :: InSight(s, d) ==> d.namespace in env.namespaces && PlannableHash(env, d.hash))
    && (forall w :: w in s.workers && s.workers[w].pc.Missing? ==> PlannableHash(env, s.workers[w].pc.doc.hash))
  }

  /** No document comes into sight and no worker comes to plan one. */
  ghost predicate NoNewSource(s: State, s': State) {
    && (forall d :: InSight(s', d) ==> InSight(s, d))
    && (forall w :: w in s'.workers && s'.workers[w].pc.Missing? ==> w in s.workers && s.workers[w].pc == s'.workers[w].pc)
  }

  lemma CheckKeepsSourced(env: Env, s: State, w: WorkerId, bytes: seq<Byte>, docId: Uuid)
    requires Sourced(env, s) && Enabled(env, s, CheckHash(w, bytes, docId))
    ensures Sourced(env, Apply(env, s, CheckHash(w, bytes, docId)))
  {
    var s' := Apply(env, s, CheckHash(w, bytes, docId));
    assert forall d :: InSight(s', d) ==> InSight(s, d);
    assert env.Plannable(s.jobs[s.workers[w].job].chunkStrategy, bytes) ==> PlannableHash(env, env.hash(bytes));
  }

  lemma InsertKeepsSourced(env: Env, s: State, w: WorkerId)
    requires Sourced(env, s) && Enabled(env, s, InsertDoc(w))
    ensures Sourced(env, Apply(env, s, InsertDoc(w)))
  {
    var s' := Apply(env, s, InsertDoc(w));
    var doc := s.workers[w].pc.doc;
    forall d | InSight(s', d) ensures InSight(s, d) || (d == doc && doc.namespace in env.namespaces) {
      if d !in s'.docs {
        var v :| v in s'.workers && d in s'.workers[v].docs;
        assert v != w ==> d in s.workers[v].docs;
      }
    }
  }

  lemma OtherStepBringsNothing(env: Env, s: State, step: Step)
    requires Enabled(env, s, step) && !step.CheckHash? && !step.InsertDoc?
    ensures NoNewSource(s, Apply(env, s, step))
  {
    var s' := Apply(env, s, step);
    forall d | InSight(s', d) ensures InSight(s, d) {
      if d !in s.docs && d !in s'.docs {
        var v :| v in s'.workers && d in s'.workers[v].docs;
        assert v in s.workers && d in s.workers[v].docs;
      }
    }
  }

  lemma NoNewSourceKeeps(env: Env, s: State, s': State)
    requires Sourced(env, s) && NoNewSource(s, s')
    ensures Sourced(env, s')
  {
  }

  lemma StepKeepsSourced(env: Env, s: State, step: Step)
    requires Sourced(env, s) && Enabled(env, s, step)
    ensures Sourced(env, Apply(env, s, step))
  {
    if step.CheckHash? {
      CheckKeepsSourced(env, s, step.w, step.bytes, step.docId);
    } else if step.InsertDoc? {
      InsertKeepsSourced(env, s, step.w);
    } else {
      OtherStepBringsNothing(env, s, step);
      NoNewSourceKeeps(env, s, Apply(env, s, step));
    }
  }

  lemma {:induction false} RunKeepsSourced(env: Env, s: State, steps: seq<Step>)
    requires Sourced(env, s) && Playable(env, s, steps)
    ensures Sourced(env, Play(env, s, steps))
    decreases |steps|
  {
    if steps != [] {
      StepKeepsSourced(env, s, steps[0]);
      RunKeepsSourced(env, Apply(env, s, steps[0]), steps[1..]);
    }
  }

  /** Some continuation of the run, other jobs included, completes the job. */
  ghost predicate CanComplete(env: Env, s: State, id: JobId) {
    exists steps :: Playable(env, s, steps) && IsCompleted(Play(env, s, steps), id)
  }

  /** The job's document is in its namespace, or some job could still bring it there. */
  ghost predicate Reachable(env: Env, s: State, j: Job)
    requires j.payload.Some?
  {
    var hash := env.hash(j.payload.value);
    || Exists(s.docs, j.namespace, hash)
    || (!HashTaken(s.docs, hash) && j.namespace in env.namespaces && PlannableHash(env, hash))
  }

  /** A second job with the right bytes and strategy brings the document in. */
  lemma HelperBringsDocument(env: Env, s: State, id: JobId) returns (steps: seq<Step>)
    requires s.workers == map[] && id in s.jobs && s.jobs[id].payload.Some?
    requires !Exists(s.docs, s.jobs[id].namespace, env.hash(s.jobs[id].payload.value)) && Reachable(env, s, s.jobs[id])
    ensures Playable(env, s, steps)
    ensures var s', j := Play(env, s, steps), s.jobs[id];
      && s'.workers == map[] && id in s'.jobs && s'.jobs[id] == j
      && Exists(s'.docs, j.namespace, env.hash(j.payload.value))
  {
    var j := s.jobs[id];
    var hash := env.hash(j.payload.value);
    var chunkStrategy, bytes :| env.hash(bytes) == hash && env.Plannable(chunkStrategy, bytes);
    var helper := UnusedNumber(s.jobs.Keys);
    var docId := UnusedNumber(s.usedIds);
    var enqueue := Enqueue(helper, j.source, j.namespace, chunkStrategy, Some(bytes));
    var s1 := Apply(env, s, enqueue);
    assert s1.jobs[id] == j;
    LonePassCompletes(env, s1, 0, helper, docId);
    var run := PassFor(env, s1, 0, helper, docId);
    steps := [enqueue] + run;
    PlayStep(env, s, enqueue, run);
  }

  lemma QuietReachableCompletes(env: Env, s: State, id: JobId)
    requires s.workers == map[] && id in s.jobs && s.jobs[id].status == Queued && s.jobs[id].payload.Some?
    requires Reachable(env, s, s.jobs[id])
    ensures CanComplete(env, s, id)
  {
    var j := s.jobs[id];
    var steps := [];
    if !Exists(s.docs, j.namespace, env.hash(j.payload.value)) {
      steps := HelperBringsDocument(env, s, id);
    }
    var s' := Play(env, s, steps);
    var docId := UnusedNumber(s'.usedIds);
    LonePassCompletes(env, s', 0, id, docId);
    PlayConcat(env, s, steps, PassFor(env, s', 0, id, docId));
  }

  /** Busy workers stand in nobody's way for good: they may all crash. */
  lemma ReachableCompletes(env: Env, s: State, id: JobId)
    requires id in s.jobs && s.jobs[id].status == Queued && s.jobs[id].payload.Some? && Reachable(env, s, s.jobs[id])
    ensures CanComplete(env, s, id)
  {
    var crashes := CrashAll(env, s);
    var quiet := Play(env, s, crashes);
    QuietReachableCompletes(env, quiet, id);
    var steps :| Playable(env, quiet, steps) && IsCompleted(Play(env, quiet, steps), id);
    PlayConcat(env, s, crashes, steps);
  }

  lemma CompletedWasReachable(env: Env, s: State, id: JobId, steps: seq<Step>)
    requires Inv(env, s) && Sourced(env, s) && id in s.jobs && s.jobs[id].payload.Some?
    requires Playable(env, s, steps) && IsCompleted(Play(env, s, steps), id)
    ensures Reachable(env, s, s.jobs[id])
  {
    var d := CompletedHas(env, s, steps, id);
    RunKeepsSourced(env, s, steps);
    assert InSight(Play(env, s, steps), d);
    if HashTaken(s.docs, d.hash) {
      assert Exists(s.docs, s.jobs[id].namespace, d.hash);
    }
  }

  /**
   * In every reachable state, whatever the workers are doing, some continuation
   * completes a queued payload job if and only if its document is committed in
   * its namespace, or no document has its hash, its namespace exists, and some
   * bytes of that hash can be ingested under some strategy.
   */
  lemma CompletableExactly(env: Env, s0: State, before: seq<Step>, id: JobId)
    requires Initial(s0) && Playable(env, s0, before)
    requires var s := Play(env, s0, before);
      id in s.jobs && s.jobs[id].status == Queued && s.jobs[id].payload.Some?
    ensures var s := Play(env, s0, before); CanComplete(env, s, id) <==> Reachable(env, s, s.jobs[id])
  {
    var s := Play(env, s0, before);
    RunKeepsInv(env, s0, before);
    RunKeepsSourced(env, s0, before);
    if Reachable(env, s, s.jobs[id]) {
      ReachableCompletes(env, s, id);
    }
    if steps :| Playable(env, s, steps) && IsCompleted(Play(env, s, steps), id) {
      CompletedWasReachable(env, s, id, steps);
    }
  }

  /** A payload job completes only if its namespace exists and some bytes of its hash can be ingested. */
  lemma CompletedIsIngestible(env: Env, s0: State, steps: seq<Step>, id: JobId)
    requires Initial(s0) && Playable(env, s0, steps) && IsCompleted(Play(env, s0, steps), id)
    ensures var j := Play(env, s0, steps).jobs[id];
      j.payload.Some? ==> j.namespace in env.namespaces && PlannableHash(env, env.hash(j.payload.value))
  {
    var s := Play(env, s0, steps);
    RunKeepsInv(env, s0, steps);
    RunKeepsSourced(env, s0, steps);
    if s.jobs[id].payload.Some? {
      assert Present(env, s.jobs[id], s.docs);
      var d :| d in s.docs && Matches(env, s.jobs[id], d);
      assert InSight(s, d);
    }
  }
}
