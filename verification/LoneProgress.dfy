/** The runs a job has to itself: no job is enqueued, no other is claimed, and the workers of others only crash. */
module LoneProgress {
  import opened Prelude
  import opened QueueRow
  import opened IngestProtocol
  import opened EffectivelyOnce
  import opened IngestProgress

  /** The step claims no other job and enqueues none. */
  predicate ClaimsNoOther(step: Step, id: JobId) {
    !step.Enqueue? && (step.Claim? ==> step.id == id)
  }

  /** The step is the clock's, the reaper's, a crash, or taken for job `id`. */
  predicate OwnStep(s: State, step: Step, id: JobId) {
    && ClaimsNoOther(step, id)
    && (step.Claim? || step.Requeue? || step.ReapFail? || step.Tick? || step.Crash? ||
        (step.w in s.workers && s.workers[step.w].job == id))
  }

  predicate OwnRun(env: Env, s: State, steps: seq<Step>, id: JobId)
    requires Playable(env, s, steps)
    decreases |steps|
  {
    steps == [] || (OwnStep(s, steps[0], id) && OwnRun(env, Apply(env, s, steps[0]), steps[1..], id))
  }

  /** Some run of the job's own completes it. */
  ghost predicate CanCompleteAlone(env: Env, s: State, id: JobId) {
    exists steps :: Playable(env, s, steps) && OwnRun(env, s, steps, id) && IsCompleted(Play(env, s, steps), id)
  }

  lemma {:induction false} OwnConcat(env: Env, s: State, first: seq<Step>, second: seq<Step>, id: JobId)
    requires Playable(env, s, first) && OwnRun(env, s, first, id)
    requires Playable(env, Play(env, s, first), second) && OwnRun(env, Play(env, s, first), second, id)
    ensures Playable(env, s, first + second) && OwnRun(env, s, first + second, id)
    ensures Play(env, s, first + second) == Play(env, Play(env, s, first), second)
    decreases |first|
  {
    PlayConcat(env, s, first, second);
    if first == [] {
      assert first + second == second;
    } else {
      OwnConcat(env, Apply(env, s, first[0]), first[1..], second, id);
      assert (first + second)[1..] == first[1..] + second;
    }
  }

  lemma {:induction false} CrashesAreOwn(env: Env, s: State, steps: seq<Step>, id: JobId)
    requires Playable(env, s, steps) && forall i :: 0 <= i < |steps| ==> steps[i].Crash?
    ensures OwnRun(env, s, steps, id)
    decreases |steps|
  {
    if steps != [] {
      CrashesAreOwn(env, Apply(env, s, steps[0]), steps[1..], id);
    }
  }

  /** Where nobody works on another job, a run that claims and enqueues no other is the job's own. */
  lemma {:induction false} UndisturbedIsOwn(env: Env, s: State, steps: seq<Step>, id: JobId)
    requires Playable(env, s, steps) && forall i :: 0 <= i < |steps| ==> ClaimsNoOther(steps[i], id)
    requires forall w :: w in s.workers ==> s.workers[w].job == id
    ensures OwnRun(env, s, steps, id)
    decreases |steps|
  {
    if steps != [] {
      UndisturbedIsOwn(env, Apply(env, s, steps[0]), steps[1..], id);
    }
  }

  lemma {:induction false} WritingClaimsNoOther(w: WorkerId, left: nat, id: JobId)
    ensures forall i :: 0 <= i < |WritingRest(w, left)| ==> ClaimsNoOther(WritingRest(w, left)[i], id)
  {
    if left > 0 {
      WritingClaimsNoOther(w, left - 1, id);
    }
  }

  lemma ReadyCompletesAlone(env: Env, s: State, id: JobId)
    requires id in s.jobs && s.jobs[id].status == Queued && s.jobs[id].payload.Some? && Ready(env, s, s.jobs[id])
    ensures CanCompleteAlone(env, s, id)
  {
    var crashes := CrashAll(env, s);
    CrashesAreOwn(env, s, crashes, id);
    var quiet := Play(env, s, crashes);
    var docId := UnusedNumber(quiet.usedIds);
    var run := PassFor(env, quiet, 0, id, docId);
    LonePassCompletes(env, quiet, 0, id, docId);
    PassClaimsNoOther(env, quiet, id, docId);
    UndisturbedIsOwn(env, quiet, run, id);
    OwnConcat(env, s, crashes, run, id);
  }

  lemma PassClaimsNoOther(env: Env, s: State, id: JobId, docId: Uuid)
    requires id in s.jobs && s.jobs[id].payload.Some? && Ready(env, s, s.jobs[id])
    ensures var run := PassFor(env, s, 0, id, docId); forall i :: 0 <= i < |run| ==> ClaimsNoOther(run[i], id)
  {
    var plan := env.plan(s.jobs[id].chunkStrategy, s.jobs[id].payload.value);
    WritingClaimsNoOther(0, if plan.Some? then plan.value else 0, id);
  }

  /** What a worker plans and has inserted is what its payload job's own bytes and namespace allow. */
  ghost predicate OwnPlan(env: Env, s: State, w: WorkerId)
    requires w in s.workers
  {
    var k := s.workers[w];
    && k.job in s.jobs
    && (s.jobs[k.job].payload.Some? ==>
          var j := s.jobs[k.job];
          && (k.pc.Missing? ==> k.pc.doc.namespace == j.namespace && env.Plannable(j.chunkStrategy, j.payload.value))
          && (k.docs != {} ==> j.namespace in env.namespaces && env.Plannable(j.chunkStrategy, j.payload.value)))
  }

  ghost predicate OwnPlans(env: Env, s: State) {
    forall w {:trigger OwnPlan(env, s, w)} :: w in s.workers ==> OwnPlan(env, s, w)
  }

  /** No worker comes to plan or to insert a document. */
  ghost predicate NoNewPlan(s: State, s': State) {
    forall w :: w in s'.workers ==>
      var k' := s'.workers[w];
      if w in s.workers then
        var k := s.workers[w];
        k'.job == k.job && (k'.pc.Missing? ==> k'.pc == k.pc) && (k'.docs != {} ==> k.docs != {})
      else k'.job in s.jobs && !k'.pc.Missing? && k'.docs == {}
  }

  lemma NoNewPlanKeeps(env: Env, s: State, s': State)
    requires OwnPlans(env, s) && NoNewPlan(s, s')
    requires forall id :: id in s.jobs ==> id in s'.jobs && SameContent(s.jobs[id], s'.jobs[id])
    ensures OwnPlans(env, s')
  {
    forall w | w in s'.workers ensures OwnPlan(env, s', w) {
      assert w in s.workers ==> OwnPlan(env, s, w);
    }
  }

  lemma CheckKeepsOwnPlans(env: Env, s: State, w: WorkerId, bytes: seq<Byte>, docId: Uuid)
    requires OwnPlans(env, s) && Enabled(env, s, CheckHash(w, bytes, docId))
    ensures OwnPlans(env, Apply(env, s, CheckHash(w, bytes, docId)))
  {
    var s' := Apply(env, s, CheckHash(w, bytes, docId));
    forall v | v in s'.workers ensures OwnPlan(env, s', v) {
      assert OwnPlan(env, s, v);
    }
  }

  lemma InsertKeepsOwnPlans(env: Env, s: State, w: WorkerId)
    requires OwnPlans(env, s) && Enabled(env, s, InsertDoc(w))
    ensures OwnPlans(env, Apply(env, s, InsertDoc(w)))
  {
    var s' := Apply(env, s, InsertDoc(w));
    forall v | v in s'.workers ensures OwnPlan(env, s', v) {
      assert OwnPlan(env, s, v);
    }
  }

  lemma OtherStepPlansNothing(env: Env, s: State, step: Step)
    requires Enabled(env, s, step) && !step.CheckHash? && !step.InsertDoc?
    ensures NoNewPlan(s, Apply(env, s, step))
  {
  }

  lemma StepKeepsOwnPlans(env: Env, s: State, step: Step)
    requires OwnPlans(env, s) && Enabled(env, s, step)
    ensures OwnPlans(env, Apply(env, s, step))
  {
    if step.CheckHash? {
      CheckKeepsOwnPlans(env, s, step.w, step.bytes, step.docId);
    } else if step.InsertDoc? {
      InsertKeepsOwnPlans(env, s, step.w);
    } else {
      OtherStepPlansNothing(env, s, step);
      StepGrows(env, s, step);
      NoNewPlanKeeps(env, s, Apply(env, s, step));
    }
  }

  lemma {:induction false} RunKeepsOwnPlans(env: Env, s: State, steps: seq<Step>)
    requires OwnPlans(env, s) && Playable(env, s, steps)
    ensures OwnPlans(env, Play(env, s, steps))
    decreases |steps|
  {
    if steps != [] {
      StepKeepsOwnPlans(env, s, steps[0]);
      RunKeepsOwnPlans(env, Apply(env, s, steps[0]), steps[1..]);
    }
  }

  /** Job `id` has the content of `j`, no document has been added to `docs`, and the job's workers can add none. */
  ghost predicate NothingAdded(env: Env, docs: set<Doc>, j: Job, s: State, id: JobId) {
    && s.docs == docs && id in s.jobs && SameContent(j, s.jobs[id])
    && forall w :: w in s.workers && s.workers[w].job == id ==>
         var k := s.workers[w];
         k.docs == {} && (k.pc.Missing? ==> k.pc.doc.namespace !in env.namespaces)
  }

  lemma OwnStepAddsNothing(env: Env, docs: set<Doc>, j: Job, s: State, id: JobId, step: Step)
    requires NothingAdded(env, docs, j, s, id) && Enabled(env, s, step) && OwnStep(s, step, id)
    requires j.payload.Some? && !(j.namespace in env.namespaces && env.Plannable(j.chunkStrategy, j.payload.value))
    ensures NothingAdded(env, docs, j, Apply(env, s, step), id)
  {
  }

  lemma {:induction false} OwnRunAddsNothing(env: Env, docs: set<Doc>, j: Job, s: State, id: JobId, steps: seq<Step>)
    requires NothingAdded(env, docs, j, s, id) && Playable(env, s, steps) && OwnRun(env, s, steps, id)
    requires j.payload.Some? && !(j.namespace in env.namespaces && env.Plannable(j.chunkStrategy, j.payload.value))
    ensures NothingAdded(env, docs, j, Play(env, s, steps), id)
    decreases |steps|
  {
    if steps != [] {
      OwnStepAddsNothing(env, docs, j, s, id, steps[0]);
      OwnRunAddsNothing(env, docs, j, Apply(env, s, steps[0]), id, steps[1..]);
    }
  }

  lemma CompletedAloneWasReady(env: Env, s: State, id: JobId, steps: seq<Step>)
    requires Inv(env, s) && OwnPlans(env, s) && id in s.jobs && s.jobs[id].payload.Some?
    requires Playable(env, s, steps) && OwnRun(env, s, steps, id) && IsCompleted(Play(env, s, steps), id)
    ensures Ready(env, s, s.jobs[id])
  {
    var j := s.jobs[id];
    var d := CompletedHas(env, s, steps, id);
    if !(j.namespace in env.namespaces && env.Plannable(j.chunkStrategy, j.payload.value)) {
      assert forall w :: w in s.workers ==> OwnPlan(env, s, w);
      OwnRunAddsNothing(env, s.docs, j, s, id, steps);
      assert Exists(s.docs, j.namespace, env.hash(j.payload.value));
    } else if HashTaken(s.docs, d.hash) {
      assert Exists(s.docs, j.namespace, env.hash(j.payload.value));
    }
  }

  /**
   * In every reachable state, whatever the workers are doing, a queued payload
   * job can be completed by runs of its own if and only if its document is
   * committed in its namespace, or no document has its hash, its namespace
   * exists, and its bytes can be ingested under its strategy.
   */
  lemma CompletableAloneExactly(env: Env, s0: State, before: seq<Step>, id: JobId)
    requires Initial(s0) && Playable(env, s0, before)
    requires var s := Play(env, s0, before);
      id in s.jobs && s.jobs[id].status == Queued && s.jobs[id].payload.Some?
    ensures var s := Play(env, s0, before); CanCompleteAlone(env, s, id) <==> Ready(env, s, s.jobs[id])
  {
    var s := Play(env, s0, before);
    RunKeepsInv(env, s0, before);
    RunKeepsOwnPlans(env, s0, before);
    if Ready(env, s, s.jobs[id]) {
      ReadyCompletesAlone(env, s, id);
    }
    if steps :| Playable(env, s, steps) && OwnRun(env, s, steps, id) && IsCompleted(Play(env, s, steps), id) {
      CompletedAloneWasReady(env, s, id, steps);
    }
  }
}
