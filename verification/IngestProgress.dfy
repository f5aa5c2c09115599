/**
 * What a queued payload job can still come to. Left to itself it can complete
 * exactly if its document is in its namespace already, or its hash is free
 * everywhere, its namespace exists and its own bytes are not refused under its
 * own strategy. With the help of other jobs, any bytes of the same hash under
 * any strategy will do.
 */
module IngestProgress {
  import opened Prelude
  import opened QueueRow
  import opened IngestProtocol
  import opened EffectivelyOnce

  predicate IsCompleted(s: State, id: JobId) {
    id in s.jobs && s.jobs[id].status == Completed
  }

  /** The end of a pass: commit, and the final status. */
  function Finalising(w: WorkerId): seq<Step> {
    [Commit(w)] + ([MarkCompleted(w)] + [])
  }

  /** A pass with `left` chunks still to write. */
  function WritingRest(w: WorkerId, left: nat): seq<Step> {
    if left == 0 then [FinishRun(w)] + Finalising(w) else [InsertChunk(w)] + WritingRest(w, left - 1)
  }

  /** One pass of worker `w` over job `id`, which skips its document or writes it with `total` chunks. */
  function Pass(w: WorkerId, id: JobId, bytes: seq<Byte>, docId: Uuid, skip: bool, total: nat): seq<Step> {
    [Claim(w, id)] + ([BeginTx(w)] + ([CheckHash(w, bytes, docId)] +
      (if skip then Finalising(w) else [InsertDoc(w)] + WritingRest(w, total))))
  }

  /** Between `s` and `s'` nothing happened to other jobs than `id`. */
  ghost predicate OthersUntouched(s: State, s': State, id: JobId) {
    forall k :: k in s.jobs && k != id ==> k in s'.jobs && s'.jobs[k] == s.jobs[k]
  }

  /** How a pass ends: nobody is busy, the job is completed, its document is committed. */
  ghost predicate PassEnds(s: State, s': State, id: JobId, namespace: string, hash: string) {
    s'.workers == map[] && IsCompleted(s', id) && OthersUntouched(s, s', id) && Exists(s'.docs, namespace, hash)
  }

  lemma FinalisingCompletes(env: Env, s: State, w: WorkerId, d: Doc)
    requires s.workers.Keys == {w} && At(s, w) && s.workers[w].pc == Succeeded && d in s.docs + s.workers[w].docs
    ensures Playable(env, s, Finalising(w))
    ensures PassEnds(s, Play(env, s, Finalising(w)), s.workers[w].job, d.namespace, d.hash)
  {
    var s1 := Apply(env, s, Commit(w));
    assert d in s1.docs;
    PlayStep(env, s1, MarkCompleted(w), []);
    PlayStep(env, s, Commit(w), [MarkCompleted(w)] + []);
  }

  lemma {:induction false} WritingCompletes(env: Env, s: State, w: WorkerId, left: nat)
    requires s.workers.Keys == {w} && At(s, w) && s.workers[w].pc.Writing?
    requires s.workers[w].pc.doc in s.workers[w].docs && s.workers[w].pc.total == s.workers[w].pc.written + left
    ensures Playable(env, s, WritingRest(w, left))
    ensures var doc := s.workers[w].pc.doc;
      PassEnds(s, Play(env, s, WritingRest(w, left)), s.workers[w].job, doc.namespace, doc.hash)
    decreases left
  {
    if left == 0 {
      FinalisingCompletes(env, Apply(env, s, FinishRun(w)), w, s.workers[w].pc.doc);
      PlayStep(env, s, FinishRun(w), Finalising(w));
    } else {
      assert IdTaken(s.docs + s.workers[w].docs, s.workers[w].pc.doc.id);
      WritingCompletes(env, Apply(env, s, InsertChunk(w)), w, left - 1);
      PlayStep(env, s, InsertChunk(w), WritingRest(w, left - 1));
    }
  }

  lemma InsertingCompletes(env: Env, s: State, w: WorkerId)
    requires s.workers.Keys == {w} && At(s, w) && s.workers[w].pc.Missing?
    requires !HashTaken(s.docs, s.workers[w].pc.doc.hash) && s.workers[w].pc.doc.namespace in env.namespaces
    ensures var run := [InsertDoc(w)] + WritingRest(w, s.workers[w].pc.total);
      var doc := s.workers[w].pc.doc;
      Playable(env, s, run) && PassEnds(s, Play(env, s, run), s.workers[w].job, doc.namespace, doc.hash)
  {
    var total := s.workers[w].pc.total;
    WritingCompletes(env, Apply(env, s, InsertDoc(w)), w, total);
    PlayStep(env, s, InsertDoc(w), WritingRest(w, total));
  }

  /** What one pass over the job can do in the present state: skip it, or ingest it. */
  predicate Ready(env: Env, s: State, j: Job)
    requires j.payload.Some?
  {
    var bytes := j.payload.value;
    || Exists(s.docs, j.namespace, env.hash(bytes))
    || (!HashTaken(s.docs, env.hash(bytes)) && j.namespace in env.namespaces && env.Plannable(j.chunkStrategy, bytes))
  }

  /** The pass that suits the present state. */
  function PassFor(env: Env, s: State, w: WorkerId, id: JobId, docId: Uuid): seq<Step>
    requires id in s.jobs && s.jobs[id].payload.Some? && Ready(env, s, s.jobs[id])
  {
    var j := s.jobs[id];
    var bytes := j.payload.value;
    var skip := Exists(s.docs, j.namespace, env.hash(bytes));
    Pass(w, id, bytes, docId, skip, if skip then 0 else env.plan(j.chunkStrategy, bytes).value)
  }

  lemma CheckedCompletes(env: Env, s: State, w: WorkerId, bytes: seq<Byte>, docId: Uuid)
    requires s.workers.Keys == {w} && Enabled(env, s, CheckHash(w, bytes, docId)) && s.workers[w].docs == {}
    requires var j := s.jobs[s.workers[w].job]; j.payload == Some(bytes) && Ready(env, s, j)
    ensures var j := s.jobs[s.workers[w].job];
      var skip := Exists(s.docs, j.namespace, env.hash(bytes));
      var run := [CheckHash(w, bytes, docId)] + (if skip then Finalising(w)
                   else [InsertDoc(w)] + WritingRest(w, env.plan(j.chunkStrategy, bytes).value));
      Playable(env, s, run) && PassEnds(s, Play(env, s, run), s.workers[w].job, j.namespace, env.hash(bytes))
  {
    var j := s.jobs[s.workers[w].job];
    var check := CheckHash(w, bytes, docId);
    var s' := Apply(env, s, check);
    if Exists(s.docs, j.namespace, env.hash(bytes)) {
      var d :| d in s.docs && d.namespace == j.namespace && d.hash == env.hash(bytes);
      FinalisingCompletes(env, s', w, d);
      PlayStep(env, s, check, Finalising(w));
    } else {
      InsertingCompletes(env, s', w);
      PlayStep(env, s, check, [InsertDoc(w)] + WritingRest(w, env.plan(j.chunkStrategy, bytes).value));
    }
  }

  /** With no other worker busy, one pass completes a queued job that is ready. */
  lemma LonePassCompletes(env: Env, s: State, w: WorkerId, id: JobId, docId: Uuid)
    requires s.workers == map[] && id in s.jobs && s.jobs[id].status == Queued && s.jobs[id].payload.Some?
    requires docId !in s.usedIds && Ready(env, s, s.jobs[id])
    ensures var run := PassFor(env, s, w, id, docId);
      && Playable(env, s, run)
      && PassEnds(s, Play(env, s, run), id, s.jobs[id].namespace, env.hash(s.jobs[id].payload.value))
  {
    var bytes := s.jobs[id].payload.value;
    var s1 := Apply(env, s, Claim(w, id));
    var s2 := Apply(env, s1, BeginTx(w));
    CheckedCompletes(env, s2, w, bytes, docId);
    var skip := Exists(s.docs, s.jobs[id].namespace, env.hash(bytes));
    var rest := [CheckHash(w, bytes, docId)] + (if skip then Finalising(w)
                  else [InsertDoc(w)] + WritingRest(w, env.plan(s.jobs[id].chunkStrategy, bytes).value));
    PlayStep(env, s1, BeginTx(w), rest);
    PlayStep(env, s, Claim(w, id), [BeginTx(w)] + rest);
  }

  /** What is left to do for a pass that has failed. */
  function GivingUp(w: WorkerId, error: string): seq<Step> {
    [Rollback(w)] + ([MarkFailed(w, error)] + [])
  }

  lemma ErredFails(env: Env, s: State, w: WorkerId, error: string)
    requires s.workers.Keys == {w} && At(s, w) && s.workers[w].pc == Erred
    ensures Playable(env, s, GivingUp(w, error))
    ensures var s', id := Play(env, s, GivingUp(w, error)), s.workers[w].job;
      && s'.workers == map[] && s'.docs == s.docs && s'.chunks == s.chunks
      && s'.jobs == s.jobs[id := s.jobs[id].(status := Failed, finishedAt := Some(s.now), updatedAt := s.now,
                                             error := Some(error))]
  {
    var s1 := Apply(env, s, Rollback(w));
    PlayStep(env, s1, MarkFailed(w, error), []);
    PlayStep(env, s, Rollback(w), [MarkFailed(w, error)] + []);
  }

  /** How a pass over a job that is not ready comes to its error: at its bytes, its first chunk, or its namespace. */
  function ErringRest(env: Env, s: State, j: Job, w: WorkerId): seq<Step>
    requires j.payload.Some?
  {
    if !env.Plannable(j.chunkStrategy, j.payload.value) then []
    else if HashTaken(s.docs, env.hash(j.payload.value)) then [InsertDoc(w)] + ([InsertChunk(w)] + [])
    else [InsertDoc(w)] + []
  }

  lemma CheckedErrs(env: Env, s: State, w: WorkerId, bytes: seq<Byte>, docId: Uuid)
    requires s.workers.Keys == {w} && Enabled(env, s, CheckHash(w, bytes, docId)) && s.workers[w].docs == {}
    requires forall d :: d in s.docs ==> d.id in s.usedIds
    requires var j := s.jobs[s.workers[w].job]; j.payload == Some(bytes) && !Ready(env, s, j)
    ensures var s1, rest := Apply(env, s, CheckHash(w, bytes, docId)), ErringRest(env, s, s.jobs[s.workers[w].job], w);
      && Playable(env, s1, rest)
      && var s' := Play(env, s1, rest);
         && s'.workers.Keys == {w} && s'.workers[w].job == s.workers[w].job && s'.workers[w].pc == Erred
         && s'.jobs == s.jobs && s'.docs == s.docs && s'.chunks == s.chunks && s'.now == s.now
  {
    var j := s.jobs[s.workers[w].job];
    var s1 := Apply(env, s, CheckHash(w, bytes, docId));
    if env.Plannable(j.chunkStrategy, bytes) {
      var s2 := Apply(env, s1, InsertDoc(w));
      if HashTaken(s.docs, env.hash(bytes)) {
        assert !IdTaken(s2.docs + s2.workers[w].docs, docId);
        PlayStep(env, s2, InsertChunk(w), []);
        PlayStep(env, s1, InsertDoc(w), [InsertChunk(w)] + []);
      } else {
        PlayStep(env, s1, InsertDoc(w), []);
      }
    }
  }

  lemma CheckedFails(env: Env, s: State, w: WorkerId, bytes: seq<Byte>, docId: Uuid, error: string)
    requires s.workers.Keys == {w} && Enabled(env, s, CheckHash(w, bytes, docId)) && s.workers[w].docs == {}
    requires forall d :: d in s.docs ==> d.id in s.usedIds
    requires var j := s.jobs[s.workers[w].job]; j.payload == Some(bytes) && !Ready(env, s, j)
    ensures var run := [CheckHash(w, bytes, docId)] + (ErringRest(env, s, s.jobs[s.workers[w].job], w) + GivingUp(w, error));
      && Playable(env, s, run)
      && var s', id := Play(env, s, run), s.workers[w].job;
         && s'.workers == map[] && s'.docs == s.docs && s'.chunks == s.chunks
         && s'.jobs == s.jobs[id := s.jobs[id].(status := Failed, finishedAt := Some(s.now), updatedAt := s.now,
                                                error := Some(error))]
  {
    var check := CheckHash(w, bytes, docId);
    var s1, rest := Apply(env, s, check), ErringRest(env, s, s.jobs[s.workers[w].job], w);
    CheckedErrs(env, s, w, bytes, docId);
    ErredFails(env, Play(env, s1, rest), w, error);
    PlayConcat(env, s1, rest, GivingUp(w, error));
    PlayStep(env, s, check, rest + GivingUp(w, error));
  }

  lemma HoldingFails(env: Env, s: State, w: WorkerId, docId: Uuid, error: string)
    requires s.workers.Keys == {w} && At(s, w) && s.workers[w].pc == Holding && s.workers[w].docs == {}
    requires docId !in s.usedIds && forall d :: d in s.docs ==> d.id in s.usedIds
    requires var j := s.jobs[s.workers[w].job]; j.payload.Some? && !Ready(env, s, j)
    ensures var j := s.jobs[s.workers[w].job];
      var run := [BeginTx(w)] + ([CheckHash(w, j.payload.value, docId)] + (ErringRest(env, s, j, w) + GivingUp(w, error)));
      && Playable(env, s, run)
      && var s', id := Play(env, s, run), s.workers[w].job;
         && s'.workers == map[] && s'.docs == s.docs && s'.chunks == s.chunks
         && s'.jobs == s.jobs[id := j.(status := Failed, finishedAt := Some(s.now), updatedAt := s.now,
                                       error := Some(error))]
  {
    var j := s.jobs[s.workers[w].job];
    CheckedFails(env, Apply(env, s, BeginTx(w)), w, j.payload.value, docId, error);
    PlayStep(env, s, BeginTx(w), [CheckHash(w, j.payload.value, docId)] + (ErringRest(env, s, j, w) + GivingUp(w, error)));
  }

  /** The pass over a job that is not ready. */
  function FailingPass(env: Env, s: State, w: WorkerId, id: JobId, docId: Uuid, error: string): seq<Step>
    requires id in s.jobs && s.jobs[id].payload.Some?
  {
    var j := s.jobs[id];
    [Claim(w, id)] + ([BeginTx(w)] + ([CheckHash(w, j.payload.value, docId)] +
      (ErringRest(env, s, j, w) + GivingUp(w, error))))
  }

  /**
   * The counterpart of `LonePassCompletes`: with no other worker busy, one pass
   * over a queued payload job that is not ready fails it. No document or chunk
   * is written, and the row says when and why it failed.
   */
  lemma LonePassFails(env: Env, s: State, w: WorkerId, id: JobId, docId: Uuid, error: string)
    requires s.workers == map[] && id in s.jobs && s.jobs[id].status == Queued && s.jobs[id].payload.Some?
    requires docId !in s.usedIds && (forall d :: d in s.docs ==> d.id in s.usedIds) && !Ready(env, s, s.jobs[id])
    ensures var run := FailingPass(env, s, w, id, docId, error);
      && Playable(env, s, run)
      && var s', j := Play(env, s, run), s.jobs[id];
         && s'.workers == map[] && s'.docs == s.docs && s'.chunks == s.chunks
         && s'.jobs == s.jobs[id := j.(status := Failed, error := Some(error), finishedAt := Some(s.now),
                                       updatedAt := s.now, attemptCount := j.attemptCount + 1,
                                       startedAt := if j.startedAt.Some? then j.startedAt else Some(s.now))]
  {
    var s1 := Apply(env, s, Claim(w, id));
    var check := CheckHash(w, s.jobs[id].payload.value, docId);
    HoldingFails(env, s1, w, docId, error);
    assert ErringRest(env, s1, s1.jobs[id], w) == ErringRest(env, s, s.jobs[id], w);
    PlayStep(env, s, Claim(w, id), [BeginTx(w)] + ([check] + (ErringRest(env, s, s.jobs[id], w) + GivingUp(w, error))));
  }

  lemma {:induction false} UnusedNumber(used: set<nat>) returns (n: nat)
    ensures n !in used && forall m :: m in used ==> m < n
  {
    if used == {} {
      n := 0;
    } else {
      var any :| any in used;
      var next := UnusedNumber(used - {any});
      n := Max(next, any + 1);
      forall m | m in used ensures m < n {
        assert m == any || m in used - {any};
      }
    }
  }

  /** Whatever is going on, every busy worker can crash. */
  lemma {:induction false} CrashAll(env: Env, s: State) returns (steps: seq<Step>)
    ensures Playable(env, s, steps) && Play(env, s, steps) == s.(workers := map[])
    ensures forall i :: 0 <= i < |steps| ==> steps[i].Crash?
    decreases s.workers.Keys
  {
    if s.workers == map[] {
      steps := [];
    } else {
      var w :| w in s.workers;
      var s1 := Apply(env, s, Crash(w));
      var rest := CrashAll(env, s1);
      steps := [Crash(w)] + rest;
      PlayStep(env, s, Crash(w), rest);
    }
  }

  /** Steps delete no document and no job, and change no job's content. */
  lemma StepGrows(env: Env, s: State, step: Step)
    requires Enabled(env, s, step)
    ensures s.docs <= Apply(env, s, step).docs
    ensures forall id :: id in s.jobs ==>
      id in Apply(env, s, step).jobs && SameContent(s.jobs[id], Apply(env, s, step).jobs[id])
  {
  }

  lemma {:induction false} RunGrows(env: Env, s: State, steps: seq<Step>)
    requires Playable(env, s, steps)
    ensures s.docs <= Play(env, s, steps).docs
    ensures forall id :: id in s.jobs ==>
      id in Play(env, s, steps).jobs && SameContent(s.jobs[id], Play(env, s, steps).jobs[id])
    decreases |steps|
  {
    if steps != [] {
      StepGrows(env, s, steps[0]);
      RunGrows(env, Apply(env, s, steps[0]), steps[1..]);
    }
  }

  /** A completed job has its document; if the hash was taken before, it was taken in the job's namespace. */
  lemma CompletedHas(env: Env, s: State, steps: seq<Step>, id: JobId) returns (d: Doc)
    requires Inv(env, s) && Playable(env, s, steps) && id in s.jobs && s.jobs[id].payload.Some?
    requires IsCompleted(Play(env, s, steps), id)
    ensures d in Play(env, s, steps).docs
    ensures d.namespace == s.jobs[id].namespace && d.hash == env.hash(s.jobs[id].payload.value)
    ensures HashTaken(s.docs, d.hash) ==> d in s.docs
  {
    var s' := Play(env, s, steps);
    RunGrows(env, s, steps);
    RunKeepsInv(env, s, steps);
    assert Present(env, s'.jobs[id], s'.docs);
    d :| d in s'.docs && Matches(env, s'.jobs[id], d);
    forall e | e in s.docs && e.hash == d.hash ensures e == d {
      assert InSight(s', e) && InSight(s', d);
    }
  }
}
