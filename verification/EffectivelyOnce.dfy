/** Effectively-once ingest over every run. */
module EffectivelyOnce {
  import opened Prelude
  import opened QueueRow
  import opened IngestProtocol

  /** The document of a payload-carrying job: its hash, in its namespace. */
  predicate Matches(env: Env, j: Job, d: Doc) {
    j.payload.Some? ==> d.namespace == j.namespace && d.hash == env.hash(j.payload.value)
  }

  ghost predicate Present(env: Env, j: Job, docs: set<Doc>) {
    j.payload.Some? ==> exists d :: d in docs && Matches(env, j, d)
  }

  /** Documents some transaction can see: committed ones and those of open transactions. */
  ghost predicate InSight(s: State, d: Doc) {
    d in s.docs || exists w :: w in s.workers && d in s.workers[w].docs
  }

  ghost predicate UniqueHashes(s: State) {
    forall d, e :: InSight(s, d) && InSight(s, e) && d.hash == e.hash ==> d == e
  }

  ghost predicate IdsUsed(s: State) {
    forall d :: InSight(s, d) ==> d.id in s.usedIds
  }

  predicate Plans(k: Worker, id: Uuid) {
    (k.pc.Missing? || k.pc.Writing?) && k.pc.doc.id == id
  }

  /** Only worker `w` knows the identifier of the document it plans. */
  ghost predicate Reserved(s: State, w: WorkerId, doc: Doc) {
    && doc.id in s.usedIds
    && !IdTaken(s.docs, doc.id)
    && forall v :: v in s.workers && v != w ==> !IdTaken(s.workers[v].docs, doc.id) && !Plans(s.workers[v], doc.id)
  }

  ghost predicate WorkerOk(env: Env, s: State, w: WorkerId)
    requires w in s.workers
  {
    var k := s.workers[w];
    && k.job in s.jobs
    && match k.pc
       case Holding => k.docs == {} && k.chunks == {}
       case Begun => k.docs == {} && k.chunks == {}
       case Missing(doc, total) =>
         k.docs == {} && k.chunks == {} && total >= 1 && Matches(env, s.jobs[k.job], doc) && Reserved(s, w, doc)
       case Writing(doc, written, total) =>
         && k.docs <= {doc} && total >= 1 && Matches(env, s.jobs[k.job], doc) && Reserved(s, w, doc)
         && (written > 0 ==> doc in k.docs && Chunk(doc.id, 0) in k.chunks)
       case Succeeded =>
         && (forall d :: d in k.docs ==> Chunk(d.id, 0) in k.chunks)
         && Present(env, s.jobs[k.job], s.docs + k.docs)
       case Erred => true
       case Committed => k.docs == {} && Present(env, s.jobs[k.job], s.docs)
       case RolledBack => k.docs == {}
  }

  ghost predicate WorkersOk(env: Env, s: State) {
    forall w {:trigger WorkerOk(env, s, w)} :: w in s.workers ==> WorkerOk(env, s, w)
  }

  ghost predicate DocsHaveChunks(s: State) {
    forall d :: d in s.docs ==> Chunk(d.id, 0) in s.chunks
  }

  ghost predicate CompletedPresent(env: Env, s: State) {
    forall id :: id in s.jobs && s.jobs[id].status == Completed ==> Present(env, s.jobs[id], s.docs)
  }

  ghost predicate Inv(env: Env, s: State) {
    UniqueHashes(s) && IdsUsed(s) && WorkersOk(env, s) && DocsHaveChunks(s) && CompletedPresent(env, s)
  }

  lemma PresentGrows(env: Env, j: Job, j': Job, docs: set<Doc>, docs': set<Doc>)
    requires Present(env, j, docs) && SameContent(j, j') && docs <= docs'
    ensures Present(env, j', docs')
  {
    if j.payload.Some? {
      var d :| d in docs && Matches(env, j, d);
      assert d in docs' && Matches(env, j', d);
    }
  }

  /** `s'` has the documents and chunks of `s`, open and committed, and at least its jobs. */
  ghost predicate SameData(s: State, s': State) {
    && s'.docs == s.docs && s'.chunks == s.chunks && s'.usedIds == s.usedIds
    && (forall id :: id in s.jobs ==> id in s'.jobs && SameContent(s.jobs[id], s'.jobs[id]))
  }

  /** The workers of `s'` are workers of `s`, unchanged. */
  ghost predicate FewerWorkers(s: State, s': State) {
    forall w :: w in s'.workers ==> w in s.workers && s'.workers[w] == s.workers[w]
  }

  lemma FewerWorkersOk(env: Env, s: State, s': State)
    requires Inv(env, s) && SameData(s, s') && FewerWorkers(s, s')
    ensures UniqueHashes(s') && IdsUsed(s') && WorkersOk(env, s') && DocsHaveChunks(s')
  {
    assert forall d :: InSight(s', d) ==> InSight(s, d);
    forall w | w in s'.workers ensures WorkerOk(env, s', w) {
      assert WorkerOk(env, s, w);
      var j, j' := s.jobs[s.workers[w].job], s'.jobs[s'.workers[w].job];
      if s.workers[w].pc.Succeeded? {
        PresentGrows(env, j, j', s.docs + s.workers[w].docs, s'.docs + s'.workers[w].docs);
      }
      if s.workers[w].pc.Committed? {
        PresentGrows(env, j, j', s.docs, s'.docs);
      }
    }
  }

  /** Completed jobs keep their documents while no further job becomes completed. */
  lemma CompletedStays(env: Env, s: State, s': State)
    requires CompletedPresent(env, s) && s.docs <= s'.docs
    requires forall id :: id in s'.jobs && s'.jobs[id].status == Completed ==>
      id in s.jobs && s.jobs[id].status == Completed && SameContent(s.jobs[id], s'.jobs[id])
    ensures CompletedPresent(env, s')
  {
    forall id | id in s'.jobs && s'.jobs[id].status == Completed ensures Present(env, s'.jobs[id], s'.docs) {
      PresentGrows(env, s.jobs[id], s'.jobs[id], s.docs, s'.docs);
    }
  }

  /** Steps that only touch job rows, drop a worker or move the clock. */
  lemma JobsOnlyKeepsInv(env: Env, s: State, s': State)
    requires Inv(env, s) && SameData(s, s') && FewerWorkers(s, s')
    requires forall id :: id in s'.jobs && s'.jobs[id].status == Completed ==>
      id in s.jobs && s.jobs[id].status == Completed && SameContent(s.jobs[id], s'.jobs[id])
    ensures Inv(env, s')
  {
    FewerWorkersOk(env, s, s');
    CompletedStays(env, s, s');
  }

  lemma SweepKeepsInv(env: Env, s: State, step: Step)
    requires Inv(env, s) && (step.Requeue? || step.ReapFail?)
    ensures Inv(env, Apply(env, s, step))
  {
    JobsOnlyKeepsInv(env, s, Apply(env, s, step));
  }

  lemma JobStepKeepsInv(env: Env, s: State, step: Step)
    requires Inv(env, s) && Enabled(env, s, step)
    requires step.Enqueue? || step.MarkFailed? || step.Tick? || step.Crash?
    ensures Inv(env, Apply(env, s, step))
  {
    JobsOnlyKeepsInv(env, s, Apply(env, s, step));
  }

  lemma MarkCompletedKeepsInv(env: Env, s: State, w: WorkerId)
    requires Inv(env, s) && Enabled(env, s, MarkCompleted(w))
    ensures Inv(env, Apply(env, s, MarkCompleted(w)))
  {
    var s' := Apply(env, s, MarkCompleted(w));
    var id := s.workers[w].job;
    FewerWorkersOk(env, s, s');
    assert WorkerOk(env, s, w);
    var before := s.(jobs := s.jobs - {id});
    CompletedStays(env, s, before);
    CompletedStays(env, before, before);
    PresentGrows(env, s.jobs[id], s'.jobs[id], s.docs, s'.docs);
    forall k | k in s'.jobs && s'.jobs[k].status == Completed ensures Present(env, s'.jobs[k], s'.docs) {
      if k != id {
        assert before.jobs[k] == s'.jobs[k];
      }
    }
  }

  /**
   * Worker `w` moves on and the others stand still. The tables may grow by
   * documents that were in sight, and identifiers may be used up.
   */
  ghost predicate OneMoves(s: State, s': State, w: WorkerId) {
    && w in s'.workers
    && (forall v :: v != w ==> (v in s.workers <==> v in s'.workers))
    && (forall v :: v in s.workers && v != w ==> s'.workers[v] == s.workers[v])
    && s.docs <= s'.docs && s.chunks <= s'.chunks && s.usedIds <= s'.usedIds
    && (forall id :: id in s.jobs <==> id in s'.jobs)
    && (forall id :: id in s.jobs ==> SameContent(s.jobs[id], s'.jobs[id]))
  }

  lemma SightKeeps(s: State, s': State)
    requires UniqueHashes(s) && IdsUsed(s) && s.usedIds <= s'.usedIds
    requires forall d :: InSight(s', d) ==> InSight(s, d)
    ensures UniqueHashes(s') && IdsUsed(s')
  {
  }

  /** The other workers stay sound if `w` brings no identifier they reserved into sight. */
  lemma OthersStayOk(env: Env, s: State, s': State, w: WorkerId, v: WorkerId)
    requires WorkersOk(env, s) && OneMoves(s, s', w) && v in s.workers && v != w
    requires forall doc :: Reserved(s, v, doc) && Plans(s.workers[v], doc.id) ==> Reserved(s', v, doc)
    ensures WorkerOk(env, s', v)
  {
    assert WorkerOk(env, s, v);
    var k := s.workers[v];
    var j, j' := s.jobs[k.job], s'.jobs[k.job];
    if k.pc.Succeeded? {
      PresentGrows(env, j, j', s.docs + k.docs, s'.docs + k.docs);
    }
    if k.pc.Committed? {
      PresentGrows(env, j, j', s.docs, s'.docs);
    }
  }

  lemma WorkersStayOk(env: Env, s: State, s': State, w: WorkerId)
    requires WorkersOk(env, s) && OneMoves(s, s', w) && WorkerOk(env, s', w)
    requires forall v, doc :: v in s.workers && v != w && Reserved(s, v, doc) && Plans(s.workers[v], doc.id) ==>
      Reserved(s', v, doc)
    ensures WorkersOk(env, s')
  {
    forall v | v in s'.workers ensures WorkerOk(env, s', v) {
      if v != w {
        OthersStayOk(env, s, s', w, v);
      }
    }
  }

  /** Worker `w` moves without committing, planning or inserting a document. */
  ghost predicate QuietMove(s: State, s': State, w: WorkerId) {
    && OneMoves(s, s', w) && s'.docs == s.docs && s'.chunks == s.chunks
    && (forall d :: d in s'.workers[w].docs ==> w in s.workers && d in s.workers[w].docs)
    && (forall id :: Plans(s'.workers[w], id) ==> w in s.workers && Plans(s.workers[w], id))
    && (forall id :: id in s'.jobs && s'.jobs[id].status == Completed ==> s.jobs[id].status == Completed)
  }

  lemma QuietMoveKeepsInv(env: Env, s: State, s': State, w: WorkerId)
    requires Inv(env, s) && QuietMove(s, s', w) && WorkerOk(env, s', w)
    ensures Inv(env, s')
  {
    assert WorkersOk(env, s') by {
      WorkersStayOk(env, s, s', w);
    }
    assert UniqueHashes(s') && IdsUsed(s') by {
      assert forall d :: InSight(s', d) ==> InSight(s, d);
      SightKeeps(s, s');
    }
    CompletedStays(env, s, s');
  }

  lemma ClaimKeepsInv(env: Env, s: State, w: WorkerId, id: JobId)
    requires Inv(env, s) && Enabled(env, s, Claim(w, id))
    ensures Inv(env, Apply(env, s, Claim(w, id)))
  {
    QuietMoveKeepsInv(env, s, Apply(env, s, Claim(w, id)), w);
  }

  lemma BeginTxKeepsInv(env: Env, s: State, w: WorkerId)
    requires Inv(env, s) && Enabled(env, s, BeginTx(w))
    ensures Inv(env, Apply(env, s, BeginTx(w)))
  {
    assert WorkerOk(env, s, w);
    QuietMoveKeepsInv(env, s, Apply(env, s, BeginTx(w)), w);
  }

  lemma RunErrorKeepsInv(env: Env, s: State, w: WorkerId)
    requires Inv(env, s) && Enabled(env, s, RunError(w))
    ensures Inv(env, Apply(env, s, RunError(w)))
  {
    QuietMoveKeepsInv(env, s, Apply(env, s, RunError(w)), w);
  }

  lemma RollbackKeepsInv(env: Env, s: State, w: WorkerId)
    requires Inv(env, s) && Enabled(env, s, Rollback(w))
    ensures Inv(env, Apply(env, s, Rollback(w)))
  {
    QuietMoveKeepsInv(env, s, Apply(env, s, Rollback(w)), w);
  }

  lemma FinishRunKeepsInv(env: Env, s: State, w: WorkerId)
    requires Inv(env, s) && Enabled(env, s, FinishRun(w))
    ensures Inv(env, Apply(env, s, FinishRun(w)))
  {
    assert WorkerOk(env, s, w);
    var k := s.workers[w];
    assert k.pc.doc in s.docs + k.docs;
    QuietMoveKeepsInv(env, s, Apply(env, s, FinishRun(w)), w);
  }

  /** The foreign key of a planned document holds exactly when its worker inserted it. */
  lemma ForeignKey(env: Env, s: State, w: WorkerId)
    requires Inv(env, s) && w in s.workers && s.workers[w].pc.Writing?
    ensures IdTaken(s.docs + s.workers[w].docs, s.workers[w].pc.doc.id) <==> s.workers[w].pc.doc in s.workers[w].docs
  {
    assert WorkerOk(env, s, w);
  }

  lemma InsertChunkKeepsInv(env: Env, s: State, w: WorkerId)
    requires Inv(env, s) && Enabled(env, s, InsertChunk(w))
    ensures Inv(env, Apply(env, s, InsertChunk(w)))
  {
    assert WorkerOk(env, s, w);
    ForeignKey(env, s, w);
    QuietMoveKeepsInv(env, s, Apply(env, s, InsertChunk(w)), w);
  }

  /** A fresh identifier is neither in sight nor planned. */
  lemma FreshId(env: Env, s: State, id: Uuid)
    requires Inv(env, s) && id !in s.usedIds
    ensures !IdTaken(s.docs, id)
    ensures forall v :: v in s.workers ==> !IdTaken(s.workers[v].docs, id) && !Plans(s.workers[v], id)
  {
    assert forall d :: d in s.docs ==> InSight(s, d);
    forall v | v in s.workers ensures !IdTaken(s.workers[v].docs, id) && !Plans(s.workers[v], id) {
      assert WorkerOk(env, s, v);
      assert forall d :: d in s.workers[v].docs ==> InSight(s, d);
    }
  }

  lemma SkipKeepsInv(env: Env, s: State, w: WorkerId, bytes: seq<Byte>, docId: Uuid)
    requires Inv(env, s) && Enabled(env, s, CheckHash(w, bytes, docId))
    requires Exists(s.docs, s.jobs[s.workers[w].job].namespace, env.hash(bytes))
    ensures Inv(env, Apply(env, s, CheckHash(w, bytes, docId)))
  {
    var s' := Apply(env, s, CheckHash(w, bytes, docId));
    assert WorkerOk(env, s, w);
    var j := s.jobs[s.workers[w].job];
    var d :| d in s.docs && d.namespace == j.namespace && d.hash == env.hash(bytes);
    assert Matches(env, j, d);
    assert d in s'.docs + s'.workers[w].docs;
    QuietMoveKeepsInv(env, s, s', w);
  }

  lemma RefuseKeepsInv(env: Env, s: State, w: WorkerId, bytes: seq<Byte>, docId: Uuid)
    requires Inv(env, s) && Enabled(env, s, CheckHash(w, bytes, docId))
    requires !Exists(s.docs, s.jobs[s.workers[w].job].namespace, env.hash(bytes))
    requires !env.Plannable(s.jobs[s.workers[w].job].chunkStrategy, bytes)
    ensures Inv(env, Apply(env, s, CheckHash(w, bytes, docId)))
  {
    QuietMoveKeepsInv(env, s, Apply(env, s, CheckHash(w, bytes, docId)), w);
  }

  lemma PlanKeepsInv(env: Env, s: State, w: WorkerId, bytes: seq<Byte>, docId: Uuid)
    requires Inv(env, s) && Enabled(env, s, CheckHash(w, bytes, docId))
    requires !Exists(s.docs, s.jobs[s.workers[w].job].namespace, env.hash(bytes))
    requires env.Plannable(s.jobs[s.workers[w].job].chunkStrategy, bytes)
    ensures Inv(env, Apply(env, s, CheckHash(w, bytes, docId)))
  {
    var s' := Apply(env, s, CheckHash(w, bytes, docId));
    assert WorkerOk(env, s, w);
    FreshId(env, s, docId);
    WorkersStayOk(env, s, s', w);
    SightKeeps(s, s');
    CompletedStays(env, s, s');
  }

  /** The hash a worker is free to insert is in sight only if it is committed. */
  lemma UnblockedHash(s: State, w: WorkerId, hash: string, d: Doc)
    requires w in s.workers && s.workers[w].docs == {} && !Blocked(s, w, hash)
    requires InSight(s, d) && d.hash == hash
    ensures HashTaken(s.docs, hash)
  {
    if d !in s.docs {
      var v :| v in s.workers && d in s.workers[v].docs;
      assert HashTaken(s.workers[v].docs, hash);
    }
  }

  lemma InsertDocSight(env: Env, s: State, w: WorkerId)
    requires Inv(env, s) && Enabled(env, s, InsertDoc(w))
    ensures UniqueHashes(Apply(env, s, InsertDoc(w))) && IdsUsed(Apply(env, s, InsertDoc(w)))
  {
    var s' := Apply(env, s, InsertDoc(w));
    var doc := s.workers[w].pc.doc;
    assert WorkerOk(env, s, w);
    forall d | InSight(s', d) ensures InSight(s, d) || (d == doc && !HashTaken(s.docs, doc.hash)) {
      if d !in s'.docs {
        var v :| v in s'.workers && d in s'.workers[v].docs;
        assert v != w ==> d in s.workers[v].docs;
      }
    }
    forall d | InSight(s, d) && d.hash == doc.hash ensures HashTaken(s.docs, doc.hash) {
      UnblockedHash(s, w, doc.hash, d);
    }
  }

  /** An insert that takes no effect or is refused. */
  lemma IdleInsertKeepsInv(env: Env, s: State, w: WorkerId)
    requires Inv(env, s) && Enabled(env, s, InsertDoc(w))
    requires HashTaken(s.docs, s.workers[w].pc.doc.hash) || s.workers[w].pc.doc.namespace !in env.namespaces
    ensures Inv(env, Apply(env, s, InsertDoc(w)))
  {
    assert WorkerOk(env, s, w);
    QuietMoveKeepsInv(env, s, Apply(env, s, InsertDoc(w)), w);
  }

  lemma InsertDocKeepsInv(env: Env, s: State, w: WorkerId)
    requires Inv(env, s) && Enabled(env, s, InsertDoc(w))
    ensures Inv(env, Apply(env, s, InsertDoc(w)))
  {
    if HashTaken(s.docs, s.workers[w].pc.doc.hash) || s.workers[w].pc.doc.namespace !in env.namespaces {
      IdleInsertKeepsInv(env, s, w);
    } else {
      var s' := Apply(env, s, InsertDoc(w));
      InsertDocSight(env, s, w);
      assert WorkerOk(env, s, w);
      WorkersStayOk(env, s, s', w);
      CompletedStays(env, s, s');
    }
  }

  lemma CommitKeepsInv(env: Env, s: State, w: WorkerId)
    requires Inv(env, s) && Enabled(env, s, Commit(w))
    ensures Inv(env, Apply(env, s, Commit(w)))
  {
    var s' := Apply(env, s, Commit(w));
    assert WorkerOk(env, s, w);
    assert forall d :: d in s.workers[w].docs ==> InSight(s, d);
    WorkersStayOk(env, s, s', w);
    SightKeeps(s, s');
    CompletedStays(env, s, s');
  }

  lemma StepKeepsInv(env: Env, s: State, step: Step)
    requires Inv(env, s) && Enabled(env, s, step)
    ensures Inv(env, Apply(env, s, step))
  {
    match step
    case Claim(w, id) => ClaimKeepsInv(env, s, w, id);
    case BeginTx(w) => BeginTxKeepsInv(env, s, w);
    case CheckHash(w, bytes, docId) =>
      if Exists(s.docs, s.jobs[s.workers[w].job].namespace, env.hash(bytes)) {
        SkipKeepsInv(env, s, w, bytes, docId);
      } else if env.Plannable(s.jobs[s.workers[w].job].chunkStrategy, bytes) {
        PlanKeepsInv(env, s, w, bytes, docId);
      } else {
        RefuseKeepsInv(env, s, w, bytes, docId);
      }
    case InsertDoc(w) => InsertDocKeepsInv(env, s, w);
    case InsertChunk(w) => InsertChunkKeepsInv(env, s, w);
    case FinishRun(w) => FinishRunKeepsInv(env, s, w);
    case RunError(w) => RunErrorKeepsInv(env, s, w);
    case Commit(w) => CommitKeepsInv(env, s, w);
    case Rollback(w) => RollbackKeepsInv(env, s, w);
    case MarkCompleted(w) => MarkCompletedKeepsInv(env, s, w);
    case Requeue => SweepKeepsInv(env, s, step);
    case ReapFail => SweepKeepsInv(env, s, step);
    case _ => JobStepKeepsInv(env, s, step);
  }

  lemma {:induction false} RunKeepsInv(env: Env, s: State, steps: seq<Step>)
    requires Inv(env, s) && Playable(env, s, steps)
    ensures Inv(env, Play(env, s, steps))
    decreases |steps|
  {
    if steps != [] {
      StepKeepsInv(env, s, steps[0]);
      RunKeepsInv(env, Apply(env, s, steps[0]), steps[1..]);
    }
  }

  /** A document with this hash is committed in the namespace, with at least one chunk. */
  ghost predicate Ingested(s: State, namespace: string, hash: string) {
    exists d :: d in s.docs && d.namespace == namespace && d.hash == hash && Chunk(d.id, 0) in s.chunks
  }

  /**
   * Over every run, with crashes at any step and late finalisers: no two
   * committed documents share a content hash, every committed document has its
   * first chunk, and a completed job with a payload has its document, with a
   * chunk, committed in its namespace.
   */
  lemma EffectivelyOnce(env: Env, s0: State, steps: seq<Step>)
    requires Initial(s0) && Playable(env, s0, steps)
    ensures var s := Play(env, s0, steps);
      && (forall d, e :: d in s.docs && e in s.docs && d.hash == e.hash ==> d == e)
      && (forall d :: d in s.docs ==> Chunk(d.id, 0) in s.chunks)
      && (forall id :: id in s.jobs && s.jobs[id].status == Completed && s.jobs[id].payload.Some? ==>
           Ingested(s, s.jobs[id].namespace, env.hash(s.jobs[id].payload.value)))
  {
    RunKeepsInv(env, s0, steps);
    var s := Play(env, s0, steps);
    assert forall d :: d in s.docs ==> InSight(s, d);
    forall id | id in s.jobs && s.jobs[id].status == Completed && s.jobs[id].payload.Some?
      ensures Ingested(s, s.jobs[id].namespace, env.hash(s.jobs[id].payload.value))
    {
      assert Present(env, s.jobs[id], s.docs);
      var d :| d in s.docs && Matches(env, s.jobs[id], d);
    }
  }

  /**
   * The hash is unique across namespaces although the duplicate check is not:
   * once another namespace holds a document with the hash of a job's payload,
   * the job is never completed.
   */
  lemma CrossNamespaceNeverCompletes(env: Env, s0: State, steps: seq<Step>, id: JobId, d: Doc)
    requires Initial(s0) && Playable(env, s0, steps)
    requires var s := Play(env, s0, steps);
      && id in s.jobs && s.jobs[id].payload.Some?
      && d in s.docs && d.hash == env.hash(s.jobs[id].payload.value) && d.namespace != s.jobs[id].namespace
    ensures Play(env, s0, steps).jobs[id].status != Completed
  {
    EffectivelyOnce(env, s0, steps);
  }

  /** A worker that lost the insert race cannot write a chunk: its foreign key fails and it can only roll back. */
  lemma LostRaceErrs(env: Env, s0: State, steps: seq<Step>, w: WorkerId)
    requires Initial(s0) && Playable(env, s0, steps)
    requires var s := Play(env, s0, steps);
      Enabled(env, s, InsertDoc(w)) && HashTaken(s.docs, s.workers[w].pc.doc.hash)
    ensures var s1 := Apply(env, Play(env, s0, steps), InsertDoc(w));
      && Enabled(env, s1, InsertChunk(w)) && !Enabled(env, s1, FinishRun(w)) && !Enabled(env, s1, Commit(w))
      && Apply(env, s1, InsertChunk(w)).workers[w].pc == Erred
  {
    var s := Play(env, s0, steps);
    RunKeepsInv(env, s0, steps);
    assert WorkerOk(env, s, w);
    InsertDocKeepsInv(env, s, w);
    ForeignKey(env, Apply(env, s, InsertDoc(w)), w);
  }
}
