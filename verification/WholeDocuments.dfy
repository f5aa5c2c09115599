/** Over every run a committed document has all the chunks that were planned for it, and no chunk is without its document. */
module WholeDocuments {
  import opened Prelude
  import opened IngestProtocol
  import opened EffectivelyOnce

  /** Bytes with this hash make `n` chunks under some strategy. */
  ghost predicate Planned(env: Env, hash: string, n: nat) {
    exists chunkStrategy, bytes ::
      env.Plannable(chunkStrategy, bytes) && env.hash(bytes) == hash && env.plan(chunkStrategy, bytes).value == n
  }

  /** The chunks of the document are those numbered below `n`. */
  ghost predicate HasChunks(chunks: set<Chunk>, id: Uuid, n: nat) {
    forall i: nat :: Chunk(id, i) in chunks <==> i < n
  }

  ghost predicate Whole(env: Env, d: Doc, chunks: set<Chunk>) {
    exists n :: Planned(env, d.hash, n) && HasChunks(chunks, d.id, n)
  }

  ghost predicate Closed(chunks: set<Chunk>, docs: set<Doc>) {
    forall c :: c in chunks ==> IdTaken(docs, c.documentId)
  }

  ghost predicate OneEach(docs: set<Doc>) {
    forall d, e :: d in docs && e in docs && d.id == e.id ==> d == e
  }

  /** No one else's document has the identifier. */
  ghost predicate Owns(s: State, w: WorkerId, id: Uuid) {
    !IdTaken(s.docs, id) && forall v :: v in s.workers && v != w ==> !IdTaken(s.workers[v].docs, id)
  }

  ghost predicate OwnsAll(s: State, w: WorkerId, docs: set<Doc>) {
    forall d :: d in docs ==> Owns(s, w, d.id)
  }

  /** How far the rows of an open transaction are. */
  ghost predicate InPart(env: Env, k: Worker) {
    match k.pc
    case Missing(doc, total) => k.docs == {} && k.chunks == {} && Planned(env, doc.hash, total)
    case Writing(doc, written, total) =>
      && k.docs <= {doc} && Planned(env, doc.hash, total)
      && written <= total && HasChunks(k.chunks, doc.id, written)
    case Succeeded => forall d :: d in k.docs ==> Whole(env, d, k.chunks)
    case Erred => true
    case _ => k.docs == {} && k.chunks == {}
  }

  ghost predicate WorkerWhole(env: Env, s: State, w: WorkerId)
    requires w in s.workers
  {
    var k := s.workers[w];
    OwnsAll(s, w, k.docs) && OneEach(k.docs) && Closed(k.chunks, k.docs) && InPart(env, k)
  }

  ghost predicate WorkersWhole(env: Env, s: State) {
    forall w {:trigger WorkerWhole(env, s, w)} :: w in s.workers ==> WorkerWhole(env, s, w)
  }

  ghost predicate AllWhole(env: Env, docs: set<Doc>, chunks: set<Chunk>) {
    forall d :: d in docs ==> Whole(env, d, chunks)
  }

  ghost predicate WholeInv(env: Env, s: State) {
    WorkersWhole(env, s) && AllWhole(env, s.docs, s.chunks) && OneEach(s.docs) && Closed(s.chunks, s.docs)
  }

  /** Steps that leave the tables and the other workers alone and bring no document but one that only `w` knows. */
  lemma MoveKeepsWhole(env: Env, s: State, s': State, w: WorkerId)
    requires WholeInv(env, s) && s'.docs == s.docs && s'.chunks == s.chunks
    requires forall v :: v != w ==> (v in s'.workers <==> v in s.workers)
    requires forall v :: v in s.workers && v != w ==> s'.workers[v] == s.workers[v]
    requires w in s'.workers ==> WorkerWhole(env, s', w)
    requires w in s'.workers ==> forall d :: d in s'.workers[w].docs ==>
      (w in s.workers && d in s.workers[w].docs) || Owns(s, w, d.id)
    ensures WholeInv(env, s')
  {
    forall v | v in s'.workers ensures WorkerWhole(env, s', v) {
      if v != w {
        assert WorkerWhole(env, s, v);
        forall d | d in s.workers[v].docs ensures Owns(s', v, d.id) {
          assert Owns(s, v, d.id);
        }
      }
    }
  }

  lemma OwnsKept(s: State, s': State, w: WorkerId, docs: set<Doc>)
    requires OwnsAll(s, w, docs) && s'.docs == s.docs
    requires forall v :: v in s'.workers && v != w ==> v in s.workers && s'.workers[v].docs == s.workers[v].docs
    ensures OwnsAll(s', w, docs)
  {
    forall d | d in docs ensures Owns(s', w, d.id) {
      assert Owns(s, w, d.id);
    }
  }

  lemma CheckKeepsWhole(env: Env, s: State, w: WorkerId, bytes: seq<Byte>, docId: Uuid)
    requires WholeInv(env, s) && Enabled(env, s, CheckHash(w, bytes, docId))
    ensures WholeInv(env, Apply(env, s, CheckHash(w, bytes, docId)))
  {
    assert WorkerWhole(env, s, w);
    MoveKeepsWhole(env, s, Apply(env, s, CheckHash(w, bytes, docId)), w);
  }

  lemma PlannedIsOwn(env: Env, s: State, w: WorkerId)
    requires Inv(env, s) && w in s.workers && s.workers[w].pc.Missing?
    ensures Owns(s, w, s.workers[w].pc.doc.id)
  {
    assert WorkerOk(env, s, w);
  }

  lemma InsertDocKeepsWhole(env: Env, s: State, w: WorkerId)
    requires Inv(env, s) && WholeInv(env, s) && Enabled(env, s, InsertDoc(w))
    ensures WholeInv(env, Apply(env, s, InsertDoc(w)))
  {
    var s' := Apply(env, s, InsertDoc(w));
    assert WorkerWhole(env, s, w);
    PlannedIsOwn(env, s, w);
    OwnsKept(s, s', w, {s.workers[w].pc.doc});
    MoveKeepsWhole(env, s, s', w);
  }

  lemma InsertChunkKeepsWhole(env: Env, s: State, w: WorkerId)
    requires Inv(env, s) && WholeInv(env, s) && Enabled(env, s, InsertChunk(w))
    ensures WholeInv(env, Apply(env, s, InsertChunk(w)))
  {
    var s' := Apply(env, s, InsertChunk(w));
    assert WorkerWhole(env, s, w);
    ForeignKey(env, s, w);
    OwnsKept(s, s', w, s.workers[w].docs);
    MoveKeepsWhole(env, s, s', w);
  }

  lemma FinishKeepsWhole(env: Env, s: State, w: WorkerId)
    requires WholeInv(env, s) && Enabled(env, s, FinishRun(w))
    ensures WholeInv(env, Apply(env, s, FinishRun(w)))
  {
    var s' := Apply(env, s, FinishRun(w));
    assert WorkerWhole(env, s, w);
    OwnsKept(s, s', w, s.workers[w].docs);
    MoveKeepsWhole(env, s, s', w);
  }

  /** The documents of two tables that share no identifier stay whole when the tables are put together. */
  lemma WholeTogether(env: Env, docs: set<Doc>, chunks: set<Chunk>, more: set<Doc>, moreChunks: set<Chunk>)
    requires AllWhole(env, docs, chunks) && Closed(moreChunks, more)
    requires forall d :: d in docs ==> !IdTaken(more, d.id)
    ensures AllWhole(env, docs, chunks + moreChunks)
  {
    forall d | d in docs ensures Whole(env, d, chunks + moreChunks) {
      var n :| Planned(env, d.hash, n) && HasChunks(chunks, d.id, n);
      forall i: nat ensures Chunk(d.id, i) in chunks + moreChunks <==> i < n {
        assert Chunk(d.id, i) in moreChunks ==> IdTaken(more, d.id);
      }
      assert HasChunks(chunks + moreChunks, d.id, n);
    }
  }

  lemma CommitKeepsTables(env: Env, s: State, w: WorkerId)
    requires WholeInv(env, s) && Enabled(env, s, Commit(w))
    ensures var s' := Apply(env, s, Commit(w));
      AllWhole(env, s'.docs, s'.chunks) && OneEach(s'.docs) && Closed(s'.chunks, s'.docs)
  {
    assert WorkerWhole(env, s, w);
    var k := s.workers[w];
    forall d | d in s.docs ensures !IdTaken(k.docs, d.id) {
      if e :| e in k.docs && e.id == d.id {
        assert Owns(s, w, e.id) && IdTaken(s.docs, e.id);
      }
    }
    forall d | d in k.docs ensures !IdTaken(s.docs, d.id) {
      assert Owns(s, w, d.id);
    }
    WholeTogether(env, s.docs, s.chunks, k.docs, k.chunks);
    WholeTogether(env, k.docs, k.chunks, s.docs, s.chunks);
    assert k.chunks + s.chunks == s.chunks + k.chunks;
    forall c | c in s.chunks + k.chunks ensures IdTaken(s.docs + k.docs, c.documentId) {
      assert IdTaken(s.docs, c.documentId) || IdTaken(k.docs, c.documentId);
    }
  }

  lemma CommitKeepsWhole(env: Env, s: State, w: WorkerId)
    requires WholeInv(env, s) && Enabled(env, s, Commit(w))
    ensures WholeInv(env, Apply(env, s, Commit(w)))
  {
    var s' := Apply(env, s, Commit(w));
    CommitKeepsTables(env, s, w);
    forall v | v in s'.workers ensures WorkerWhole(env, s', v) {
      if v != w {
        assert WorkerWhole(env, s, v);
        forall d | d in s.workers[v].docs ensures Owns(s', v, d.id) {
          assert Owns(s, v, d.id);
          assert !IdTaken(s.docs + s.workers[w].docs, d.id);
        }
      }
    }
  }

  lemma StepKeepsWhole(env: Env, s: State, step: Step)
    requires Inv(env, s) && WholeInv(env, s) && Enabled(env, s, step)
    ensures WholeInv(env, Apply(env, s, step))
  {
    match step
    case CheckHash(w, bytes, docId) => CheckKeepsWhole(env, s, w, bytes, docId);
    case InsertDoc(w) => InsertDocKeepsWhole(env, s, w);
    case InsertChunk(w) => InsertChunkKeepsWhole(env, s, w);
    case FinishRun(w) => FinishKeepsWhole(env, s, w);
    case Commit(w) => CommitKeepsWhole(env, s, w);
    case Claim(w, _) => MoveKeepsWhole(env, s, Apply(env, s, step), w);
    case BeginTx(w) => QuietKeepsWhole(env, s, step, w);
    case RunError(w) => QuietKeepsWhole(env, s, step, w);
    case Rollback(w) => QuietKeepsWhole(env, s, step, w);
    case MarkCompleted(w) => MoveKeepsWhole(env, s, Apply(env, s, step), w);
    case MarkFailed(w, _) => MoveKeepsWhole(env, s, Apply(env, s, step), w);
    case Crash(w) => MoveKeepsWhole(env, s, Apply(env, s, step), w);
    case _ => TableKeepsWhole(env, s, step);
  }

  lemma QuietKeepsWhole(env: Env, s: State, step: Step, w: WorkerId)
    requires WholeInv(env, s) && Enabled(env, s, step)
    requires step == BeginTx(w) || step == RunError(w) || step == Rollback(w)
    ensures WholeInv(env, Apply(env, s, step))
  {
    var s' := Apply(env, s, step);
    assert WorkerWhole(env, s, w);
    OwnsKept(s, s', w, s.workers[w].docs);
    MoveKeepsWhole(env, s, s', w);
  }

  /** Steps of the job table and the clock. */
  lemma TableKeepsWhole(env: Env, s: State, step: Step)
    requires WholeInv(env, s) && Enabled(env, s, step)
    requires step.Enqueue? || step.Requeue? || step.ReapFail? || step.Tick?
    ensures WholeInv(env, Apply(env, s, step))
  {
    var s' := Apply(env, s, step);
    forall w | w in s'.workers ensures WorkerWhole(env, s', w) {
      assert WorkerWhole(env, s, w);
      OwnsKept(s, s', w, s.workers[w].docs);
    }
  }

  lemma {:induction false} RunKeepsWhole(env: Env, s: State, steps: seq<Step>)
    requires Inv(env, s) && WholeInv(env, s) && Playable(env, s, steps)
    ensures WholeInv(env, Play(env, s, steps))
    decreases |steps|
  {
    if steps != [] {
      StepKeepsInv(env, s, steps[0]);
      StepKeepsWhole(env, s, steps[0]);
      RunKeepsWhole(env, Apply(env, s, steps[0]), steps[1..]);
    }
  }

  /**
   * Over every run, with crashes at any step: each committed document has
   * exactly the chunks that bytes of its hash make under some strategy, all of
   * them, each committed chunk belongs to a committed document, and no two
   * documents share an identifier.
   */
  lemma WholeDocuments(env: Env, s0: State, steps: seq<Step>)
    requires Initial(s0) && Playable(env, s0, steps)
    ensures var s := Play(env, s0, steps);
      && (forall d :: d in s.docs ==> exists chunkStrategy, bytes ::
            && env.Plannable(chunkStrategy, bytes) && env.hash(bytes) == d.hash
            && forall i: nat :: Chunk(d.id, i) in s.chunks <==> i < env.plan(chunkStrategy, bytes).value)
      && (forall c :: c in s.chunks ==> exists d :: d in s.docs && d.id == c.documentId)
      && (forall d, e :: d in s.docs && e in s.docs && d.id == e.id ==> d == e)
  {
    RunKeepsWhole(env, s0, steps);
    var s := Play(env, s0, steps);
    forall d | d in s.docs
      ensures exists chunkStrategy, bytes ::
        && env.Plannable(chunkStrategy, bytes) && env.hash(bytes) == d.hash
        && forall i: nat :: Chunk(d.id, i) in s.chunks <==> i < env.plan(chunkStrategy, bytes).value
    {
      assert Whole(env, d, s.chunks);
    }
    forall c | c in s.chunks ensures exists d :: d in s.docs && d.id == c.documentId {
      assert IdTaken(s.docs, c.documentId);
    }
  }
}
