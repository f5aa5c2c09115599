/**
 * The ingest protocol: any number of workers claim, run and finalise jobs while
 * a reaper sweeps the table. Claiming a job, committing its document and writing
 * its final status are separate transactions, and a worker can crash between
 * any two steps.
 */
module IngestProtocol {
  import opened Prelude
  import opened QueueRow

  type WorkerId = nat

  datatype Doc = Doc(id: Uuid, namespace: string, hash: string)

  /** Chunk number `ord` of a document. */
  datatype Chunk = Chunk(documentId: Uuid, ord: nat)

  /** Where a worker stands in `process_one` and `run_job`. */
  datatype Pc =
    | Holding                                        // claim committed, no transaction open
    | Begun                                          // transaction open
    | Missing(doc: Doc, total: nat)                  // hash not found, document and chunks planned
    | Writing(doc: Doc, written: nat, total: nat)    // document insert done, some chunks written
    | Succeeded                                      // run_job returned Ok, transaction still open
    | Erred                                          // run_job returned Err, transaction still open
    | Committed                                      // transaction committed, status not yet written
    | RolledBack                                     // transaction rolled back, status not yet written

  /** A busy worker: its job, when it claimed it, and the uncommitted rows of its transaction. */
  datatype Worker = Worker(job: JobId, since: int, pc: Pc, docs: set<Doc>, chunks: set<Chunk>)

  /** `workers` holds the busy workers; `usedIds` the document identifiers generated so far. */
  datatype State = State(jobs: Jobs, docs: set<Doc>, chunks: set<Chunk>, usedIds: set<Uuid>,
                         workers: map<WorkerId, Worker>, now: int)

  /**
   * What stays fixed over a run: the content hash; how many chunks a job with
   * these bytes and this strategy writes, `None` if decoding, chunking,
   * embedding or extraction refuses the bytes, or the store refuses the rows
   * they make, whenever it is tried; the rows of the namespace table; the
   * reaper interval.
   */
  datatype Env = Env(hash: seq<Byte> -> string, plan: (string, seq<Byte>) -> Option<nat>,
                     namespaces: set<string>, interval: nat)
  {
    /** The pipeline can get from the bytes to at least one stored chunk. */
    predicate Plannable(chunkStrategy: string, bytes: seq<Byte>) {
      plan(chunkStrategy, bytes).Some? && plan(chunkStrategy, bytes).value >= 1
    }
  }

  datatype Step =
    | Enqueue(id: JobId, source: string, namespace: string, chunkStrategy: string, payload: Option<seq<Byte>>)
    | Claim(w: WorkerId, id: JobId)
    | BeginTx(w: WorkerId)
    | CheckHash(w: WorkerId, bytes: seq<Byte>, docId: Uuid)
    | InsertDoc(w: WorkerId)
    | InsertChunk(w: WorkerId)
    | FinishRun(w: WorkerId)
    | RunError(w: WorkerId)
    | Commit(w: WorkerId)
    | Rollback(w: WorkerId)
    | MarkCompleted(w: WorkerId)
    | MarkFailed(w: WorkerId, error: string)
    | Requeue
    | ReapFail
    | Tick(elapsed: nat)
    | Crash(w: WorkerId)

  predicate At(s: State, w: WorkerId) {
    w in s.workers && s.workers[w].job in s.jobs
  }

  /** A committed document with this hash is in the namespace: the job is skipped. */
  predicate Exists(docs: set<Doc>, namespace: string, hash: string) {
    exists d :: d in docs && d.namespace == namespace && d.hash == hash
  }

  predicate HashTaken(docs: set<Doc>, hash: string) {
    exists d :: d in docs && d.hash == hash
  }

  predicate IdTaken(docs: set<Doc>, id: Uuid) {
    exists d :: d in docs && d.id == id
  }

  /** An insert of this hash has to wait for another open transaction that inserted it. */
  predicate Blocked(s: State, w: WorkerId, hash: string) {
    exists v :: v in s.workers && v != w && HashTaken(s.workers[v].docs, hash)
  }

  predicate Enabled(env: Env, s: State, step: Step) {
    match step
    case Enqueue(id, _, _, _, _) => id !in s.jobs
    case Claim(w, id) => w !in s.workers && id in s.jobs && s.jobs[id].status == Queued
    case BeginTx(w) => At(s, w) && s.workers[w].pc == Holding
    case CheckHash(w, bytes, docId) =>
      && At(s, w) && s.workers[w].pc == Begun
      && (s.jobs[s.workers[w].job].payload.Some? ==> bytes == s.jobs[s.workers[w].job].payload.value)
      && docId !in s.usedIds
    case InsertDoc(w) => At(s, w) && s.workers[w].pc.Missing? && !Blocked(s, w, s.workers[w].pc.doc.hash)
    case InsertChunk(w) =>
      At(s, w) && s.workers[w].pc.Writing? && s.workers[w].pc.written < s.workers[w].pc.total
    case FinishRun(w) =>
      At(s, w) && s.workers[w].pc.Writing? && s.workers[w].pc.written == s.workers[w].pc.total
    case RunError(w) =>
      At(s, w) && (s.workers[w].pc.Begun? || s.workers[w].pc.Missing? || s.workers[w].pc.Writing?)
    case Commit(w) => At(s, w) && s.workers[w].pc.Succeeded?
    case Rollback(w) => At(s, w) && s.workers[w].pc.Erred?
    case MarkCompleted(w) => At(s, w) && s.workers[w].pc.Committed?
    case MarkFailed(w, _) => At(s, w) && s.workers[w].pc.RolledBack?
    case Requeue => true
    case ReapFail => true
    case Tick(_) => true
    case Crash(w) => w in s.workers
  }

  function Put(s: State, w: WorkerId, k: Worker): State {
    s.(workers := s.workers[w := k])
  }

  function Drop(s: State, w: WorkerId): State {
    s.(workers := s.workers - {w})
  }

  function ClaimedBy(s: State, w: WorkerId, id: JobId): State
    requires id in s.jobs
  {
    Put(s, w, Worker(id, s.now, Holding, {}, {})).(jobs := s.jobs[id := Claimed(s.jobs[id], s.now)])
  }

  /** Skips a known document, plans a new one under a fresh identifier, or refuses bytes it cannot chunk. */
  function HashChecked(env: Env, s: State, w: WorkerId, bytes: seq<Byte>, docId: Uuid): State
    requires At(s, w)
  {
    var k := s.workers[w];
    var j := s.jobs[k.job];
    if Exists(s.docs, j.namespace, env.hash(bytes)) then
      Put(s, w, k.(pc := Succeeded))
    else if env.Plannable(j.chunkStrategy, bytes) then
      var doc := Doc(docId, j.namespace, env.hash(bytes));
      Put(s, w, k.(pc := Missing(doc, env.plan(j.chunkStrategy, bytes).value))).(usedIds := s.usedIds + {docId})
    else
      Put(s, w, k.(pc := Erred))
  }

  /**
   * ON CONFLICT (content_hash) DO NOTHING: the hash is unique across
   * namespaces. A row that is inserted needs its namespace.
   */
  function DocInserted(env: Env, s: State, w: WorkerId): State
    requires At(s, w) && s.workers[w].pc.Missing?
  {
    var k := s.workers[w];
    var writing := Writing(k.pc.doc, 0, k.pc.total);
    if HashTaken(s.docs, k.pc.doc.hash) then
      Put(s, w, k.(pc := writing))
    else if k.pc.doc.namespace in env.namespaces then
      Put(s, w, k.(pc := writing, docs := k.docs + {k.pc.doc}))
    else
      Put(s, w, k.(pc := Erred))
  }

  /** The foreign key of the chunk needs its document. */
  function ChunkInserted(s: State, w: WorkerId): State
    requires At(s, w) && s.workers[w].pc.Writing?
  {
    var k := s.workers[w];
    var Writing(doc, written, total) := k.pc;
    if IdTaken(s.docs + k.docs, doc.id) then
      Put(s, w, k.(pc := Writing(doc, written + 1, total), chunks := k.chunks + {Chunk(doc.id, written)}))
    else
      Put(s, w, k.(pc := Erred))
  }

  function CommittedBy(s: State, w: WorkerId): State
    requires At(s, w)
  {
    var k := s.workers[w];
    Put(s, w, k.(pc := Committed, docs := {}, chunks := {})).(docs := s.docs + k.docs, chunks := s.chunks + k.chunks)
  }

  /** Worker `w` writes the final row of its job and is idle again. */
  function Finalised(s: State, w: WorkerId, j: Job): State
    requires At(s, w)
  {
    Drop(s, w).(jobs := s.jobs[s.workers[w].job := j])
  }

  function Apply(env: Env, s: State, step: Step): State
    requires Enabled(env, s, step)
  {
    match step
    case Enqueue(id, source, namespace, chunkStrategy, payload) =>
      s.(jobs := s.jobs[id := Enqueued(source, namespace, chunkStrategy, payload, s.now)])
    case Claim(w, id) => ClaimedBy(s, w, id)
    case BeginTx(w) => Put(s, w, s.workers[w].(pc := Begun))
    case CheckHash(w, bytes, docId) => HashChecked(env, s, w, bytes, docId)
    case InsertDoc(w) => DocInserted(env, s, w)
    case InsertChunk(w) => ChunkInserted(s, w)
    case FinishRun(w) => Put(s, w, s.workers[w].(pc := Succeeded))
    case RunError(w) => Put(s, w, s.workers[w].(pc := Erred))
    case Commit(w) => CommittedBy(s, w)
    case Rollback(w) => Put(s, w, s.workers[w].(pc := RolledBack, docs := {}, chunks := {}))
    case MarkCompleted(w) => Finalised(s, w, MarkedCompleted(s.jobs[s.workers[w].job], s.now))
    case MarkFailed(w, error) => Finalised(s, w, MarkedFailed(s.jobs[s.workers[w].job], s.now, error))
    case Requeue => s.(jobs := RequeueAll(s.jobs, s.now, env.interval))
    case ReapFail => s.(jobs := FailAll(s.jobs, s.now, env.interval))
    case Tick(elapsed) => s.(now := s.now + elapsed)
    case Crash(w) => Drop(s, w)
  }

  /** A run: a list of steps each of which is enabled when it is taken. */
  predicate Playable(env: Env, s: State, steps: seq<Step>)
    decreases |steps|
  {
    steps == [] || (Enabled(env, s, steps[0]) && Playable(env, Apply(env, s, steps[0]), steps[1..]))
  }

  function Play(env: Env, s: State, steps: seq<Step>): State
    requires Playable(env, s, steps)
    decreases |steps|
  {
    if steps == [] then s else Play(env, Apply(env, s, steps[0]), steps[1..])
  }

  /** A step before a run makes a run. */
  lemma PlayStep(env: Env, s: State, step: Step, steps: seq<Step>)
    requires Enabled(env, s, step) && Playable(env, Apply(env, s, step), steps)
    ensures Playable(env, s, [step] + steps) && Play(env, s, [step] + steps) == Play(env, Apply(env, s, step), steps)
  {
    assert ([step] + steps)[1..] == steps;
  }

  /** A run after a run is a run. */
  lemma {:induction false} PlayConcat(env: Env, s: State, first: seq<Step>, second: seq<Step>)
    requires Playable(env, s, first) && Playable(env, Play(env, s, first), second)
    ensures Playable(env, s, first + second)
    ensures Play(env, s, first + second) == Play(env, Play(env, s, first), second)
    decreases |first|
  {
    if first == [] {
      assert first + second == second;
    } else {
      PlayConcat(env, Apply(env, s, first[0]), first[1..], second);
      assert (first + second)[1..] == first[1..] + second;
    }
  }

  ghost predicate Initial(s: State) {
    s.jobs == map[] && s.docs == {} && s.chunks == {} && s.usedIds == {} && s.workers == map[]
  }
}
