/**
 * One poll cycle of the sidecar: claim a job, run it against the store, and
 * write the job's final status. Other workers are the concern of
 * `IngestProtocol`; here one cycle runs undisturbed.
 */
module ProcessOne {
  import opened Prelude
  import opened Rows
  import opened PgClient
  import opened IngestRows
  import opened IngestJob
  import opened QueueRow
  import opened JobQueue
  import opened StoreInvariants

  /** `StatusLost` is the error of a cycle whose job succeeded and whose status update did not. */
  datatype ProcessOutcome =
    | Idle
    | Done(id: JobId)
    | Refused(id: JobId, error: string)
    | StatusLost(id: JobId)

  /** A payload is text if it is valid UTF-8 and raw bytes otherwise; without one the source is a path. */
  function RowToIngestSource(sv: Services, source: string, payload: Option<seq<Byte>>): IngestSource {
    match payload
    case Some(bytes) =>
      (match sv.decode(bytes)
       case Some(text) => Text(source, text)
       case None => Bytes(source, bytes))
    case None => Path(source)
  }

  function BuildRequest(sv: Services, job: ClaimedJob): IngestRequest {
    IngestRequest(
      RowToIngestSource(sv, if job.source.Some? then job.source.value else "(unnamed)", job.payload),
      job.namespace,
      if job.chunkStrategy.Some? then job.chunkStrategy.value else "auto")
  }

  /** What a claim returns for a row. */
  function ClaimOf(id: JobId, row: Job): ClaimedJob {
    ClaimedJob(id, Some(row.source), row.namespace, Some(row.chunkStrategy), row.payload, row.attemptCount + 1)
  }

  /** Decoding UTF-8 loses nothing. */
  ghost predicate Utf8(sv: Services) {
    forall bytes :: sv.decode(bytes).Some? ==> sv.encode(sv.decode(bytes).value) == bytes
  }

  /** The pipeline reads the very bytes of the payload, and hashes them, whichever shape the source takes. */
  lemma PayloadSurvives(sv: Services, job: ClaimedJob)
    requires Utf8(sv) && job.payload.Some?
    ensures var source := ReadSource(sv, BuildRequest(sv, job).source);
      source.Ok? && source.value.1 == job.payload.value
  {
    assert sv.decode(job.payload.value).Some? ==>
      sv.encode(sv.decode(job.payload.value).value) == job.payload.value;
  }

  lemma DocumentCommitted(before: Tables, doc: DocRow, recs: seq<ChunkRecord>)
    ensures HasDocument(before.Append(JobTables(doc, recs)).documents, doc.namespace, doc.contentHash)
  {
    RecordRowsContents(recs);
    assert before.Append(JobTables(doc, recs)).documents == before.documents + [doc];
    assert doc in before.documents + [doc];
  }

  /** A job that does not fail leaves its document in its namespace, whether it inserted or found it. */
  lemma JobLeavesDocument(test: NameTest, before: Tables, after: Tables, req: IngestRequest, sv: Services,
                          r: Result<RunJobOutcome, CoreError>, recs: seq<ChunkRecord>)
    requires JobEffect(test, before, after, req, sv, r, recs) && r.Ok?
    ensures ReadSource(sv, req.source).Ok?
    ensures exists d :: d in after.documents && d.namespace == req.namespace
                        && d.contentHash == sv.hash(ReadSource(sv, req.source).value.1)
  {
    if r.value.Completed? {
      var source := ReadSource(sv, req.source).value;
      var doc := DocRow(r.value.documentId, req.namespace, source.0, sv.hash(source.1), None);
      DocumentCommitted(before, doc, recs);
    }
  }

  /** The claimed job's payload is a document of the job's namespace once the job has not failed. */
  lemma JobLeavesPayload(test: NameTest, before: Tables, after: Tables, job: ClaimedJob, sv: Services,
                         r: Result<RunJobOutcome, CoreError>, recs: seq<ChunkRecord>)
    requires JobEffect(test, before, after, BuildRequest(sv, job), sv, r, recs) && r.Ok?
    ensures before.documents <= after.documents
    ensures Utf8(sv) && job.payload.Some? ==>
      exists d :: d in after.documents && d.namespace == job.namespace && d.contentHash == sv.hash(job.payload.value)
  {
    JobLeavesDocument(test, before, after, BuildRequest(sv, job), sv, r, recs);
    if Utf8(sv) && job.payload.Some? {
      PayloadSurvives(sv, job);
    }
  }

  /**
   * What a claimed job that completes has committed, read off the job: its
   * document under its own name and namespace with the hash of the bytes of
   * its payload or file, chunked by its own strategy.
   */
  lemma ClaimedJobCommits(test: NameTest, before: Tables, after: Tables, job: ClaimedJob, sv: Services,
                          r: Result<RunJobOutcome, CoreError>, recs: seq<ChunkRecord>, bytes: seq<Byte>)
    requires JobEffect(test, before, after, BuildRequest(sv, job), sv, r, recs) && r.Ok? && r.value.Completed?
    requires if job.payload.Some? then Utf8(sv) && bytes == job.payload.value
      else sv.readFile(if job.source.Some? then job.source.value else "(unnamed)") == Ok(bytes)
    ensures after.documents == before.documents +
      [DocRow(r.value.documentId, job.namespace, if job.source.Some? then job.source.value else "(unnamed)",
              sv.hash(bytes), None)]
    ensures sv.decode(bytes).Some?
    ensures var chunked :=
        sv.chunk(if job.chunkStrategy.Some? then job.chunkStrategy.value else "auto", sv.decode(bytes).value);
      chunked.Ok? && |chunked.value| == r.value.chunkCount > 0
  {
    var source := ReadSource(sv, BuildRequest(sv, job).source).value;
    if job.payload.Some? {
      PayloadSurvives(sv, job);
    }
    var doc := DocRow(r.value.documentId, job.namespace, source.0, sv.hash(source.1), None);
    TextTablesAppended(before, doc, recs);
  }

  /** What one claimed job does to the committed tables, whichever way it ends. */
  ghost predicate ClaimedEffect(test: NameTest, before: Tables, after: Tables, job: ClaimedJob, sv: Services,
                                r: Result<RunJobOutcome, CoreError>, recs: seq<ChunkRecord>)
  {
    && JobEffect(test, before, after, BuildRequest(sv, job), sv, r, recs)
    && (r.Err? ==> after == before)
    && (r.Ok? ==>
          && before.documents <= after.documents
          && (Utf8(sv) && job.payload.Some? ==>
                HasDocument(after.documents, job.namespace, sv.hash(job.payload.value))))
  }

  /** Steps 3 to 5: the claimed job inside its transaction. */
  method RunClaimed(client: FakePgClient, ids: UuidSource, sv: Services, job: ClaimedJob)
    returns (r: Result<RunJobOutcome, CoreError>, ghost recs: seq<ChunkRecord>)
    requires client.buffered == NO_ROWS && StoreInvariant(client.committed)
    modifies client, ids
    ensures client.buffered == NO_ROWS && StoreInvariant(client.committed)
    ensures ClaimedEffect(client.test, old(client.committed), client.committed, job, sv, r, recs)
  {
    var req := BuildRequest(sv, job);
    r, recs := RunJob(client, ids, req, sv);
    JobKeepsInvariant(client.test, old(client.committed), client.committed, req, sv, r, recs);
    if r.Ok? {
      JobLeavesPayload(client.test, old(client.committed), client.committed, job, sv, r, recs);
    }
  }

  /** Step 6: the status of the claimed row. */
  method Finalise(queue: JobQueue, id: JobId, r: Result<RunJobOutcome, CoreError>, statusWritten: bool,
                  now: int, show: CoreError -> string)
    returns (outcome: ProcessOutcome)
    requires id in queue.jobs
    modifies queue
    ensures outcome ==
      if r.Err? then Refused(id, show(r.error)) else if statusWritten then Done(id) else StatusLost(id)
    ensures var j := old(queue.jobs)[id];
      queue.jobs == old(queue.jobs)[id :=
        if !statusWritten then j
        else if r.Ok? then j.(status := Status.Completed, finishedAt := Some(now), updatedAt := now, error := None)
        else j.(status := Status.Failed, finishedAt := Some(now), updatedAt := now, error := Some(show(r.error)))]
  {
    match r {
      case Ok(_) =>
        if !statusWritten {
          return StatusLost(id);
        }
        queue.CompleteJob(id, now);
        return Done(id);
      case Err(e) =>
        if statusWritten {
          queue.FailJob(id, show(e), now);
        }
        return Refused(id, show(e));
    }
  }

  method RunAndFinalise(queue: JobQueue, client: FakePgClient, ids: UuidSource, sv: Services, job: ClaimedJob,
                        now: int, statusWritten: bool, show: CoreError -> string)
    returns (outcome: ProcessOutcome, ghost r: Result<RunJobOutcome, CoreError>, ghost recs: seq<ChunkRecord>)
    requires client.buffered == NO_ROWS && StoreInvariant(client.committed) && job.id in queue.jobs
    modifies queue, client, ids
    ensures client.buffered == NO_ROWS && StoreInvariant(client.committed)
    ensures outcome == (if r.Err? then Refused(job.id, show(r.error))
                        else if statusWritten then Done(job.id) else StatusLost(job.id))
    ensures var j := old(queue.jobs)[job.id];
      queue.jobs == old(queue.jobs)[job.id :=
        if !statusWritten then j
        else if r.Ok? then j.(status := Status.Completed, finishedAt := Some(now), updatedAt := now, error := None)
        else j.(status := Status.Failed, finishedAt := Some(now), updatedAt := now, error := Some(show(r.error)))]
    ensures ClaimedEffect(client.test, old(client.committed), client.committed, job, sv, r, recs)
  {
    var result;
    result, recs := RunClaimed(client, ids, sv, job);
    r := result;
    outcome := Finalise(queue, job.id, result, statusWritten, now, show);
  }

  lemma PutTwice(jobs: Jobs, id: JobId, j: Job, k: Job)
    ensures jobs[id := j][id := k] == jobs[id := k]
  {
  }

  method ProcessOne(queue: JobQueue, client: FakePgClient, ids: UuidSource, sv: Services, locked: set<JobId>,
                    claimedAt: int, finishedAt: int, statusWritten: bool, show: CoreError -> string)
    returns (outcome: ProcessOutcome, ghost r: Result<RunJobOutcome, CoreError>, ghost recs: seq<ChunkRecord>)
    requires client.buffered == NO_ROWS && StoreInvariant(client.committed)
    modifies queue, client, ids
    ensures client.buffered == NO_ROWS && StoreInvariant(client.committed)
    ensures outcome.Idle? ==>
      && queue.jobs == old(queue.jobs) && client.committed == old(client.committed)
      && forall k :: k in queue.jobs && k !in locked ==> queue.jobs[k].status != Queued
    ensures !outcome.Idle? ==>
      && OldestQueued(old(queue.jobs), locked, outcome.id)
      && outcome == (if r.Err? then Refused(outcome.id, show(r.error))
                     else if statusWritten then Done(outcome.id) else StatusLost(outcome.id))
      && var row := old(queue.jobs)[outcome.id];
         var j := row.(status := Running, attemptCount := row.attemptCount + 1, updatedAt := claimedAt,
                       startedAt := if row.startedAt.Some? then row.startedAt else Some(claimedAt));
         && queue.jobs == old(queue.jobs)[outcome.id :=
              if !statusWritten then j
              else if r.Ok? then j.(status := Status.Completed, finishedAt := Some(finishedAt), updatedAt := finishedAt, error := None)
              else j.(status := Status.Failed, finishedAt := Some(finishedAt), updatedAt := finishedAt,
                      error := Some(show(r.error)))]
         && ClaimedEffect(client.test, old(client.committed), client.committed, ClaimOf(outcome.id, row), sv, r, recs)
  {
    var job := queue.ClaimNextJob(claimedAt, locked);
    if job.None? {
      return Idle, Err(Llm("")), [];
    }
    ghost var id, claimed := job.value.id, queue.jobs[job.value.id];
    outcome, r, recs := RunAndFinalise(queue, client, ids, sv, job.value, finishedAt, statusWritten, show);
    PutTwice(old(queue.jobs), id, claimed, queue.jobs[id]);
  }
}
