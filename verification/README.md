# Verified model of pg-raggraph-rs

A Dafny 4.11 model of the parts of pg-raggraph-rs in which state, concurrency or
arithmetic can go wrong, with proofs of what they keep. `dafny verify dfyconfig.toml`
verifies the whole project.

## What is modelled

**The ingest queue.** `QueueRow` gives the effect of each SQL statement on a row of
`pgrg.ingest_jobs`; `JobQueue` is the table as an object whose methods are the claim, the two
finalisers and the reaper sweep. `ProcessOne` is one undisturbed poll cycle of the sidecar.
`IngestProtocol` is the concurrent view: any number of workers, each somewhere between claiming a
job and writing its final status, open transactions with their uncommitted rows, a clock, a
reaper, and a crash possible between any two steps. Claiming, committing the document and
writing the status are separate transactions, and the finalisers do not look at the status they
overwrite, so a late worker can finalise a job that was already requeued or finalised. A COMMIT or
a status update that fails shows as a crash at that point. `EffectivelyOnce`, `WholeDocuments`, `BoundedRetries`
and `LeaseExclusion` hold the safety theorems about all runs; `IngestProgress`, `LoneProgress` and
`SharedProgress` say which jobs can still complete, and what a failing pass leaves; `ProtocolSteps` says
column by column what each step writes.

**The per-document transaction.** `PgClient.FakePgClient` is the buffering client with commit,
rollback and failure injection; `IngestJob.RunJob` and its helpers are `run_job`; `StoreInvariants`
proves what any sequence of jobs keeps, and `Identifiers` and `StoreIdentifiers` that no two rows of a
table share an identifier. `CommittedRows` reads the rows of the graph off what was extracted.

**Entity resolution.** `Jaccard` and `Trigram` (similarity), `NameEmbedding` (the parity vector and
the cosine threshold, computed with a given square root and decided by squares), `StableSort` and `MergeScan` (the
sorted scan, with early exit and with truncation to eight), `Clustering` and `CanonicalIds` (the online
greedy clustering), `NameTwins` and `NameSpellings` (when names that compare alike share an id),
`ResolveEntity` and `MergeMeaning` (the production resolver, and its rule read off the entity table).

**Retrieval.** `WorkingTable` is the recursive CTE as a working-table loop over bags of rows;
`WalkSymmetry`, `WalkRewriting` and `WalkPaths` say what it means; `QuerySql` covers lane gates, the graph lane's
COUNT and the fused score; `Fusion` and `Agreement` cover reciprocal rank fusion.

**Ask and retry.** `Prompt` and `Budget` (greedy context in 32-bit arithmetic), `Scanner`, `Citations`
and `CitationRoundTrip` (the citation scanner), `AskFlow`, `Retry`.

**Supporting pieces.** `Bootstrap` and `BootstrapRuns` (transactional migrations), `VectorLiteral`
(printer and parser).

Foreign functions (hashing, chunking, embedding, extraction, lower-casing, UTF-8, number formatting) are
function-valued parameters about which nothing is assumed unless a lemma says so.

## Results that qualify what the repository promises

* The sidecar is announced to process each job exactly once across instances (`CHANGELOG.md:28`). What
  holds over every run is weaker: at most one committed document per content hash, with all its chunks, and
  a completed payload job has its document. Two workers can hold one job at once as soon as one outlives the reaper
  interval (`LeaseExclusion.TwoHolders`); exclusion holds all along a run exactly if no statement of the
  reaper takes a held job (`LeaseExclusion.ExclusiveExactly`).
* The duplicate check looks in one namespace (`pg_raggraph_core/src/ingest/run.rs:62-67`) but
  `content_hash` is unique across namespaces (`pg_raggraph/sql/001_tables.sql:26`), the namespace column is a
  foreign key that enqueuing does not check, and there are bytes that the pipeline or the store refuses
  every time, such as text that is not UTF-8, makes no chunk or holds a NUL. In every reachable state a
  queued payload job can still complete by runs of its own exactly if its document is in its namespace
  already, or no document anywhere has its hash, its namespace exists and its bytes are not refused under
  its strategy (`LoneProgress.CompletableAloneExactly`). With other jobs beside it, bytes of the same hash
  under any strategy suffice, because another job can bring the document in
  (`SharedProgress.CompletableExactly`).
* The doc comment of `extract_citations` promises a sorted list; the code lists first appearances
  (`CitationRoundTrip.NotSorted`). The list is sorted exactly if no number is cited before a smaller one
  that is first cited later (`Citations.SortedExactly`).
* The reported prompt token count is the sum of the included chunks, and within the budget, exactly if no
  addition of the greedy loop overflows 32 bits (`Budget.BudgetKeptExactly`). Additions wrap around as in
  a release build.
* A canonical name keeps its own index exactly if its vector is not zero or the input has it once
  (`CanonicalIds.CanonicalNamesAreFixed`); the empty name, given twice, does not
  (`CanonicalIds.EmptyNameMoves`).
* Two spellings of a name that differ in case compare with every name alike, but need not get one canonical
  id: the later one joins the entry closest to it, and a closer one may have been opened in between
  (`NameSpellings.SpellingsPart` has four names). They get one id exactly if no entry opened between their
  last occurrences passes both thresholds and is closer (`NameSpellings.SpellingsShareExactly`); it is enough
  that the earlier one's entry is itself a spelling of the name (`NameSpellings.EntrySpellingShares`), or
  that the input has no other name that passes both thresholds (`NameSpellings.LoneSpellingsShare`).
* A parsed vector literal is the printed vector if each number's text reads as that number and is neither
  empty nor holds a comma or white space (`VectorLiteral.RoundTrip`); an empty text loses the
  number (`VectorLiteral.EmptyTextLosesTheNumber`).
* The resolver truncated to eight candidates agrees with the exhaustive rule exactly if nothing is
  acceptable or fewer than eight entities rank ahead of the best one (`ResolveEntity.MergeTargetExact`).
* The single OR-join of the query returns the bag of the design's two directed joins exactly if the walk
  meets no self-loop before the last hop (`WalkRewriting.RewritingKeepsBagExactly`); the set of rows is
  always the same.
* Agreement between lanes beats rank at exactly the lane depths at which the two lightest lanes at the last
  rank outweigh the heaviest at rank 1 (`Agreement.AgreementDepth`); with equal weights, the default, these
  are the depths up to 61 (`Agreement.EqualWeightsDepth`).
* The retry loop does not always use its attempts: it uses all of them exactly if each but the last fails
  retryably and the next is due, after a positive backoff, before the cap (`Retry.AllAttemptsUsed`).

## Model

| member | source | states |
|---|---|---|
| EffectivelyOnce.EffectivelyOnce | pg_raggraph_sidecar/src/jobloop.rs:199-263 | over every run, with crashes anywhere and late finalisers: no two committed documents share a hash, each has a chunk, and every completed payload job has its document with a chunk committed in its namespace |
| EffectivelyOnce.StepKeepsInv | pg_raggraph_core/src/ingest/run.rs:52-146 | every protocol step keeps the invariant behind it: hashes unique among all documents in sight, planned identifiers known to one worker, succeeded workers have what they will report |
| EffectivelyOnce.RunKeepsInv | pg_raggraph_sidecar/src/jobloop.rs:199-263 | so does every run |
| EffectivelyOnce.LostRaceErrs | pg_raggraph_sidecar/src/pg_client.rs:123-167 | a worker that lost the insert race writes no chunk: its insert was a no-op, the chunk's foreign key fails, and it can only roll back |
| EffectivelyOnce.ForeignKey | pg_raggraph/sql/001_tables.sql:32-44 | the foreign key of a planned chunk holds exactly if its worker's own document insert took effect |
| EffectivelyOnce.CrossNamespaceNeverCompletes | pg_raggraph/sql/001_tables.sql:22-30 | a payload job whose hash is committed in another namespace is not completed in any reachable state |
| WholeDocuments.WholeDocuments | pg_raggraph_core/src/ingest/run.rs:107-146 | over every run, with crashes anywhere, each committed document has exactly the chunks that bytes of its hash make under some strategy, numbered from 0, each committed chunk belongs to a committed document, and no two documents share an identifier |
| WholeDocuments.StepKeepsWhole | pg_raggraph_core/src/ingest/run.rs:52-146 | every step keeps the invariant behind it: open transactions hold the chunks counted so far of documents no one else has |
| IngestProgress.LonePassCompletes | pg_raggraph_sidecar/src/jobloop.rs:199-263 | with no other worker busy, one pass completes a queued payload job whose document is in its namespace, or whose hash is free, namespace known and bytes not refused; the document ends up committed there |
| IngestProgress.LonePassFails | pg_raggraph_sidecar/src/jobloop.rs:199-263 | with no worker busy, a pass over a queued payload job that is not ready can be played to its end: no document or chunk is written, no worker stays busy, and the row is failed with that error, its finish time, one attempt more and its first start time |
| LoneProgress.CompletableAloneExactly | pg_raggraph_core/src/ingest/run.rs:62-146 | in every reachable state, whatever the workers are doing, runs in which nothing is done for other jobs can complete a queued payload job if and only if its document is in its namespace, or its hash is free, its namespace known and neither pipeline nor store refuses its bytes for good |
| SharedProgress.CompletableExactly | pg_raggraph/sql/001_tables.sql:22-30 | in every reachable state, whatever the workers are doing, some continuation completes it if and only if its document is in its namespace, or its hash is free, its namespace known and some bytes of that hash are not refused under some strategy |
| SharedProgress.CompletedIsIngestible | pg_raggraph_core/src/ingest/run.rs:70-79 | over every run, a completed payload job has a known namespace and a hash of bytes that are not refused: what is always refused never completes |
| IngestProgress.RunGrows | pg_raggraph_sidecar/src/jobloop.rs:199-263 | runs delete no document and no job and change no job's content |
| BoundedRetries.StepOfJob | pg_raggraph_sidecar/src/jobloop.rs:145-160 | a step counts up the attempts exactly if it claims the job, keeps final statuses final, lowers the measure on every claim and sweep, and writing a status completes or fails exactly the writer's own job |
| ProtocolSteps.RowsWritten | pg_raggraph_sidecar/src/jobloop.rs:143-184 | column by column, what enqueuing, claiming, completing and failing write, and that no other step but the sweeps writes a row |
| ProtocolSteps.SweepsWrite | pg_raggraph_sidecar/src/jobloop.rs:294-327 | which rows each of the reaper's two statements takes and what becomes of them, and that it leaves all others alone |
| ProtocolSteps.DataWritten | pg_raggraph_sidecar/src/jobloop.rs:225-262 | only a commit makes rows visible, exactly those of its transaction; a rollback discards them |
| ProtocolSteps.OthersUndisturbed | pg_raggraph_sidecar/src/jobloop.rs:199-263 | no step changes another worker or its open transaction |
| BoundedRetries.BoundedRetries | pg_raggraph_sidecar/src/jobloop.rs:294-327 | over every run the attempt count is the number of claims and at most 3, at most 2 while queued, and at most six steps claim, requeue or reap a job |
| BoundedRetries.FinalStaysFinal | pg_raggraph_sidecar/src/jobloop.rs:225-262 | completed and failed are never left, and such a job is never claimed again |
| LeaseExclusion.ExclusiveExactly | pg_raggraph_sidecar/src/jobloop.rs:294-327 | along any run, every state has at most one holder per job, running on its clock, if and only if no requeueing meets a held job that is stale and below the cap, and no reaping one that is stale and at the cap |
| LeaseExclusion.MutualExclusion | pg_raggraph_sidecar/src/jobloop.rs:143-184 | so it is enough that no live holder is overdue whenever the reaper runs |
| LeaseExclusion.SweepExact | pg_raggraph/src/bgw/reaper.rs:9-38 | a sweep keeps exclusion if and only if no live holder is overdue |
| LeaseExclusion.OverdueJobGetsSecondHolder | pg_raggraph_sidecar/src/jobloop.rs:300-310 | a sweep with an overdue holder below the attempt cap lets a second worker claim its job |
| LeaseExclusion.TwoHolders | pg_raggraph_sidecar/src/jobloop.rs:294-327 | for every interval, a run after which two workers hold one job |
| JobQueue.JobQueue.Enqueue | pg_raggraph/sql/001_tables.sql:78-91 | a new row is queued at attempt 0 |
| JobQueue.JobQueue.ClaimNextJob | pg_raggraph/src/bgw/queue.rs:52-91 | claims a queued unlocked row than which none is older, sets it running, counts the attempt, keeps the first start time, and hands out its columns; nothing to claim means no queued unlocked row |
| JobQueue.JobQueue.CompleteJob | pg_raggraph/src/bgw/queue.rs:95-107 | marks the row completed at that time without an error, whatever its status was; an unknown job changes nothing |
| JobQueue.JobQueue.FailJob | pg_raggraph/src/bgw/queue.rs:110-122 | marks the row failed at that time with the error, whatever its status was; an unknown job changes nothing |
| JobQueue.JobQueue.ReapStaleJobs | pg_raggraph_sidecar/src/jobloop.rs:294-327 | requeues exactly the stale running rows below the cap, fails exactly those at the cap, touches no other, counts both |
| QueueRow.SweepWrites | pg_raggraph/src/bgw/reaper.rs:9-38 | what a row comes to in one sweep: requeued below three attempts, failed with the reaper's remark from there on, untouched unless running and stale |
| ProcessOne.ProcessOne | pg_raggraph_sidecar/src/jobloop.rs:199-263 | idle leaves everything as it was; a job that succeeds has its document committed in its namespace, a job that fails changes no committed row; the row ends up finalised from its claimed state, or still running if the status update is lost, which is an error after a success and unnoticed after a failure |
| ProcessOne.ClaimedJobCommits | pg_raggraph_sidecar/src/jobloop.rs:102-132 | a claimed job that inserts commits one document under its own source and namespace, with the hash of its payload's or file's bytes, chunked by its own strategy, or by the automatic one |
| ProcessOne.JobLeavesPayload | pg_raggraph_sidecar/src/jobloop.rs:102-132 | a claimed payload job that does not fail leaves a document with its payload's hash in its namespace |
| ProcessOne.PayloadSurvives | pg_raggraph_sidecar/src/jobloop.rs:102-132 | the bytes that are hashed are the payload's bytes, whether the source is built as text or as bytes |
| ProcessOne.JobLeavesDocument | pg_raggraph_core/src/ingest/run.rs:62-67 | a job that does not fail leaves its document in its namespace, inserted or found |
| PgClient.FakePgClient.InsertChunk | pg_raggraph_core/src/ingest/pg_client.rs:206-216 | fails exactly at the configured insert or on a refused write, otherwise buffers the chunk; counts every attempt |
| PgClient.FakePgClient.Commit | pg_raggraph_core/src/ingest/pg_client.rs:269-278 | appends the buffers to the canonical tables and empties them |
| PgClient.FakePgClient.Rollback | pg_raggraph_core/src/ingest/pg_client.rs:259-267 | empties the buffers and leaves the canonical tables alone |
| PgClient.TopMatches | pg_raggraph_core/src/ingest/pg_client.rs:233-257 | the candidates are the namespace's entities in stable descending order of similarity, cut to the limit |
| IngestJob.PersistMention | pg_raggraph_core/src/ingest/run.rs:167-189 | links the chunk to the entity the resolver merges into, or to a new one buffered with the link |
| IngestJob.PersistEntities | pg_raggraph_core/src/ingest/run.rs:164-189 | one link per mention in order, and the name map with the last mention of a name winning |
| IngestJob.PersistRelationships | pg_raggraph_core/src/ingest/run.rs:191-208 | one row per relationship with both names in the map, between the mapped entities, in order |
| IngestJob.PersistChunkExtraction | pg_raggraph_core/src/ingest/run.rs:156-211 | on success buffers exactly the rows of the chunk's extraction |
| IngestJob.PersistChunk | pg_raggraph_core/src/ingest/run.rs:109-129 | on success buffers the chunk, each column from its place, and what was extracted from it; with a willing store and provider it fails exactly at the configured insert |
| IngestJob.FailsWithinRange | pg_raggraph_core/src/ingest/pg_client.rs:207-212 | the failing insert is hit exactly if its number is among the document's chunk inserts |
| IngestJob.PersistNext | pg_raggraph_core/src/ingest/run.rs:109-129 | one chunk more: the buffer grows by its record, with identifiers that no row before it has |
| IngestJob.PersistDocument | pg_raggraph_core/src/ingest/run.rs:107-131 | on success the buffer is the document, its chunks and the rows extracted from each |
| IngestJob.RunJob | pg_raggraph_core/src/ingest/run.rs:52-146 | buffers are empty afterwards; an error or a skip changes no committed row; a completed job appends its document, absent before, and one chunk row for each text chunk in order, with its order number, text and token count, the document's identifier, the namespace and its vector of the batch; a known hash is skipped; a source that cannot be read, decoded, chunked or embedded is refused with the first of these errors; with a store and providers that refuse nothing, the job succeeds if and only if its hash is known or the configured failing insert is not among its chunks |
| IngestJob.ChunksCommitted | pg_raggraph_core/src/ingest/run.rs:109-129 | so for any records of a document: as many chunk rows as text chunks, each with its own fields |
| IngestJob.PersistAtomically | pg_raggraph_core/src/ingest/run.rs:97-146 | the document with everything it brings is committed, or nothing is; a failing insert in range is an error |
| CommittedRows.GraphRowsAdded | pg_raggraph_core/src/ingest/run.rs:156-211 | the entities, links and relationships a job adds are exactly those of its mentions and relationships, behind the rows that were there |
| CommittedRows.MentionCommitted | pg_raggraph_core/src/ingest/run.rs:167-189 | each mention of a committed chunk links it to the entity merged into, judged by the vector of its name alone, or to a new entity with the extracted fields |
| StoreInvariants.JobKeepsInvariant | pg_raggraph_core/src/ingest/run.rs:107-146 | whatever a job returns, hashes stay unique per namespace, no document is without a chunk, and every reference leads to a committed row of its namespace |
| StoreInvariants.RunJobs | pg_raggraph_core/src/ingest/run.rs:52-146 | so over any sequence of jobs with writes refused anywhere; documents are only appended, one per completed job; identifiers stay drawn in order |
| StoreInvariants.IngestFromScratch | pg_raggraph_core/src/ingest/pg_client.rs:206-216 | a new store, with a chunk insert set to fail or not, holds after any jobs one document per completed job, and no two rows of a table share an identifier |
| StoreInvariants.ReferencesAreUnique | pg_raggraph/sql/001_tables.sql:22-76 | then every document, chunk and entity reference leads to exactly one row |
| StoreIdentifiers.JobKeepsDrawn | pg_raggraph_core/src/ingest/run.rs:97-131 | the rows a job commits have identifiers drawn for it, rising in every table, so later jobs cannot repeat them |
| Identifiers.DrawnRise | pg_raggraph_core/src/ingest/run.rs:97-101 | identifiers drawn one after the other are all different |
| StoreInvariants.KeptExactly | pg_raggraph_core/src/ingest/run.rs:191-197 | a relationship is kept as often as it was extracted if the chunk mentions both names, and never otherwise |
| StoreInvariants.KeptInOrder | pg_raggraph_core/src/ingest/run.rs:191-208 | and in the order of extraction |
| StoreInvariants.RelationshipEnds | pg_raggraph_core/src/ingest/run.rs:191-208 | each row written joins the entities its two names were last resolved to |
| StoreInvariants.NameIdsLast | pg_raggraph_core/src/ingest/run.rs:165-182 | the name map has exactly the mentioned names, each with the entity of its last mention |
| StoreInvariants.SecondIngestSkips | pg_raggraph_core/src/ingest/run.rs:62-67 | a job whose hash is already in its namespace adds nothing |
| Jaccard.Triangle | pg_raggraph_core/src/ingest/pg_client.rs:136-153 | one minus Jaccard similarity satisfies the triangle inequality, empty sets included |
| Jaccard.DistanceZero | pg_raggraph_core/src/ingest/pg_client.rs:146-152 | only equal sets are at distance zero |
| Trigram.TrgmSim | pg_raggraph_core/src/ingest/pg_client.rs:136-153 | the loop computes the Jaccard index of the two padded trigram sets, which it also hands out: a text is in one exactly if it has three characters and stands somewhere in the lower-cased name between two blanks on either side |
| Trigram.CollectTrigrams | pg_raggraph_core/src/ingest/pg_client.rs:137-143 | the loop collects exactly the three-character substrings of the lower-cased name between two blanks on either side |
| Trigram.SameLowerSame | pg_raggraph_core/src/ingest/pg_client.rs:136-153 | names that lower-case alike have similarity 1 and compare with every name alike |
| Trigram.SimilarityChains | pg_raggraph_core/src/ingest/pg_client.rs:136-153 | two names close to a third are close to each other |
| NameEmbedding.ClearsMeansCosine | pg_raggraph_core/src/ingest/resolve.rs:72-84 | the squared form of the threshold decides as the quotient by the two norms does, zero and mismatched vectors included |
| NameEmbedding.ClearsScale | pg_raggraph_core/src/ingest/resolve.rs:96-101 | normalising either vector changes no decision |
| NameEmbedding.ClearsItself | pg_raggraph_core/src/ingest/resolve.rs:79-83 | a vector reaches the threshold against itself exactly if it is not zero |
| NameEmbedding.ParityNameVec | pg_raggraph_core/src/ingest/resolve.rs:90-103 | the loop builds the byte sums divided by their norm, or leaves them zero |
| NameEmbedding.ParityVecDecides | pg_raggraph_core/src/ingest/resolve.rs:90-103 | the normalised vector has norm one or is zero, and decides every comparison as the raw byte sums do |
| NameEmbedding.ParityCosine | pg_raggraph_core/src/ingest/resolve.rs:72-84 | the cosine quotient of two normalised name vectors reaches 0.90 exactly if the raw sums pass the squared test |
| NameEmbedding.AddLanes | pg_raggraph_core/src/ingest/resolve.rs:92-95 | lane i collects the bytes at positions i modulo 8 |
| NameEmbedding.OneByteChanged | pg_raggraph_core/src/ingest/resolve.rs:92-95 | changing the byte at position i changes the lane i modulo 8 by the difference and no other |
| NameEmbedding.DotIsSum | pg_raggraph_core/src/ingest/resolve.rs:76 | the dot product is the sum of the products place by place |
| NameEmbedding.ScaleInPlace | pg_raggraph_core/src/ingest/resolve.rs:97-101 | scales the array in place |
| NameEmbedding.ZeroNames | pg_raggraph_core/src/ingest/resolve.rs:90-103 | a name has a zero vector exactly if it has no non-zero byte |
| StableSort.Order | pg_raggraph_core/src/ingest/resolve.rs:118-123 | every index once, keys falling, ties in original order |
| StableSort.OrderUnique | pg_raggraph_core/src/ingest/resolve.rs:118-123 | that order is unique, so every stable descending sort yields it |
| StableSort.RankIsAhead | pg_raggraph_core/src/ingest/pg_client.rs:250-255 | the rank of an index is the number of indices ahead of it |
| MergeScan.ScanWithBreak | pg_raggraph_core/src/ingest/resolve.rs:123-133 | the scan with early exit picks the acceptable candidate of greatest similarity, ties to the lowest index |
| MergeScan.TruncationExact | pg_raggraph_core/src/ingest/resolve.rs:46-57 | the truncated scan never picks anything else, and agrees exactly if nothing is acceptable or fewer than the limit rank ahead |
| MergeScan.FewSimilarSuffice | pg_raggraph_core/src/ingest/resolve.rs:46-57 | it agrees if at most the limit clear the trigram threshold |
| MergeScan.NinthCandidateIsLost | pg_raggraph_core/src/ingest/resolve.rs:22 | nine similar candidates of which only the last is acceptable defeat a limit of eight |
| ResolveEntity.FindTarget | pg_raggraph_core/src/ingest/resolve.rs:46-57 | the scan over the candidates the client offers finds the merge target, or nothing if there is none |
| ResolveEntity.ResolveOrInsertEntity | pg_raggraph_core/src/ingest/resolve.rs:38-68 | returns the merge target and writes nothing, or buffers a new entity and returns its identifier |
| ResolveEntity.ScanFindsTarget | pg_raggraph_core/src/ingest/resolve.rs:46-57 | the first accepted candidate the client offers is the merge target |
| ResolveEntity.MergeTargetExact | pg_raggraph_core/src/ingest/resolve.rs:38-68 | a merge only ever picks the exhaustive rule's entity, and when it picks none although there is one |
| ResolveEntity.FewCandidatesSuffice | pg_raggraph_core/src/ingest/pg_client.rs:233-257 | with at most eight entities of the namespace over the trigram threshold, the production resolver is the exhaustive one |
| MergeMeaning.MergeTargetIs | pg_raggraph_core/src/ingest/resolve.rs:38-68 | read off the table: the target is the acceptable entity of the namespace that is more similar than every other acceptable one, or as similar and earlier, if fewer than eight of the namespace precede it in this order; otherwise there is none |
| MergeMeaning.NoMergeTarget | pg_raggraph_core/src/ingest/resolve.rs:46-57 | no target if no entity of the namespace has a vector and passes both thresholds |
| Clustering.ClusteringInvariant | pg_raggraph_core/src/ingest/resolve.rs:113-143 | after every input list the entries are pairwise unmergeable, every name is covered by its entry, and an entry's name maps to it exactly if no later entry repeats the name |
| Clustering.IdsAreNames | pg_raggraph_core/src/ingest/resolve.rs:116-142 | exactly the input names get an id |
| Clustering.GroupedAreClose | pg_raggraph_core/src/ingest/resolve.rs:113-143 | names in one group are within twice the merge distance |
| Clustering.LonerEntries | pg_raggraph_core/src/ingest/resolve.rs:117-140 | a name that merges with nothing has one entry for each of its occurrences in the input |
| Clustering.KeepsIndexExactly | pg_raggraph_core/src/ingest/resolve.rs:134-140 | an entry's name keeps the index of all its entries exactly if it merges with itself or has one entry |
| Clustering.CanonicalFixedExactly | pg_raggraph_core/src/ingest/resolve.rs:134-140 | when an entry's name maps back to the entry |
| CanonicalIds.ResolveCanonicalIds | pg_raggraph_core/src/ingest/resolve.rs:113-143 | the loop over growing entries, their normalised vectors and the ids computes the clustering |
| CanonicalIds.FindOrAdd | pg_raggraph_core/src/ingest/resolve.rs:117-140 | one round assigns the best entry by the cosine quotient of normalised vectors, or opens a new one with its vector |
| CanonicalIds.RoundJoins | pg_raggraph_core/src/ingest/resolve.rs:117-140 | a name that passes 0.85 and the cosine test against some entry joins the most similar such entry, ties to the oldest, and nothing else changes |
| CanonicalIds.RoundOpens | pg_raggraph_core/src/ingest/resolve.rs:117-140 | any other name opens an entry |
| CanonicalIds.GroupedNamesStayClose | pg_raggraph_core/src/ingest/resolve.rs:113-143 | any two names with one canonical id have trigram similarity at least 0.70 |
| CanonicalIds.CanonicalEntriesIndependent | pg_raggraph_core/src/ingest/resolve.rs:113-143 | at every loop step no two entries with non-zero vectors pass both thresholds |
| CanonicalIds.CanonicalNamesAreFixed | pg_raggraph_core/src/ingest/resolve.rs:134-140 | a canonical name keeps its index exactly if its vector is not zero or it occurs once in the input |
| CanonicalIds.CanonicalEntryIsFixed | pg_raggraph_core/src/ingest/resolve.rs:134-140 | an entry keeps its index exactly if its vector is not zero or no later entry repeats its name |
| CanonicalIds.ZeroNamesOpenEntries | pg_raggraph_core/src/ingest/resolve.rs:72-84 | a name with a zero vector opens a new entry every time |
| CanonicalIds.EmptyNameMoves | pg_raggraph_core/src/ingest/resolve.rs:113-143 | the empty name, given twice, loses its first entry |
| NameTwins.ShareExactly | pg_raggraph_core/src/ingest/resolve.rs:113-143 | two names that compare alike get one id if and only if no entry opened between their last occurrences is closer than the one the first got |
| NameSpellings.SpellingsShareExactly | pg_raggraph_core/src/ingest/resolve.rs:113-143 | this for two spellings of a name with a non-zero vector, in terms of similarities and byte sums |
| NameSpellings.EntrySpellingShares | pg_raggraph_core/src/ingest/resolve.rs:113-143 | they share their id whenever the earlier one's entry is a spelling of the name |
| NameSpellings.LoneSpellingsShare | pg_raggraph_core/src/ingest/resolve.rs:113-143 | and whenever every input name that passes both thresholds against it is a spelling of it |
| NameSpellings.SpellingsPart | pg_raggraph_core/src/ingest/resolve.rs:113-143 | but not always: abbabba, abababba, ababbba, ABABABBA in this order give the two spellings ids 0 and 1 |
| WorkingTable.Walked | pg_raggraph_core/src/retrieval/query_sql.rs:75-82 | the working-table loop terminates, and its bag holds (v, d) exactly as often as there are walks of d relationship rows from a seed to v, for d up to max(hops, 0) |
| WorkingTable.Join | pg_raggraph_core/src/retrieval/query_sql.rs:78-81 | one evaluation of the recursive term yields the one-step extensions of the working rows, each once, and none past hops |
| WorkingTable.JoinRow | pg_raggraph_core/src/retrieval/query_sql.rs:78-80 | a working row joins each relationship that touches it once |
| WorkingTable.AllWalksCount | pg_raggraph_core/src/retrieval/query_sql.rs:75-82 | a table that lists each walk's end once counts walks |
| WalkPaths.WalkIsPath | pg_raggraph_core/src/retrieval/query_sql.rs:78-81 | a walk is a path from a seed on which each relationship joins the vertices before and after it, either way |
| WalkPaths.ReachesExactly | pg_raggraph_core/src/retrieval/query_sql.rs:75-82 | the table has (v, d) if and only if d is within the hops and a path of d neighbours leads from a seed to v |
| WalkSymmetry.Symmetry | pg_raggraph_core/src/retrieval/query_sql.rs:78-80 | as many walks of length d lead from u to v as from v to u, parallel relationships and self-loops included |
| WalkRewriting.RewritingKeepsRows | docs/superpowers/specs/2026-05-03-pg-raggraph-rs-extension-design.md:145-153 | the OR-join and the design's two directed joins yield the same vertices at the same distances |
| WalkRewriting.RewritingKeepsBagExactly | docs/superpowers/specs/2026-05-03-pg-raggraph-rs-extension-design.md:145-153 | and the same bag if and only if no self-loop is met before the last hop |
| WalkRewriting.SameCount | pg_raggraph_core/src/retrieval/query_sql.rs:75-82 | away from self-loops both terms count the same walks |
| WalkRewriting.LoopCountsTwice | docs/superpowers/specs/2026-05-03-pg-raggraph-rs-extension-design.md:147-152 | at a self-loop the two directed joins count more |
| QuerySql.GraphCountIsWalks | pg_raggraph_core/src/retrieval/query_sql.rs:83-92 | the graph lane's COUNT for a chunk of the namespace that passes the metadata filter is the number of walks of at most hops relationships ending at one of its entities, in hybrid and graph mode with hops at least 1, and 0 otherwise |
| QuerySql.JoinCountsWalks | pg_raggraph_core/src/retrieval/query_sql.rs:85-86 | the join of links and walked rows has one row per such walk |
| QuerySql.SqlScoreIsFuse | pg_raggraph_core/src/retrieval/query_sql.rs:93-102 | the fused CTE scores a chunk as `fuse` does on the same lanes |
| QuerySql.ModeScores | pg_raggraph_core/src/retrieval/query_sql.rs:42-48 | hybrid sums the weighted terms of the three lanes, each other mode takes those of its own lane only |
| QuerySql.GraphModeListsByWalks | pg_raggraph_core/src/retrieval/query_sql.rs:75-105 | in graph mode the chunks come by falling number of walks into their entities, whatever the two gated lanes hold, so the LIMIT cuts off none that more walks reach than one it keeps |
| QuerySql.QueryAgreement | pg_raggraph_core/src/retrieval/query_sql.rs:54-102 | with weights whose two lightest at the lanes' depth outweigh the heaviest at rank 1, chunks that two of the three lanes find precede all that one finds |
| Fusion.Fuse | pg_raggraph_core/src/retrieval/rrf.rs:66-84 | every hit chunk once, with the sum of its weighted reciprocal ranks, scores not increasing |
| Fusion.Accumulate | pg_raggraph_core/src/retrieval/rrf.rs:67-72 | the map has exactly the hit chunks and their sums |
| Fusion.OneHitMore | pg_raggraph_core/src/retrieval/rrf.rs:40-72 | a further hit adds its own lane's weight over 60 plus its rank to its own chunk, and nothing if the lane is unknown |
| Fusion.TotalConserved | pg_raggraph_core/src/retrieval/rrf.rs:66-84 | the scores add up to the contributions |
| Fusion.ScoreOrderIndependent | pg_raggraph_core/src/retrieval/rrf.rs:67-72 | no score depends on the order of the hits |
| Fusion.FusedOrderIndependent | pg_raggraph_core/src/retrieval/rrf.rs:66-84 | permuted hits fuse to the same scored chunks |
| Agreement.AgreementBeatsRank | pg_raggraph_core/src/retrieval/rrf.rs:66-84 | with such weights, chunks found by two lanes precede chunks found by one in the fused list |
| Agreement.AgreementDepth | pg_raggraph_core/src/retrieval/rrf.rs:11 | for any non-negative weights agreement wins at exactly the depths D with 61 times the two lightest greater than 60 + D times the heaviest |
| Agreement.EqualWeightsDepth | pg_raggraph_core/src/retrieval/rrf.rs:29-37 | with equal weights these are the depths up to 61 |
| Agreement.TieAtDepth62 | pg_raggraph_core/src/retrieval/rrf.rs:11 | two hits at rank 62 tie with one at rank 1 |
| Prompt.BuildAskPrompt | pg_raggraph_core/src/llm/prompt.rs:48-97 | fails exactly on a non-positive budget, no chunks, or a first chunk over budget; otherwise the prompt is the system text and context heading, then for each picked chunk i "[i+1] ", its text and a blank line, back to back, then the question; the three maps list the picked chunks in that order, included plus dropped is the input length |
| Prompt.PickWithinBudget | pg_raggraph_core/src/llm/prompt.rs:65-75 | the greedy loop in wrapping 32-bit arithmetic |
| Prompt.WriteBlocks | pg_raggraph_core/src/llm/prompt.rs:81-84 | appends the blocks back to back: block i is "[i+1] ", the text of chunk i and a blank line |
| Prompt.BuildBehind | pg_raggraph_core/src/llm/prompt.rs:65-97 | the selection behind a given head: where each block stands, and that entry i of the three maps has the chunk, document and order number of picked chunk i |
| Prompt.WritePrompt | pg_raggraph_core/src/llm/prompt.rs:77-88 | where each block stands: "[i+1] " with the text of chunk i, the blocks contiguous behind the head, the question behind them |
| Budget.BudgetKeptExactly | pg_raggraph_core/src/llm/prompt.rs:65-75 | for non-negative counts the included sum is the reported count, and within the budget, if and only if no addition overflows |
| Budget.SmallCountsDoNotOverflow | pg_raggraph_core/src/llm/prompt.rs:69 | counts that fit 32 bits together with the budget do not overflow |
| Budget.FirstIncluded | pg_raggraph_core/src/llm/prompt.rs:59-75 | the first chunk is included, and first |
| Budget.IncludedIncrease | pg_raggraph_core/src/llm/prompt.rs:68-75 | the included chunks are a subsequence of the input |
| Budget.IncludedExactly | pg_raggraph_core/src/llm/prompt.rs:68-75 | exactly the chunks that fit when their turn comes |
| Budget.DroppedDoNotFit | pg_raggraph_core/src/llm/prompt.rs:68-75 | without overflow no dropped chunk fits even the final remainder |
| Budget.OverflowTakesHugeChunk | pg_raggraph_core/src/llm/prompt.rs:69-70 | two chunks for which the wrapped count is negative and the sum exceeds the budget |
| Scanner.MatchAtComplete | pg_raggraph_core/src/llm/prompt.rs:118 | greedy digit matching finds the marker at a position if there is one |
| Scanner.MatchesComplete | pg_raggraph_core/src/llm/prompt.rs:120 | the non-overlapping left-to-right scan misses no marker |
| Citations.ExtractCitations | pg_raggraph_core/src/llm/prompt.rs:116-136 | the numbers listed are the in-range scanned ones where they first occur, each resolved through the three maps |
| Citations.ListedExactly | pg_raggraph_core/src/llm/prompt.rs:120-126 | a number is listed if and only if it is in range and some marker cites it |
| Citations.FirstAppearanceOrder | pg_raggraph_core/src/llm/prompt.rs:125-132 | each number once, in order of first appearance |
| Citations.SortedExactly | pg_raggraph_core/src/llm/prompt.rs:108-136 | the list rises if and only if every marker's smaller numbers that are cited at all are cited before it |
| CitationRoundTrip.RoundTrip | pg_raggraph_core/src/llm/prompt.rs:116-136 | markers rendered between texts without '[' come back in order, repeats dropped |
| CitationRoundTrip.NotSorted | pg_raggraph_core/src/llm/prompt.rs:108-110 | the result is not sorted |
| AskFlow.Ask | pg_raggraph_core/src/llm/ask.rs:45-71 | fails exactly if the prompt cannot be built or the provider fails; the citations are those of the completed text, and the text of the cited chunk of the request stands in the completed prompt behind the cited number in brackets |
| Retry.RunWithRetry | pg_raggraph_core/src/llm/retry.rs:65-99 | makes every call that is due and no other, each but the first after an HTTP error and a positive sleep, and returns what the last call returned, or that the retries are exhausted if there was none |
| Retry.TimeBounds | pg_raggraph_core/src/llm/retry.rs:69-93 | every call starts before the cap, all sleeps together fit the cap, and the loop returns no later than the cap plus the last call's duration |
| Retry.NothingAfterFinal | pg_raggraph_core/src/llm/retry.rs:76-95 | nothing is called after a success or any error but an HTTP error |
| Retry.NextCall | pg_raggraph_core/src/llm/retry.rs:69-95 | attempt k + 1 is made if and only if attempt k is made and returns an HTTP error, its backoff is positive and the next start is before the cap |
| Retry.CallGap | pg_raggraph_core/src/llm/retry.rs:81-93 | between two calls passes the backoff listed for that attempt, the last one beyond the list, a second without a list: no call follows a shortened sleep |
| Retry.TimelineUnique | pg_raggraph_core/src/llm/retry.rs:65-99 | policy and outcomes determine the calls and their times |
| Retry.MadeExactly | pg_raggraph_core/src/llm/retry.rs:69-93 | attempt k is made if and only if the cap is positive and each attempt before it returns an HTTP error, has a positive backoff, and leaves the next one due before the cap, all read off the policy, the outcomes and the durations |
| Retry.AllAttemptsUsed | pg_raggraph_core/src/llm/retry.rs:72-93 | all attempts are used if and only if this holds of each but the last |
| Retry.DefaultTimeline | pg_raggraph_core/src/llm/retry.rs:30-37 | the default policy calls a provider that returns HTTP errors at once three times, at 0, 1 and 3 seconds |
| Retry.DefaultStopsAtOnce | pg_raggraph_core/src/llm/retry.rs:57-59 | a provider that answers or returns any other error is called once, and that is the result |
| Retry.ZeroBackoffStops | pg_raggraph_core/src/llm/retry.rs:89-91 | a zero first backoff ends the loop after one call |
| Bootstrap.RunMigrations | pg_raggraph_sidecar/src/bootstrap.rs:98-157 | a failed attempt changes nothing; without a failing statement the attempt succeeds; a successful one has the effect of the base block and the pending migrations and counts them |
| Bootstrap.RunBase | pg_raggraph_sidecar/src/bootstrap.rs:112-122 | executes the base files in order |
| Bootstrap.RunIncremental | pg_raggraph_sidecar/src/bootstrap.rs:135-152 | executes and records the pending incremental migrations in order |
| BootstrapRuns.EmbeddedBootstrap | pg_raggraph_sidecar/src/bootstrap.rs:40-71 | the six embedded files meet the assumptions on the list; on an empty database all run in order, the baseline 1 and the increments 4 and 5 are recorded, and 3 is reported |
| BootstrapRuns.MigratedBuilds | pg_raggraph_sidecar/src/bootstrap.rs:98-157 | a successful attempt leaves the longer of the database's and the binary's prefix of the list, and reports what it added |
| BootstrapRuns.SecondRunIsIdle | pg_raggraph_sidecar/src/bootstrap.rs:78-92 | the next run returns 0 and changes nothing |
| BootstrapRuns.BuiltInOrder | pg_raggraph_sidecar/src/bootstrap.rs:40-71 | every file ran at most once, in version order, and each incremental version is recorded |
| BootstrapRuns.RunAttempts | pg_raggraph_sidecar/src/bootstrap.rs:98-157 | over any sequence of attempts by older and newer binaries with statements failing anywhere, the database holds the longest prefix some attempt brought in |
| VectorLiteral.PrintVector | pg_raggraph_sidecar/src/pg_client.rs:27-43 | the loop prints the bracketed, comma-joined numbers |
| VectorLiteral.ParseVectorLiteral | pg_raggraph_sidecar/src/pg_client.rs:50-61 | the loop computes the parse, failing on the first part that does not read |
| VectorLiteral.SplitAtCommas | pg_raggraph_sidecar/src/pg_client.rs:57 | splits at every comma |
| VectorLiteral.SplitExactly | pg_raggraph_sidecar/src/pg_client.rs:57 | the parts are the one list of comma-free texts that joined with commas is the input |
| VectorLiteral.LiteralText | pg_raggraph_sidecar/src/pg_client.rs:27-43 | what the literal is for no, one and one more number |
| VectorLiteral.PaddingIgnored | pg_raggraph_sidecar/src/pg_client.rs:52 | blanks, tabs and line ends around a literal change nothing |
| VectorLiteral.ParsesExactly | pg_raggraph_sidecar/src/pg_client.rs:50-61 | a text parses to v if and only if, white space around it aside, it is a pair of brackets around nothing or around the comma-joined texts of the numbers of v |
| VectorLiteral.ReadAllExact | pg_raggraph_sidecar/src/pg_client.rs:56-60 | the parts parse to v exactly if each, trimmed, reads as its number |
| VectorLiteral.RoundTrip | pg_raggraph_sidecar/src/pg_client.rs:27-61 | parsing undoes printing for every vector whose numbers print faithfully, the empty one included |
| VectorLiteral.PrintingIsCanonical | pg_raggraph_sidecar/src/pg_client.rs:27-61 | printing a parsed literal and parsing it again gives the same vector, if the numbers that can be read print faithfully |
| VectorLiteral.NumeralsAreFaithful | pg_raggraph_sidecar/src/pg_client.rs:27-61 | the assumption can be met: decimal numerals print faithfully whatever they read |
| VectorLiteral.EmptyTextLosesTheNumber | pg_raggraph_sidecar/src/pg_client.rs:53-55 | a number printed as the empty text would be lost |

## Left out

- The in-process worker's rollback on error: it depends on what the background-worker library does with the value its closure returns; the sidecar's explicit BEGIN, COMMIT and ROLLBACK are modelled.
- HTTP server, provider clients, response parsing, the network shim, CLI and configuration.
- ONNX inference, SHA-256, AES-GCM and the chunkers: arbitrary functions here, which may fail.
- Vector indexes, text ranking and cosine distance inside PostgreSQL: a lane's ranking is given.
- The order in which the graph lane's LIMIT 50 picks rows: the statement has no ORDER BY there, so the lane is any 50 of the ranked groups, and depth 50 is a hypothesis on fusion.
- Path-shaped jobs in the effectively-once theorem: the file may change between attempts.
- Deletes and namespace drops; enum labels; `Backoff`, `redact`, `resolve_provider`, profile lookup.
- The uniqueness of entities, relationships and links that PostgreSQL enforces with ON CONFLICT on top of what `FakePgClient` does.
- Rounding: `f32` and `f64` are real numbers, and NaN does not occur.
- PgClient.FakePgClient.Commit: the five canonical lists and the five buffers are grouped into one value each; which write the store refuses is an arbitrary function, where the fake only refuses a configured chunk insert.
- ProcessOne.ProcessOne: a BEGIN or COMMIT that fails is not part of this sequential view; the protocol has it as a crash.
- EffectivelyOnce.EffectivelyOnce: the queue is the only writer of documents; `pgrg.ingest_extracted` (`pg_raggraph/src/ingest_extracted.rs`) also inserts documents, possibly without chunks, and a payload job can then be skipped onto a document without a chunk.
- LoneProgress.CompletableAloneExactly: the namespace table and what is refused for good do not change during a run; a refusal that may pass is an error of that attempt.
- SharedProgress.CompletableExactly: the same; and since a job may be enqueued with any bytes, a hash collision counts as bytes of the same hash.
- PgClient.UuidSource: identifiers are counted, where the source draws random ones; that these never repeat is assumed.
- Fusion.Fuse: requires that no rank is -60, where the source divides by zero and gets an infinity; real numbers have none.
- Fusion.Accumulate: the same requirement.
- IngestProtocol.Apply: a statement's now() is the clock at the step, not the start of its transaction.
- Retry.RunWithRetry: only calls and sleeps take time, and a sleep takes exactly what was asked for.
- QuerySql.GraphCountIsWalks: the seeds are given; the 0.35 distance cut and LIMIT 8 that choose them are not modelled.
