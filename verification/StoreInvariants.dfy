/**
 * What every sequence of ingest jobs keeps: one document per content hash in a
 * namespace, no document without a chunk, and no dangling reference.
 */
module StoreInvariants {
  import opened Prelude
  import opened Sequences
  import opened Rows
  import opened PgClient
  import opened IngestRows
  import opened IngestJob
  import opened StoreIdentifiers

  ghost predicate UniqueDocuments(documents: seq<DocRow>) {
    forall i, j :: 0 <= i < j < |documents| ==>
      documents[i].namespace != documents[j].namespace || documents[i].contentHash != documents[j].contentHash
  }

  /** A link joins a chunk and an entity of one namespace. */
  ghost predicate LinkClosed(t: Tables, l: ChunkEntityRow, namespace: string) {
    HasChunk(t.chunks, namespace, l.chunkId) && HasEntity(t.entities, namespace, l.entityId)
  }

  ghost predicate RelationshipClosed(t: Tables, r: RelRow) {
    HasEntity(t.entities, r.namespace, r.srcId) && HasEntity(t.entities, r.namespace, r.dstId)
  }

  /** Every reference of `rows` leads to a row of `t`, within one namespace. */
  ghost predicate ClosedIn(rows: Tables, t: Tables) {
    && (forall c :: c in rows.chunks ==> HasDocumentId(t.documents, c.namespace, c.documentId))
    && (forall l :: l in rows.links ==> exists namespace :: LinkClosed(t, l, namespace))
    && (forall r :: r in rows.relationships ==> RelationshipClosed(t, r))
  }

  ghost predicate NoEmptyDocument(t: Tables) {
    forall d :: d in t.documents ==> HasChunkOf(t.chunks, d.id)
  }

  ghost predicate StoreInvariant(t: Tables) {
    UniqueDocuments(t.documents) && ClosedIn(t, t) && NoEmptyDocument(t)
  }

  /** One of the mentions inserted entity `e`. */
  ghost predicate Inserts(ms: seq<Mention>, e: EntityRow) {
    exists i :: 0 <= i < |ms| && ms[i].added == Some(e)
  }

  lemma InsertsAppended(ms: seq<Mention>, e: EntityRow)
    requires ms != []
    ensures var n := |ms| - 1; Inserts(ms, e) <==> Inserts(ms[..n], e) || ms[n].added == Some(e)
  {
    var n := |ms| - 1;
    if i :| 0 <= i < n && ms[..n][i].added == Some(e) {
      assert ms[i].added == Some(e);
    }
    if i :| 0 <= i < |ms| && ms[i].added == Some(e) {
      assert i < n ==> ms[..n][i] == ms[i];
    }
  }

  lemma {:induction false} MentionEntities(ms: seq<Mention>, e: EntityRow)
    ensures e in MentionRows(ms).entities <==> Inserts(ms, e)
  {
    if ms != [] {
      var n := |ms| - 1;
      MentionEntities(ms[..n], e);
      InsertsAppended(ms, e);
      assert MentionRows(ms).entities == MentionRows(ms[..n]).entities + ms[n].Rows().entities;
    }
  }

  ghost predicate Mentioned(ents: seq<ExtractedEntity>, x: string) {
    exists i :: 0 <= i < |ents| && ents[i].name == x
  }

  /** Position of the last mention of a name. */
  function LastMention(ents: seq<ExtractedEntity>, x: string): (i: nat)
    requires Mentioned(ents, x)
    ensures i < |ents| && ents[i].name == x
    ensures forall j :: i < j < |ents| ==> ents[j].name != x
  {
    var n := |ents| - 1;
    if ents[n].name == x then n
    else
      var i :| 0 <= i < |ents| && ents[i].name == x;
      assert ents[..n][i].name == x;
      var last := LastMention(ents[..n], x);
      assert ents[..n][last] == ents[last];
      assert forall j :: last < j < n ==> ents[j] == ents[..n][j];
      last
  }

  /** A mentioned name maps to the entity of its last mention, any other name to none. */
  lemma {:induction false} NameIdsLast(ents: seq<ExtractedEntity>, ms: seq<Mention>, x: string)
    requires |ents| == |ms|
    ensures x in NameIds(ents, ms) <==> Mentioned(ents, x)
    ensures Mentioned(ents, x) ==> NameIds(ents, ms)[x] == ms[LastMention(ents, x)].link.entityId
  {
    if ents != [] {
      var n := |ents| - 1;
      NameIdsLast(ents[..n], ms[..n], x);
      if ents[n].name != x {
        assert Mentioned(ents, x) <==> Mentioned(ents[..n], x) by {
          assert forall i :: 0 <= i < n ==> ents[..n][i] == ents[i];
        }
      }
    }
  }

  lemma {:induction false} KeptCounts(rels: seq<ExtractedRel>, names: set<string>, rel: ExtractedRel)
    ensures multiset(Kept(rels, names))[rel]
         == if rel.srcName in names && rel.dstName in names then multiset(rels)[rel] else 0
    decreases |rels|
  {
    if rels != [] {
      var front, last := rels[..|rels| - 1], rels[|rels| - 1];
      assert rels == front + [last];
      KeptCounts(front, names, rel);
      KeptNext(front, last, names, rel);
    }
  }

  lemma KeptNext(rels: seq<ExtractedRel>, next: ExtractedRel, names: set<string>, rel: ExtractedRel)
    ensures multiset(rels + [next])[rel] == multiset(rels)[rel] + (if rel == next then 1 else 0)
    ensures multiset(Kept(rels + [next], names))[rel] == multiset(Kept(rels, names))[rel]
      + (if rel == next && next.srcName in names && next.dstName in names then 1 else 0)
  {
    assert (rels + [next])[..|rels|] == rels;
    var kept := Kept(rels, names);
    if next.srcName in names && next.dstName in names {
      assert Kept(rels + [next], names) == kept + [next];
      CountAppended(kept, [next], rel);
    } else {
      assert Kept(rels + [next], names) == kept;
    }
    CountAppended(rels, [next], rel);
  }

  /**
   * The relationships kept for a chunk are exactly those of the extraction
   * whose two names the chunk's entity list mentions, as often as extracted.
   */
  lemma KeptExactly(ex: Extraction, ms: seq<Mention>, rel: ExtractedRel)
    requires |ms| == |ex.entities|
    ensures multiset(Kept(ex.relationships, NameIds(ex.entities, ms).Keys))[rel] ==
      if Mentioned(ex.entities, rel.srcName) && Mentioned(ex.entities, rel.dstName)
      then multiset(ex.relationships)[rel] else 0
  {
    KeptCounts(ex.relationships, NameIds(ex.entities, ms).Keys, rel);
    NameIdsLast(ex.entities, ms, rel.srcName);
    NameIdsLast(ex.entities, ms, rel.dstName);
  }

  /** The places of the relationships whose two names are known, in order. */
  function KeptPlaces(rels: seq<ExtractedRel>, names: set<string>): (places: seq<nat>)
    ensures |places| == |Kept(rels, names)|
    ensures forall i :: 0 <= i < |places| ==> places[i] < |rels|
  {
    if rels == [] then []
    else
      var n := |rels| - 1;
      KeptPlaces(rels[..n], names)
      + (if rels[n].srcName in names && rels[n].dstName in names then [n] else [])
  }

  /** The kept relationships stand in the order in which they were extracted. */
  lemma {:induction false} KeptInOrder(rels: seq<ExtractedRel>, names: set<string>, i: nat, j: nat)
    requires i < |Kept(rels, names)| && j < |Kept(rels, names)|
    ensures Kept(rels, names)[i] == rels[KeptPlaces(rels, names)[i]]
    ensures i < j ==> KeptPlaces(rels, names)[i] < KeptPlaces(rels, names)[j]
    decreases |rels|
  {
    var n := |rels| - 1;
    var m := |Kept(rels[..n], names)|;
    if i < m {
      KeptInOrder(rels[..n], names, i, if j < m then j else i);
    }
  }

  /** Each row written joins the entities its relationship's two names were last resolved to. */
  lemma RelationshipEnds(test: NameTest, known: seq<EntityRow>, sv: Services, chunk: ChunkRow,
                         ex: Extraction, rec: ChunkRecord, k: nat)
    requires ExtractionOf(test, known, sv, chunk, ex, rec) && k < |rec.relationships|
    ensures var kept := Kept(ex.relationships, NameIds(ex.entities, rec.mentions).Keys);
      && |kept| == |rec.relationships|
      && Mentioned(ex.entities, kept[k].srcName) && Mentioned(ex.entities, kept[k].dstName)
      && rec.relationships[k] == RelRow(rec.relationships[k].id, chunk.namespace,
           rec.mentions[LastMention(ex.entities, kept[k].srcName)].link.entityId,
           rec.mentions[LastMention(ex.entities, kept[k].dstName)].link.entityId,
           kept[k].kind, kept[k].weight, None)
  {
    var kept := Kept(ex.relationships, NameIds(ex.entities, rec.mentions).Keys);
    NameIdsLast(ex.entities, rec.mentions, kept[k].srcName);
    NameIdsLast(ex.entities, rec.mentions, kept[k].dstName);
  }

  lemma HasEntityGrows(entities: seq<EntityRow>, more: seq<EntityRow>, namespace: string, id: Uuid)
    requires HasEntity(entities, namespace, id) || HasEntity(more, namespace, id)
    ensures HasEntity(entities + more, namespace, id)
  {
    if HasEntity(entities, namespace, id) {
      var e :| e in entities && e.namespace == namespace && e.id == id;
      assert e in entities + more;
    } else {
      var e :| e in more && e.namespace == namespace && e.id == id;
      assert e in entities + more;
    }
  }

  lemma HasChunkGrows(chunks: seq<ChunkRow>, more: seq<ChunkRow>, namespace: string, id: Uuid)
    requires HasChunk(chunks, namespace, id) || HasChunk(more, namespace, id)
    ensures HasChunk(chunks + more, namespace, id)
  {
    if HasChunk(chunks, namespace, id) {
      var c :| c in chunks && c.namespace == namespace && c.id == id;
      assert c in chunks + more;
    } else {
      var c :| c in more && c.namespace == namespace && c.id == id;
      assert c in chunks + more;
    }
  }

  /** Every mention of a chunk links it to an entity of its namespace that is committed or inserted with it. */
  lemma MentionHasEntity(test: NameTest, known: seq<EntityRow>, sv: Services, chunk: ChunkRow,
                         ex: Extraction, rec: ChunkRecord, t: Tables, i: nat)
    requires ExtractionOf(test, known, sv, chunk, ex, rec) && i < |rec.mentions|
    requires forall e :: e in known ==> e in t.entities
    ensures HasEntity(t.Append(rec.Rows()).entities, chunk.namespace, rec.mentions[i].link.entityId)
  {
    var m := rec.mentions[i];
    assert MentionOf(test, known, sv, chunk, ex.entities[i], m);
    RecordFields(rec);
    if m.added.Some? {
      assert Inserts(rec.mentions, m.added.value);
      MentionEntities(rec.mentions, m.added.value);
      assert HasEntity(rec.Rows().entities, chunk.namespace, m.link.entityId);
    } else {
      var e :| e in known && e.namespace == chunk.namespace && e.id == m.link.entityId;
      assert HasEntity(t.entities, chunk.namespace, m.link.entityId);
    }
    HasEntityGrows(t.entities, rec.Rows().entities, chunk.namespace, m.link.entityId);
  }

  lemma RecordLinksClosed(test: NameTest, known: seq<EntityRow>, sv: Services, chunk: ChunkRow,
                          ex: Extraction, rec: ChunkRecord, t: Tables, l: ChunkEntityRow)
    requires ExtractionOf(test, known, sv, chunk, ex, rec) && l in MentionRows(rec.mentions).links
    requires forall e :: e in known ==> e in t.entities
    ensures LinkClosed(t.Append(rec.Rows()), l, chunk.namespace)
  {
    MentionLinks(rec.mentions);
    var i :| 0 <= i < |rec.mentions| && rec.mentions[i].link == l;
    assert MentionOf(test, known, sv, chunk, ex.entities[i], rec.mentions[i]);
    MentionHasEntity(test, known, sv, chunk, ex, rec, t, i);
    RecordFields(rec);
    assert chunk in rec.Rows().chunks;
    HasChunkGrows(t.chunks, rec.Rows().chunks, chunk.namespace, l.chunkId);
  }

  lemma RecordRelationshipsClosed(test: NameTest, known: seq<EntityRow>, sv: Services, chunk: ChunkRow,
                                  ex: Extraction, rec: ChunkRecord, t: Tables, r: RelRow)
    requires ExtractionOf(test, known, sv, chunk, ex, rec) && r in rec.relationships
    requires forall e :: e in known ==> e in t.entities
    ensures RelationshipClosed(t.Append(rec.Rows()), r)
  {
    var kept := Kept(ex.relationships, NameIds(ex.entities, rec.mentions).Keys);
    var k :| 0 <= k < |rec.relationships| && rec.relationships[k] == r;
    RelationshipEnds(test, known, sv, chunk, ex, rec, k);
    MentionHasEntity(test, known, sv, chunk, ex, rec, t, LastMention(ex.entities, kept[k].srcName));
    MentionHasEntity(test, known, sv, chunk, ex, rec, t, LastMention(ex.entities, kept[k].dstName));
  }

  lemma ClosedInGrows(rows: Tables, t: Tables, more: Tables)
    requires ClosedIn(rows, t)
    ensures ClosedIn(rows, t.Append(more))
  {
    var after := t.Append(more);
    forall c | c in rows.chunks ensures HasDocumentId(after.documents, c.namespace, c.documentId) {
      var d :| d in t.documents && d.namespace == c.namespace && d.id == c.documentId;
      assert d in after.documents;
    }
    forall l | l in rows.links ensures exists namespace :: LinkClosed(after, l, namespace) {
      var namespace :| LinkClosed(t, l, namespace);
      HasChunkGrows(t.chunks, more.chunks, namespace, l.chunkId);
      HasEntityGrows(t.entities, more.entities, namespace, l.entityId);
      assert LinkClosed(after, l, namespace);
    }
    forall r | r in rows.relationships ensures RelationshipClosed(after, r) {
      HasEntityGrows(t.entities, more.entities, r.namespace, r.srcId);
      HasEntityGrows(t.entities, more.entities, r.namespace, r.dstId);
    }
  }

  /** Appending rows closed in the result keeps the tables closed. */
  lemma AppendKeepsClosed(t: Tables, more: Tables)
    requires ClosedIn(t, t) && ClosedIn(more, t.Append(more))
    ensures ClosedIn(t.Append(more), t.Append(more))
  {
    ClosedInGrows(t, t, more);
  }

  lemma RecordClosed(test: NameTest, known: seq<EntityRow>, sv: Services, chunk: ChunkRow,
                     ex: Extraction, rec: ChunkRecord, t: Tables)
    requires ExtractionOf(test, known, sv, chunk, ex, rec)
    requires HasDocumentId(t.documents, chunk.namespace, chunk.documentId)
    requires forall e :: e in known ==> e in t.entities
    ensures ClosedIn(rec.Rows(), t.Append(rec.Rows()))
  {
    var rows, after := rec.Rows(), t.Append(rec.Rows());
    RecordFields(rec);
    assert HasDocumentId(after.documents, chunk.namespace, chunk.documentId) by {
      assert after.documents == t.documents;
    }
    forall l | l in rows.links ensures LinkClosed(after, l, chunk.namespace) {
      RecordLinksClosed(test, known, sv, chunk, ex, rec, t, l);
    }
    forall r | r in rows.relationships ensures RelationshipClosed(after, r) {
      RecordRelationshipsClosed(test, known, sv, chunk, ex, rec, t, r);
    }
  }

  lemma {:induction false} RecordsKeepClosed(test: NameTest, known: seq<EntityRow>, sv: Services, doc: DocRow,
                                             chunks: seq<TextChunk>, embeddings: seq<Vector>,
                                             recs: seq<ChunkRecord>, t: Tables)
    requires RecordsOf(test, known, sv, doc, chunks, embeddings, recs)
    requires ClosedIn(t, t) && doc in t.documents
    requires forall e :: e in known ==> e in t.entities
    ensures ClosedIn(t.Append(RecordRows(recs)), t.Append(RecordRows(recs)))
  {
    if recs == [] {
      AppendNone(t);
    } else {
      var n := |recs| - 1;
      RecordsKeepClosed(test, known, sv, doc, chunks, embeddings, recs[..n], t);
      AppendAssociative(t, RecordRows(recs[..n]), recs[n].Rows());
      var before := t.Append(RecordRows(recs[..n]));
      var row := ChunkRowFor(doc, recs[n].chunk.id, chunks[n], embeddings[n]);
      assert RecordOf(test, known, sv, doc, n, chunks[n], embeddings[n], recs[n]);
      RecordClosed(test, known, sv, row, sv.extract(n, chunks[n].text, doc.namespace).value, recs[n], before);
      AppendKeepsClosed(before, recs[n].Rows());
    }
  }

  lemma NoEmptyDocumentGrows(t: Tables, doc: DocRow, more: Tables)
    requires NoEmptyDocument(t) && HasChunkOf(more.chunks, doc.id)
    ensures forall d :: d in t.documents + [doc] ==> HasChunkOf(t.chunks + more.chunks, d.id)
  {
    forall d | d in t.documents + [doc] ensures HasChunkOf(t.chunks + more.chunks, d.id) {
      if d in t.documents {
        var c :| c in t.chunks && c.documentId == d.id;
        assert c in t.chunks + more.chunks;
      } else {
        var c :| c in more.chunks && c.documentId == d.id;
        assert c in t.chunks + more.chunks;
      }
    }
  }

  lemma UniqueDocumentsGrow(documents: seq<DocRow>, doc: DocRow)
    requires UniqueDocuments(documents) && !HasDocument(documents, doc.namespace, doc.contentHash)
    ensures UniqueDocuments(documents + [doc])
  {
    assert forall i :: 0 <= i < |documents| ==> documents[i] in documents;
  }

  lemma JobTablesClosed(test: NameTest, before: Tables, sv: Services, doc: DocRow, chunks: seq<TextChunk>,
                        embeddings: seq<Vector>, recs: seq<ChunkRecord>)
    requires ClosedIn(before, before)
    requires RecordsOf(test, before.entities, sv, doc, chunks, embeddings, recs)
    ensures var after := before.Append(JobTables(doc, recs)); ClosedIn(after, after)
  {
    var t := before.Append(DocumentRow(doc));
    AppendKeepsClosed(before, DocumentRow(doc));
    AppendAssociative(before, DocumentRow(doc), RecordRows(recs));
    RecordsKeepClosed(test, before.entities, sv, doc, chunks, embeddings, recs, t);
  }

  lemma JobTablesKeepInvariant(test: NameTest, before: Tables, sv: Services, doc: DocRow, chunks: seq<TextChunk>,
                               embeddings: seq<Vector>, recs: seq<ChunkRecord>)
    requires StoreInvariant(before) && !HasDocument(before.documents, doc.namespace, doc.contentHash)
    requires RecordsOf(test, before.entities, sv, doc, chunks, embeddings, recs) && recs != []
    ensures StoreInvariant(before.Append(JobTables(doc, recs)))
  {
    JobTablesClosed(test, before, sv, doc, chunks, embeddings, recs);
    UniqueDocumentsGrow(before.documents, doc);
    RecordRowsContents(recs);
    var rows := RecordRows(recs);
    assert RecordOf(test, before.entities, sv, doc, 0, chunks[0], embeddings[0], recs[0]);
    assert rows.chunks[0] in rows.chunks && rows.chunks[0].documentId == doc.id;
    NoEmptyDocumentGrows(before, doc, rows);
    assert JobTables(doc, recs).documents == [doc];
    assert JobTables(doc, recs).chunks == rows.chunks;
  }

  /** Every call of `RunJob` keeps the store invariant, whatever it returns. */
  lemma JobKeepsInvariant(test: NameTest, before: Tables, after: Tables, req: IngestRequest, sv: Services,
                          r: Result<RunJobOutcome, CoreError>, recs: seq<ChunkRecord>)
    requires StoreInvariant(before) && JobEffect(test, before, after, req, sv, r, recs)
    ensures StoreInvariant(after)
  {
    if r.Ok? && r.value.Completed? {
      var source := ReadSource(sv, req.source).value;
      var doc := DocRow(r.value.documentId, req.namespace, source.0, sv.hash(source.1), None);
      var chunked := sv.chunk(req.chunkStrategy, sv.decode(source.1).value).value;
      var embedded := sv.embed(ChunkTexts(chunked)).value;
      JobTablesKeepInvariant(test, before, sv, doc, chunked, embedded, recs);
    }
  }

  /**
   * Any sequence of jobs, each with its own request and services and with
   * writes refused anywhere, keeps the store invariant, leaves no buffered
   * write at a job boundary and only ever appends to the committed tables.
   */
  method RunJobs(client: FakePgClient, ids: UuidSource, jobs: seq<(IngestRequest, Services)>)
    returns (outcomes: seq<Result<RunJobOutcome, CoreError>>)
    requires client.buffered == NO_ROWS && StoreInvariant(client.committed)
    modifies client, ids
    ensures client.buffered == NO_ROWS && StoreInvariant(client.committed)
    ensures AllDrawn(old(client.committed), 0, old(ids.next)) ==> AllDrawn(client.committed, 0, ids.next)
    ensures |outcomes| == |jobs|
    ensures DocumentsAdded(old(client.committed), client.committed, outcomes)
  {
    outcomes := [];
    ghost var drawn := AllDrawn(client.committed, 0, ids.next);
    for i := 0 to |jobs|
      invariant client.buffered == NO_ROWS && StoreInvariant(client.committed)
      invariant drawn ==> AllDrawn(client.committed, 0, ids.next)
      invariant |outcomes| == i
      invariant DocumentsAdded(old(client.committed), client.committed, outcomes)
    {
      ghost var before, from := client.committed, ids.next;
      var r, recs := RunJob(client, ids, jobs[i].0, jobs[i].1);
      JobKeepsInvariant(client.test, before, client.committed, jobs[i].0, jobs[i].1, r, recs);
      JobsAddDocuments(client.test, old(client.committed), before, client.committed, jobs[i].0, jobs[i].1,
                       outcomes, r, recs);
      if drawn {
        JobKeepsDrawn(client.test, before, client.committed, jobs[i].0, jobs[i].1, r, recs, from, ids.next);
      }
      outcomes := outcomes + [r];
    }
  }

  /** The documents have only grown, by one for each completed job. */
  ghost predicate DocumentsAdded(before: Tables, after: Tables, outcomes: seq<Result<RunJobOutcome, CoreError>>) {
    && before.documents <= after.documents
    && |after.documents| == |before.documents| + CompletedCount(outcomes)
  }

  lemma JobsAddDocuments(test: NameTest, start: Tables, before: Tables, after: Tables, req: IngestRequest, sv: Services,
                         outcomes: seq<Result<RunJobOutcome, CoreError>>, r: Result<RunJobOutcome, CoreError>,
                         recs: seq<ChunkRecord>)
    requires DocumentsAdded(start, before, outcomes) && JobEffect(test, before, after, req, sv, r, recs)
    ensures DocumentsAdded(start, after, outcomes + [r])
  {
    assert (outcomes + [r])[..|outcomes|] == outcomes;
    RecordRowsContents(recs);
  }

  function CompletedCount(outcomes: seq<Result<RunJobOutcome, CoreError>>): nat {
    if outcomes == [] then 0
    else
      var n := |outcomes| - 1;
      CompletedCount(outcomes[..n]) + (if outcomes[n].Ok? && outcomes[n].value.Completed? then 1 else 0)
  }

  lemma EmptyStore(next: nat)
    ensures StoreInvariant(NO_ROWS) && AllDrawn(NO_ROWS, 0, next)
  {
  }

  /**
   * Everything a new store comes to hold: from its first job on it keeps the
   * invariant and tells its rows apart, and it holds one document for each
   * completed job. A chunk insert may be set to fail beforehand.
   */
  method IngestFromScratch(test: NameTest, refuses: nat -> bool, failAt: Option<nat>, ids: UuidSource,
                           jobs: seq<(IngestRequest, Services)>)
    returns (client: FakePgClient, outcomes: seq<Result<RunJobOutcome, CoreError>>)
    modifies ids
    ensures fresh(client) && client.buffered == NO_ROWS
    ensures StoreInvariant(client.committed) && DistinctIds(client.committed)
    ensures |outcomes| == |jobs|
    ensures |client.committed.documents| == CompletedCount(outcomes)
  {
    client := new FakePgClient(test, refuses);
    if failAt.Some? {
      client.FailChunkWriteAt(failAt.value);
    }
    EmptyStore(ids.next);
    outcomes := RunJobs(client, ids, jobs);
    DrawnAreDistinct(client.committed, 0, ids.next);
  }

  /** In such a store every reference leads to exactly one row. */
  lemma ReferencesAreUnique(t: Tables)
    requires StoreInvariant(t) && DistinctIds(t)
    ensures forall c :: c in t.chunks ==> OneHas(t.documents, DocumentId, c.documentId)
    ensures forall l :: l in t.links ==> OneHas(t.chunks, ChunkId, l.chunkId) && OneHas(t.entities, EntityId, l.entityId)
    ensures forall r :: r in t.relationships ==>
      OneHas(t.entities, EntityId, r.srcId) && OneHas(t.entities, EntityId, r.dstId)
  {
    forall d | d in t.documents ensures OneHas(t.documents, DocumentId, d.id) {
      FoundOnce(t.documents, DocumentId, d);
    }
    forall c | c in t.chunks ensures OneHas(t.chunks, ChunkId, c.id) {
      FoundOnce(t.chunks, ChunkId, c);
    }
    forall e | e in t.entities ensures OneHas(t.entities, EntityId, e.id) {
      FoundOnce(t.entities, EntityId, e);
    }
    forall c | c in t.chunks ensures OneHas(t.documents, DocumentId, c.documentId) {
      assert HasDocumentId(t.documents, c.namespace, c.documentId);
    }
    forall l | l in t.links
      ensures OneHas(t.chunks, ChunkId, l.chunkId) && OneHas(t.entities, EntityId, l.entityId)
    {
      var namespace :| LinkClosed(t, l, namespace);
    }
    forall r | r in t.relationships
      ensures OneHas(t.entities, EntityId, r.srcId) && OneHas(t.entities, EntityId, r.dstId)
    {
      assert RelationshipClosed(t, r);
    }
  }

  /** Two jobs for the same bytes in the same namespace never both add a document. */
  lemma SecondIngestSkips(test: NameTest, before: Tables, after: Tables, req: IngestRequest, sv: Services,
                          r: Result<RunJobOutcome, CoreError>, recs: seq<ChunkRecord>)
    requires JobEffect(test, before, after, req, sv, r, recs)
    requires ReadSource(sv, req.source).Ok?
    requires exists d :: d in before.documents && d.namespace == req.namespace
                         && d.contentHash == sv.hash(ReadSource(sv, req.source).value.1)
    ensures after == before && !(r.Ok? && r.value.Completed?)
  {
  }
}
