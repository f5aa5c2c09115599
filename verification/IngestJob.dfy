/**
 * The per-document ingest pipeline: one document, its chunks, and the entities,
 * links and relationships extracted from them, committed together or not at all.
 */
module IngestRows {
  import opened Prelude
  import opened Rows
  import opened PgClient
  import opened ResolveEntity
  import opened Identifiers

  datatype IngestSource =
    | Path(path: string)
    | Text(name: string, content: string)
    | Bytes(name: string, bytes: seq<Byte>)

  datatype IngestRequest = IngestRequest(source: IngestSource, namespace: string, chunkStrategy: string)

  datatype TextChunk = TextChunk(ord: int, text: string, tokenCount: int)

  datatype ExtractedEntity =
    ExtractedEntity(name: string, kind: Option<string>, description: Option<string>, confidence: real)

  datatype ExtractedRel = ExtractedRel(srcName: string, dstName: string, kind: string, weight: real)

  datatype Extraction = Extraction(entities: seq<ExtractedEntity>, relationships: seq<ExtractedRel>)

  /**
   * The foreign functions a job calls. A provider need not answer the same
   * text the same way twice, so `extract` also takes the chunk's position.
   */
  datatype Services = Services(
    readFile: string -> Result<seq<Byte>, CoreError>,
    encode: string -> seq<Byte>,
    decode: seq<Byte> -> Option<string>,
    hash: seq<Byte> -> string,
    chunk: (string, string) -> Result<seq<TextChunk>, CoreError>,
    embed: seq<string> -> Result<seq<Vector>, CoreError>,
    extract: (nat, string, string) -> Result<Extraction, CoreError>)

  /** One resolved mention: its link, and the entity row inserted for it, if any. */
  datatype Mention = Mention(link: ChunkEntityRow, added: Option<EntityRow>) {
    function Rows(): Tables {
      (if added.Some? then EntityOnly(added.value) else NO_ROWS).Append(LinkOnly(link))
    }
  }

  function MentionRows(ms: seq<Mention>): Tables {
    if ms == [] then NO_ROWS
    else MentionRows(ms[..|ms| - 1]).Append(ms[|ms| - 1].Rows())
  }

  /** The rows that stem from one chunk. */
  datatype ChunkRecord = ChunkRecord(chunk: ChunkRow, mentions: seq<Mention>, relationships: seq<RelRow>) {
    function Rows(): Tables {
      ChunkOnly(chunk).Append(Extracted())
    }

    function Extracted(): Tables {
      MentionRows(mentions).Append(NO_ROWS.(relationships := relationships))
    }
  }

  function RecordRows(recs: seq<ChunkRecord>): Tables {
    if recs == [] then NO_ROWS
    else RecordRows(recs[..|recs| - 1]).Append(recs[|recs| - 1].Rows())
  }

  /** Everything a completed job adds: its document and the records of its chunks. */
  function JobTables(doc: DocRow, recs: seq<ChunkRecord>): Tables {
    DocumentRow(doc).Append(RecordRows(recs))
  }

  lemma MentionAppended(ms: seq<Mention>, m: Mention)
    ensures MentionRows(ms + [m]) == MentionRows(ms).Append(m.Rows())
  {
    assert (ms + [m])[..|ms|] == ms;
  }

  lemma {:induction false} MentionLinks(ms: seq<Mention>)
    ensures MentionRows(ms).links == seq(|ms|, i requires 0 <= i < |ms| => ms[i].link)
    ensures MentionRows(ms).documents == [] && MentionRows(ms).chunks == [] && MentionRows(ms).relationships == []
  {
    if ms != [] {
      var n := |ms| - 1;
      MentionLinks(ms[..n]);
      assert MentionRows(ms).links == MentionRows(ms[..n]).links + [ms[n].link];
    }
  }

  lemma RecordFields(rec: ChunkRecord)
    ensures rec.Rows().documents == []
    ensures rec.Rows().chunks == [rec.chunk]
    ensures rec.Rows().entities == MentionRows(rec.mentions).entities
    ensures rec.Rows().links == MentionRows(rec.mentions).links
    ensures rec.Rows().relationships == rec.relationships
  {
    MentionLinks(rec.mentions);
  }

  /** The records hold no document and one chunk each. */
  lemma {:induction false} RecordRowsContents(recs: seq<ChunkRecord>)
    ensures RecordRows(recs).documents == []
    ensures |RecordRows(recs).chunks| == |recs|
    ensures forall k :: 0 <= k < |recs| ==> RecordRows(recs).chunks[k] == recs[k].chunk
  {
    if recs != [] {
      var n := |recs| - 1;
      RecordRowsContents(recs[..n]);
      RecordFields(recs[n]);
      var front := RecordRows(recs[..n]);
      assert RecordRows(recs).chunks == front.chunks + [recs[n].chunk];
      forall k | 0 <= k < |recs| ensures RecordRows(recs).chunks[k] == recs[k].chunk {
        assert k < n ==> front.chunks[k] == recs[..n][k].chunk;
      }
    }
  }

  lemma RecordAppended(doc: DocRow, recs: seq<ChunkRecord>, rec: ChunkRecord)
    ensures JobTables(doc, recs + [rec])
         == JobTables(doc, recs).Append(ChunkOnly(rec.chunk)).Append(rec.Extracted())
  {
    assert (recs + [rec])[..|recs|] == recs;
    AppendAssociative(JobTables(doc, recs), ChunkOnly(rec.chunk), rec.Extracted());
    AppendAssociative(DocumentRow(doc), RecordRows(recs), rec.Rows());
  }

  /** The identifiers of the entities that the mentions inserted. */
  function MentionIds(ms: seq<Mention>): seq<Uuid> {
    if ms == [] then []
    else
      var n := |ms| - 1;
      MentionIds(ms[..n]) + (if ms[n].added.Some? then [ms[n].added.value.id] else [])
  }

  lemma MentionDrawn(ms: seq<Mention>, m: Mention, from: nat, mid: nat, to: nat)
    requires Drawn(MentionIds(ms), from, mid) && mid <= to && (m.added.Some? ==> mid <= m.added.value.id < to)
    ensures Drawn(MentionIds(ms + [m]), from, to)
  {
    assert (ms + [m])[..|ms|] == ms;
    if m.added.Some? {
      OneMoreDrawn(MentionIds(ms), m.added.value.id, from, mid, to);
    } else {
      assert MentionIds(ms + [m]) == MentionIds(ms);
      DrawnWithin(MentionIds(ms), from, mid, from, to);
    }
  }

  function RelationshipId(row: RelRow): Uuid {
    row.id
  }

  lemma RelationshipDrawn(rows: seq<RelRow>, row: RelRow, from: nat, mid: nat, to: nat)
    requires Drawn(Ids(rows, RelationshipId), from, mid) && mid <= row.id < to
    ensures Drawn(Ids(rows + [row], RelationshipId), from, to)
  {
    assert (rows + [row])[..|rows|] == rows;
    OneMoreDrawn(Ids(rows, RelationshipId), row.id, from, mid, to);
  }

  /** What was extracted from a chunk has drawn its identifiers between `from` and `to`. */
  ghost predicate RecordDrawn(rec: ChunkRecord, from: nat, to: nat) {
    Drawn(MentionIds(rec.mentions), from, to) && Drawn(Ids(rec.relationships, RelationshipId), from, to)
  }

  function ChunkIdOf(rec: ChunkRecord): Uuid {
    rec.chunk.id
  }

  function EntityIds(recs: seq<ChunkRecord>): seq<Uuid> {
    if recs == [] then [] else EntityIds(recs[..|recs| - 1]) + MentionIds(recs[|recs| - 1].mentions)
  }

  function RelationshipIds(recs: seq<ChunkRecord>): seq<Uuid> {
    if recs == [] then [] else RelationshipIds(recs[..|recs| - 1]) + Ids(recs[|recs| - 1].relationships, RelationshipId)
  }

  /** The chunks have the first of the identifiers `chunkIds`; what was extracted from them drew its own. */
  ghost predicate RecordsDrawn(recs: seq<ChunkRecord>, chunkIds: seq<Uuid>, from: nat, to: nat) {
    && |recs| <= |chunkIds| && Ids(recs, ChunkIdOf) == chunkIds[..|recs|]
    && Drawn(EntityIds(recs), from, to) && Drawn(RelationshipIds(recs), from, to)
  }

  lemma RecordsDrawnLater(recs: seq<ChunkRecord>, rec: ChunkRecord, chunkIds: seq<Uuid>, from: nat, mid: nat, to: nat)
    requires RecordsDrawn(recs, chunkIds, from, mid) && RecordDrawn(rec, mid, to)
    requires |recs| < |chunkIds| && rec.chunk.id == chunkIds[|recs|]
    ensures RecordsDrawn(recs + [rec], chunkIds, from, to)
  {
    assert (recs + [rec])[..|recs|] == recs;
    DrawnLater(EntityIds(recs), MentionIds(rec.mentions), from, mid, to);
    DrawnLater(RelationshipIds(recs), Ids(rec.relationships, RelationshipId), from, mid, to);
    assert chunkIds[..|recs| + 1] == chunkIds[..|recs|] + [rec.chunk.id];
  }

  /** A job draws the identifiers of its chunks, of its document and of what is extracted, in this order. */
  ghost predicate JobDrawnBy(chunkIds: seq<Uuid>, documentId: Uuid, recs: seq<ChunkRecord>, from: nat, to: nat) {
    && from <= documentId < to
    && Drawn(chunkIds, from, documentId) && |chunkIds| == |recs|
    && RecordsDrawn(recs, chunkIds, documentId + 1, to)
  }

  ghost predicate JobDrawn(documentId: Uuid, recs: seq<ChunkRecord>, from: nat, to: nat) {
    exists chunkIds :: JobDrawnBy(chunkIds, documentId, recs, from, to)
  }

  /** The identifier of each name mentioned in a chunk; the last mention wins. */
  function NameIds(ents: seq<ExtractedEntity>, ms: seq<Mention>): map<string, Uuid>
    requires |ents| == |ms|
  {
    if ents == [] then map[]
    else
      var n := |ents| - 1;
      NameIds(ents[..n], ms[..n])[ents[n].name := ms[n].link.entityId]
  }

  lemma NameIdsAppended(ents: seq<ExtractedEntity>, ms: seq<Mention>, i: nat, m: Mention)
    requires i < |ents| && |ms| == i
    ensures NameIds(ents[..i + 1], ms + [m]) == NameIds(ents[..i], ms)[ents[i].name := m.link.entityId]
  {
    assert ents[..i + 1][..i] == ents[..i];
    assert (ms + [m])[..i] == ms;
  }

  /** The relationships whose two names the chunk mentions, in order. */
  function Kept(rels: seq<ExtractedRel>, names: set<string>): (kept: seq<ExtractedRel>)
    ensures forall x :: x in kept <==> x in rels && x.srcName in names && x.dstName in names
  {
    if rels == [] then []
    else
      var n := |rels| - 1;
      Kept(rels[..n], names)
      + (if rels[n].srcName in names && rels[n].dstName in names then [rels[n]] else [])
  }

  /** Every entity name gets a vector. */
  ghost predicate NamesEmbed(sv: Services, ents: seq<ExtractedEntity>) {
    forall i :: 0 <= i < |ents| ==> NameEmbedding(sv, ents[i].name).Some?
  }

  /** The provider answers for chunk number `k`, with entities whose names embed. */
  ghost predicate Extractable(sv: Services, k: nat, text: string, namespace: string) {
    sv.extract(k, text, namespace).Ok? && NamesEmbed(sv, sv.extract(k, text, namespace).value.entities)
  }

  /** The vector of an entity name: the first of the one-element batch. */
  function NameEmbedding(sv: Services, name: string): Option<Vector> {
    match sv.embed([name])
    case Ok(vs) => if vs == [] then None else Some(vs[0])
    case Err(_) => None
  }

  /**
   * Mention `m` of `ent` links the chunk to the committed entity it merges
   * into, or to a new entity inserted for it.
   */
  ghost predicate MentionOf(test: NameTest, known: seq<EntityRow>, sv: Services, chunk: ChunkRow,
                            ent: ExtractedEntity, m: Mention)
  {
    var emb := NameEmbedding(sv, ent.name);
    && m.link.chunkId == chunk.id
    && m.link.confidence == ent.confidence
    && emb.Some?
    && var target := MergeTarget(test, known, chunk.namespace, ent.name, emb.value);
       if target.Some? then m.link.entityId == target.value && m.added == None
       else m.added == Some(NewEntity(chunk.namespace, ent, emb, m.link.entityId))
  }

  function NewEntity(namespace: string, ent: ExtractedEntity, emb: Option<Vector>, id: Uuid): EntityRow {
    EntityRow(id, namespace, ent.name, ent.kind, emb, ent.description)
  }

  ghost predicate MentionsOf(test: NameTest, known: seq<EntityRow>, sv: Services, chunk: ChunkRow,
                             ents: seq<ExtractedEntity>, ms: seq<Mention>)
  {
    |ms| <= |ents| && forall i :: 0 <= i < |ms| ==> MentionOf(test, known, sv, chunk, ents[i], ms[i])
  }

  lemma MentionsOfAppended(test: NameTest, known: seq<EntityRow>, sv: Services, chunk: ChunkRow,
                           ents: seq<ExtractedEntity>, ms: seq<Mention>, m: Mention)
    requires MentionsOf(test, known, sv, chunk, ents, ms) && |ms| < |ents|
    requires MentionOf(test, known, sv, chunk, ents[|ms|], m)
    ensures MentionsOf(test, known, sv, chunk, ents, ms + [m])
  {
    var all := ms + [m];
    forall i | 0 <= i < |all| ensures MentionOf(test, known, sv, chunk, ents[i], all[i]) {
      if i < |ms| {
        assert MentionOf(test, known, sv, chunk, ents[i], ms[i]);
      }
    }
  }

  /** The relationship rows: those of `kept`, in order, between the identifiers of their names. */
  ghost predicate RelationshipsOf(namespace: string, kept: seq<ExtractedRel>, ids: map<string, Uuid>,
                                  rows: seq<RelRow>)
  {
    && |rows| == |kept|
    && forall k :: 0 <= k < |kept| ==>
         && kept[k].srcName in ids
         && kept[k].dstName in ids
         && rows[k] == RelRow(rows[k].id, namespace, ids[kept[k].srcName], ids[kept[k].dstName],
                              kept[k].kind, kept[k].weight, None)
  }

  ghost predicate ExtractionOf(test: NameTest, known: seq<EntityRow>, sv: Services, chunk: ChunkRow,
                               ex: Extraction, rec: ChunkRecord)
  {
    && rec.chunk == chunk
    && |rec.mentions| == |ex.entities|
    && MentionsOf(test, known, sv, chunk, ex.entities, rec.mentions)
    && var ids := NameIds(ex.entities, rec.mentions);
       RelationshipsOf(chunk.namespace, Kept(ex.relationships, ids.Keys), ids, rec.relationships)
  }

  function ChunkRowFor(doc: DocRow, id: Uuid, chunk: TextChunk, embedding: Vector): ChunkRow {
    ChunkRow(id, doc.id, doc.namespace, chunk.ord, chunk.text, chunk.tokenCount, embedding)
  }

  /** The record of chunk number `k` of a document. */
  ghost predicate RecordOf(test: NameTest, known: seq<EntityRow>, sv: Services, doc: DocRow,
                           k: nat, chunk: TextChunk, embedding: Vector, rec: ChunkRecord)
  {
    var ex := sv.extract(k, chunk.text, doc.namespace);
    && ex.Ok?
    && ExtractionOf(test, known, sv, ChunkRowFor(doc, rec.chunk.id, chunk, embedding), ex.value, rec)
  }

  ghost predicate RecordsOf(test: NameTest, known: seq<EntityRow>, sv: Services, doc: DocRow,
                            chunks: seq<TextChunk>, embeddings: seq<Vector>, recs: seq<ChunkRecord>)
  {
    && |recs| <= |chunks| == |embeddings|
    && forall k :: 0 <= k < |recs| ==> RecordOf(test, known, sv, doc, k, chunks[k], embeddings[k], recs[k])
  }

  lemma RecordsOfAppended(test: NameTest, known: seq<EntityRow>, sv: Services, doc: DocRow,
                          chunks: seq<TextChunk>, embeddings: seq<Vector>, recs: seq<ChunkRecord>, rec: ChunkRecord)
    requires RecordsOf(test, known, sv, doc, chunks, embeddings, recs) && |recs| < |chunks|
    requires RecordOf(test, known, sv, doc, |recs|, chunks[|recs|], embeddings[|recs|], rec)
    ensures RecordsOf(test, known, sv, doc, chunks, embeddings, recs + [rec])
  {
    var all := recs + [rec];
    forall k | 0 <= k < |all| ensures RecordOf(test, known, sv, doc, k, chunks[k], embeddings[k], all[k]) {
      if k < |recs| {
        assert RecordOf(test, known, sv, doc, k, chunks[k], embeddings[k], recs[k]);
      }
    }
  }
}

module IngestJob {
  import opened Prelude
  import opened Rows
  import opened PgClient
  import opened ResolveEntity
  import opened Identifiers
  import opened IngestRows

  datatype RunJobOutcome =
    | Completed(documentId: Uuid, chunkCount: nat)
    | SkippedDuplicate(existingHash: string)

  /** The name and bytes of a source. */
  function ReadSource(sv: Services, source: IngestSource): Result<(string, seq<Byte>), CoreError> {
    match source
    case Path(p) =>
      (match sv.readFile(p)
       case Ok(bytes) => Ok((p, bytes))
       case Err(_) => Err(InvalidConfig("read " + p)))
    case Text(name, content) => Ok((name, sv.encode(content)))
    case Bytes(name, bytes) => Ok((name, bytes))
  }

  /** The provider answers for every chunk. */
  ghost predicate AllExtractable(sv: Services, namespace: string, chunks: seq<TextChunk>) {
    forall k :: 0 <= k < |chunks| ==> ExtractableAt(sv, namespace, chunks, k)
  }

  ghost predicate ExtractableAt(sv: Services, namespace: string, chunks: seq<TextChunk>, k: nat)
    requires k < |chunks|
  {
    Extractable(sv, k, chunks[k].text, namespace)
  }

  /** The configured failure is one of `n` chunk inserts from number `from` on. */
  predicate FailsWithin(failAt: Option<nat>, from: nat, n: nat) {
    n > 0 && (failAt == Some(from + (n - 1)) || FailsWithin(failAt, from, n - 1))
  }

  /** The provider answers for every chunk, and no chunk insert from number `first` on is refused. */
  ghost predicate Smooth(sv: Services, namespace: string, chunks: seq<TextChunk>, failAt: Option<nat>, first: nat) {
    AllExtractable(sv, namespace, chunks) && !FailsWithin(failAt, first, |chunks|)
  }

  lemma SmoothAt(sv: Services, namespace: string, chunks: seq<TextChunk>, failAt: Option<nat>, first: nat,
                 k: nat, number: nat)
    requires k < |chunks| && number == first + k
    requires Smooth(sv, namespace, chunks, failAt, first)
    ensures Extractable(sv, k, chunks[k].text, namespace) && failAt != Some(number)
  {
    assert ExtractableAt(sv, namespace, chunks, k);
    FailsWithinRange(failAt, first, |chunks|);
  }

  /** The configured failure is none of the chunk inserts from number `first` on and before `number`. */
  predicate Spared(failAt: Option<nat>, first: nat, number: nat) {
    failAt.Some? ==> failAt.value < first || number <= failAt.value
  }

  lemma NextSpared(failAt: Option<nat>, first: nat, number: nat, next: nat)
    requires Spared(failAt, first, number) && failAt != Some(number) && next == number + 1
    ensures Spared(failAt, first, next)
  {
  }

  lemma {:induction false} FailsWithinRange(failAt: Option<nat>, from: nat, n: nat)
    ensures FailsWithin(failAt, from, n) <==> failAt.Some? && from <= failAt.value < from + n
  {
    if n > 0 {
      FailsWithinRange(failAt, from, n - 1);
    }
  }

  /** Nothing outside the store stands in the way of ingesting the request. */
  ghost predicate Unhindered(sv: Services, req: IngestRequest) {
    && ReadSource(sv, req.source).Ok?
    && var text := sv.decode(ReadSource(sv, req.source).value.1);
       && text.Some?
       && var chunked := sv.chunk(req.chunkStrategy, text.value);
          && chunked.Ok? && chunked.value != []
          && AllExtractable(sv, req.namespace, chunked.value)
          && var embedded := sv.embed(ChunkTexts(chunked.value));
             embedded.Ok? && |embedded.value| == |chunked.value|
  }

  /** How many chunks the request's text makes. */
  function ChunkCount(sv: Services, req: IngestRequest): nat {
    match ReadSource(sv, req.source)
    case Err(_) => 0
    case Ok((_, bytes)) =>
      match sv.decode(bytes)
      case None => 0
      case Some(text) =>
        match sv.chunk(req.chunkStrategy, text)
        case Err(_) => 0
        case Ok(chunks) => |chunks|
  }

  function ChunkTexts(chunks: seq<TextChunk>): (texts: seq<string>)
    ensures |texts| == |chunks| && forall k :: 0 <= k < |texts| ==> texts[k] == chunks[k].text
  {
    seq(|chunks|, i requires 0 <= i < |chunks| => chunks[i].text)
  }

  /** Resolves one extracted entity and links the chunk to it. */
  method PersistMention(client: FakePgClient, ids: UuidSource, sv: Services, chunk: ChunkRow, ent: ExtractedEntity)
    returns (r: Result<Uuid, CoreError>, ghost m: Mention)
    modifies client`buffered, client`writes, ids
    ensures old(ids.next) <= ids.next
    ensures client.Willing() && NameEmbedding(sv, ent.name).Some? ==> r.Ok?
    ensures r.Ok? ==>
      && MentionOf(client.test, client.committed.entities, sv, chunk, ent, m)
      && r.value == m.link.entityId
      && client.buffered == old(client.buffered).Append(m.Rows())
      && (m.added.Some? ==> old(ids.next) <= m.added.value.id < ids.next)
  {
    m := Mention(ChunkEntityRow(chunk.id, 0, ent.confidence), None);
    var batch := sv.embed([ent.name]);
    if batch.Err? {
      return Err(batch.error), m;
    }
    if batch.value == [] {
      return Err(InvalidConfig("entity-name embed returned empty")), m;
    }
    var emb := batch.value[0];
    var resolved := ResolveOrInsertEntity(client, ids, chunk.namespace, ent.name, ent.kind, emb, ent.description);
    if resolved.Err? {
      return Err(resolved.error), m;
    }
    var id := resolved.value;
    var link := ChunkEntityRow(chunk.id, id, ent.confidence);
    var w := client.InsertChunkEntity(link);
    if w.Err? {
      return Err(w.error), m;
    }
    ghost var target := MergeTarget(client.test, client.committed.entities, chunk.namespace, ent.name, emb);
    ghost var row := EntityRow(id, chunk.namespace, ent.name, ent.kind, Some(emb), ent.description);
    m := Mention(link, if target.Some? then None else Some(row));
    AppendAssociative(old(client.buffered), EntityOnly(row), LinkOnly(link));
    AppendNone(LinkOnly(link));
    return Ok(id), m;
  }

  /** The first `|ms|` entities are resolved, and their names are in the map. */
  ghost predicate Named(test: NameTest, known: seq<EntityRow>, sv: Services, chunk: ChunkRow,
                        ents: seq<ExtractedEntity>, ms: seq<Mention>, nameToId: map<string, Uuid>)
  {
    MentionsOf(test, known, sv, chunk, ents, ms) && nameToId == NameIds(ents[..|ms|], ms)
  }

  /** The rows of the mentions are buffered after `before`, with identifiers drawn for them. */
  ghost predicate Linked(ms: seq<Mention>, before: Tables, buffered: Tables, from: nat, to: nat) {
    && buffered == before.Append(MentionRows(ms))
    && from <= to && Drawn(MentionIds(ms), from, to)
  }

  lemma OneMoreNamed(test: NameTest, known: seq<EntityRow>, sv: Services, chunk: ChunkRow,
                     ents: seq<ExtractedEntity>, ms: seq<Mention>, m: Mention, nameToId: map<string, Uuid>)
    requires Named(test, known, sv, chunk, ents, ms, nameToId) && |ms| < |ents|
    requires MentionOf(test, known, sv, chunk, ents[|ms|], m)
    ensures Named(test, known, sv, chunk, ents, ms + [m], nameToId[ents[|ms|].name := m.link.entityId])
  {
    MentionsOfAppended(test, known, sv, chunk, ents, ms, m);
    NameIdsAppended(ents, ms, |ms|, m);
  }

  lemma OneMoreLinked(ms: seq<Mention>, m: Mention, before: Tables, linked: Tables, buffered: Tables,
                      from: nat, mid: nat, to: nat)
    requires Linked(ms, before, linked, from, mid) && buffered == linked.Append(m.Rows())
    requires mid <= to && (m.added.Some? ==> mid <= m.added.value.id < to)
    ensures Linked(ms + [m], before, buffered, from, to)
  {
    assert buffered == before.Append(MentionRows(ms + [m])) by {
      MentionAppended(ms, m);
      AppendAssociative(before, MentionRows(ms), m.Rows());
    }
    MentionDrawn(ms, m, from, mid, to);
  }

  /** Resolves and links the entities of one chunk, in order. */
  method PersistEntities(client: FakePgClient, ids: UuidSource, sv: Services, chunk: ChunkRow,
                         ents: seq<ExtractedEntity>)
    returns (r: Result<map<string, Uuid>, CoreError>, ghost ms: seq<Mention>)
    modifies client`buffered, client`writes, ids
    ensures old(ids.next) <= ids.next
    ensures client.Willing() && NamesEmbed(sv, ents) ==> r.Ok?
    ensures r.Ok? ==>
      && |ms| == |ents|
      && MentionsOf(client.test, client.committed.entities, sv, chunk, ents, ms)
      && r.value == NameIds(ents, ms)
      && client.buffered == old(client.buffered).Append(MentionRows(ms))
      && Drawn(MentionIds(ms), old(ids.next), ids.next)
  {
    var nameToId: map<string, Uuid> := map[];
    ms := [];
    AppendNone(client.buffered);
    for i := 0 to |ents|
      invariant |ms| == i
      invariant Named(client.test, client.committed.entities, sv, chunk, ents, ms, nameToId)
      invariant Linked(ms, old(client.buffered), client.buffered, old(ids.next), ids.next)
    {
      ghost var linked, mid := client.buffered, ids.next;
      var id, m := PersistMention(client, ids, sv, chunk, ents[i]);
      if id.Err? {
        return Err(id.error), ms;
      }
      OneMoreNamed(client.test, client.committed.entities, sv, chunk, ents, ms, m, nameToId);
      OneMoreLinked(ms, m, old(client.buffered), linked, client.buffered, old(ids.next), mid, ids.next);
      nameToId := nameToId[ents[i].name := id.value];
      ms := ms + [m];
    }
    assert ents[..|ents|] == ents;
    return Ok(nameToId), ms;
  }

  /** The rows written for the kept ones of `rels`, after what was buffered before them. */
  ghost predicate Related(namespace: string, rels: seq<ExtractedRel>, nameToId: map<string, Uuid>, rows: seq<RelRow>,
                          before: Tables, buffered: Tables, from: nat, to: nat)
  {
    && RelationshipsOf(namespace, Kept(rels, nameToId.Keys), nameToId, rows)
    && buffered == before.Append(NO_ROWS.(relationships := rows))
    && from <= to && Drawn(Ids(rows, RelationshipId), from, to)
  }

  lemma RelSkipped(namespace: string, rels: seq<ExtractedRel>, i: nat, nameToId: map<string, Uuid>, rows: seq<RelRow>,
                   before: Tables, buffered: Tables, from: nat, to: nat)
    requires i < |rels| && Related(namespace, rels[..i], nameToId, rows, before, buffered, from, to)
    requires rels[i].srcName !in nameToId || rels[i].dstName !in nameToId
    ensures Related(namespace, rels[..i + 1], nameToId, rows, before, buffered, from, to)
  {
    assert rels[..i + 1][..i] == rels[..i];
  }

  lemma RelWritten(namespace: string, rels: seq<ExtractedRel>, i: nat, nameToId: map<string, Uuid>, rows: seq<RelRow>,
                   row: RelRow, before: Tables, related: Tables, buffered: Tables, from: nat, to: nat)
    requires i < |rels| && Related(namespace, rels[..i], nameToId, rows, before, related, from, row.id)
    requires rels[i].srcName in nameToId && rels[i].dstName in nameToId && row.id < to
    requires row == RelRow(row.id, namespace, nameToId[rels[i].srcName], nameToId[rels[i].dstName],
                           rels[i].kind, rels[i].weight, None)
    requires buffered == related.Append(RelationshipOnly(row))
    ensures Related(namespace, rels[..i + 1], nameToId, rows + [row], before, buffered, from, to)
  {
    assert rels[..i + 1][..i] == rels[..i];
    AppendAssociative(before, NO_ROWS.(relationships := rows), RelationshipOnly(row));
    RelationshipDrawn(rows, row, from, row.id, to);
  }

  /** Writes one relationship whose two names are in the map. */
  method PersistRelationship(client: FakePgClient, ids: UuidSource, namespace: string, rel: ExtractedRel,
                             nameToId: map<string, Uuid>)
    returns (r: Result<(), CoreError>, ghost row: RelRow)
    requires rel.srcName in nameToId && rel.dstName in nameToId
    modifies client`buffered, client`writes, ids
    ensures row.id == old(ids.next) < ids.next
    ensures row == RelRow(row.id, namespace, nameToId[rel.srcName], nameToId[rel.dstName], rel.kind, rel.weight, None)
    ensures client.Willing() ==> r.Ok?
    ensures r.Ok? ==> client.buffered == old(client.buffered).Append(RelationshipOnly(row))
  {
    var id := ids.Fresh();
    var written := RelRow(id, namespace, nameToId[rel.srcName], nameToId[rel.dstName], rel.kind, rel.weight, None);
    row := written;
    r := client.InsertRelationship(written);
  }

  /** Relationship number `i`: written if the chunk mentions both names, passed over otherwise. */
  method PersistNextRelationship(client: FakePgClient, ids: UuidSource, namespace: string, rels: seq<ExtractedRel>,
                                 i: nat, nameToId: map<string, Uuid>, ghost rows: seq<RelRow>,
                                 ghost before: Tables, ghost from: nat)
    returns (r: Result<(), CoreError>, ghost rows': seq<RelRow>)
    requires i < |rels| && Related(namespace, rels[..i], nameToId, rows, before, client.buffered, from, ids.next)
    modifies client`buffered, client`writes, ids
    ensures old(ids.next) <= ids.next
    ensures client.Willing() ==> r.Ok?
    ensures r.Ok? ==> Related(namespace, rels[..i + 1], nameToId, rows', before, client.buffered, from, ids.next)
  {
    rows' := rows;
    var rel := rels[i];
    if rel.srcName !in nameToId || rel.dstName !in nameToId {
      RelSkipped(namespace, rels, i, nameToId, rows, before, client.buffered, from, ids.next);
      return Ok(()), rows';
    }
    ghost var related := client.buffered;
    var w, row := PersistRelationship(client, ids, namespace, rel, nameToId);
    if w.Ok? {
      RelWritten(namespace, rels, i, nameToId, rows, row, before, related, client.buffered, from, ids.next);
      rows' := rows + [row];
    }
    r := w;
  }

  /** Writes the relationships of one chunk whose two names it mentions. */
  method PersistRelationships(client: FakePgClient, ids: UuidSource, namespace: string,
                              rels: seq<ExtractedRel>, nameToId: map<string, Uuid>)
    returns (r: Result<(), CoreError>, ghost rows: seq<RelRow>)
    modifies client`buffered, client`writes, ids
    ensures old(ids.next) <= ids.next
    ensures client.Willing() ==> r.Ok?
    ensures r.Ok? ==>
      Related(namespace, rels, nameToId, rows, old(client.buffered), client.buffered, old(ids.next), ids.next)
  {
    rows := [];
    ghost var before, from := client.buffered, ids.next;
    AppendNone(client.buffered);
    for i := 0 to |rels|
      invariant from <= ids.next
      invariant Related(namespace, rels[..i], nameToId, rows, before, client.buffered, from, ids.next)
    {
      var w;
      w, rows := PersistNextRelationship(client, ids, namespace, rels, i, nameToId, rows, before, from);
      if w.Err? {
        return Err(w.error), rows;
      }
    }
    assert rels[..|rels|] == rels;
    return Ok(()), rows;
  }

  method PersistChunkExtraction(client: FakePgClient, ids: UuidSource, sv: Services, k: nat, chunk: ChunkRow)
    returns (r: Result<(), CoreError>, ghost rec: ChunkRecord)
    modifies client`buffered, client`writes, ids
    ensures old(ids.next) <= ids.next
    ensures client.Willing() && Extractable(sv, k, chunk.text, chunk.namespace) ==> r.Ok?
    ensures r.Ok? ==>
      && sv.extract(k, chunk.text, chunk.namespace).Ok?
      && ExtractionOf(client.test, client.committed.entities, sv, chunk,
                      sv.extract(k, chunk.text, chunk.namespace).value, rec)
      && client.buffered == old(client.buffered).Append(rec.Extracted())
      && rec.chunk == chunk && RecordDrawn(rec, old(ids.next), ids.next)
  {
    rec := ChunkRecord(chunk, [], []);
    var extraction := sv.extract(k, chunk.text, chunk.namespace);
    if extraction.Err? {
      return Err(extraction.error), rec;
    }
    var ids', ms := PersistEntities(client, ids, sv, chunk, extraction.value.entities);
    if ids'.Err? {
      return Err(ids'.error), rec;
    }
    ghost var mid := ids.next;
    var written, rows :=
      PersistRelationships(client, ids, chunk.namespace, extraction.value.relationships, ids'.value);
    if written.Err? {
      return Err(written.error), rec;
    }
    AppendAssociative(old(client.buffered), MentionRows(ms), NO_ROWS.(relationships := rows));
    rec := ChunkRecord(chunk, ms, rows);
    DrawnWithin(MentionIds(ms), old(ids.next), mid, old(ids.next), ids.next);
    DrawnWithin(Ids(rows, RelationshipId), mid, ids.next, old(ids.next), ids.next);
    return Ok(()), rec;
  }

  /** Chunk number `k` of the document, and what is extracted from it. */
  method PersistChunk(client: FakePgClient, ids: UuidSource, sv: Services, doc: DocRow, k: nat,
                      chunk: TextChunk, embedding: Vector, id: Uuid)
    returns (r: Result<(), CoreError>, ghost rec: ChunkRecord)
    modifies client`buffered, client`writes, client`chunkInserts, ids
    ensures old(ids.next) <= ids.next
    ensures client.chunkInserts == old(client.chunkInserts) + 1
    ensures client.Willing() && Extractable(sv, k, chunk.text, doc.namespace) ==>
      (r.Ok? <==> client.chunkFailAt != Some(old(client.chunkInserts)))
    ensures r.Ok? ==> client.chunkFailAt != Some(old(client.chunkInserts))
    ensures r.Ok? ==>
      && RecordOf(client.test, client.committed.entities, sv, doc, k, chunk, embedding, rec)
      && client.buffered == old(client.buffered).Append(ChunkOnly(rec.chunk)).Append(rec.Extracted())
      && rec.chunk == ChunkRow(id, doc.id, doc.namespace, chunk.ord, chunk.text, chunk.tokenCount, embedding)
      && RecordDrawn(rec, old(ids.next), ids.next)
  {
    var row := ChunkRowFor(doc, id, chunk, embedding);
    rec := ChunkRecord(row, [], []);
    r := client.InsertChunk(row);
    if r.Ok? {
      r, rec := PersistChunkExtraction(client, ids, sv, k, row);
    }
  }

  /** The transaction holds the document and the records of its first `|recs|` chunks, with identifiers drawn for them. */
  ghost predicate Written(test: NameTest, known: seq<EntityRow>, sv: Services, doc: DocRow,
                          chunks: seq<TextChunk>, embeddings: seq<Vector>, recs: seq<ChunkRecord>, buffered: Tables,
                          chunkIds: seq<Uuid>, from: nat, to: nat)
  {
    && RecordsOf(test, known, sv, doc, chunks, embeddings, recs) && buffered == JobTables(doc, recs)
    && from <= to && RecordsDrawn(recs, chunkIds, from, to)
  }

  lemma DocumentWritten(test: NameTest, known: seq<EntityRow>, sv: Services, doc: DocRow,
                        chunks: seq<TextChunk>, embeddings: seq<Vector>, chunkIds: seq<Uuid>, from: nat)
    requires |chunks| == |embeddings|
    ensures Written(test, known, sv, doc, chunks, embeddings, [], NO_ROWS.Append(DocumentRow(doc)), chunkIds, from, from)
  {
  }

  lemma OneMoreWritten(test: NameTest, known: seq<EntityRow>, sv: Services, doc: DocRow,
                       chunks: seq<TextChunk>, embeddings: seq<Vector>, recs: seq<ChunkRecord>, rec: ChunkRecord,
                       before: Tables, after: Tables, chunkIds: seq<Uuid>, from: nat, mid: nat, to: nat)
    requires Written(test, known, sv, doc, chunks, embeddings, recs, before, chunkIds, from, mid)
    requires |recs| < |chunks| == |chunkIds| && rec.chunk.id == chunkIds[|recs|]
    requires RecordOf(test, known, sv, doc, |recs|, chunks[|recs|], embeddings[|recs|], rec)
    requires after == before.Append(ChunkOnly(rec.chunk)).Append(rec.Extracted())
    requires mid <= to && RecordDrawn(rec, mid, to)
    ensures Written(test, known, sv, doc, chunks, embeddings, recs + [rec], after, chunkIds, from, to)
  {
    RecordsOfAppended(test, known, sv, doc, chunks, embeddings, recs, rec);
    RecordAppended(doc, recs, rec);
    RecordsDrawnLater(recs, rec, chunkIds, from, mid, to);
  }

  /** Chunk number `|recs|` of the document, once the chunks before it are written. */
  method PersistNext(client: FakePgClient, ids: UuidSource, sv: Services, doc: DocRow, k: nat,
                     chunks: seq<TextChunk>, embeddings: seq<Vector>, chunkIds: seq<Uuid>,
                     ghost recs: seq<ChunkRecord>, ghost from: nat)
    returns (r: Result<(), CoreError>, ghost rec: ChunkRecord)
    requires |recs| == k < |chunks| == |embeddings| == |chunkIds|
    requires Written(client.test, client.committed.entities, sv, doc, chunks, embeddings, recs, client.buffered,
                     chunkIds, from, ids.next)
    modifies client`buffered, client`writes, client`chunkInserts, ids
    ensures old(ids.next) <= ids.next && client.chunkInserts == old(client.chunkInserts) + 1
    ensures client.Willing() && Extractable(sv, k, chunks[k].text, doc.namespace) ==>
      (r.Ok? <==> client.chunkFailAt != Some(old(client.chunkInserts)))
    ensures r.Ok? ==>
      && client.chunkFailAt != Some(old(client.chunkInserts))
      && Written(client.test, client.committed.entities, sv, doc, chunks, embeddings, recs + [rec], client.buffered,
                 chunkIds, from, ids.next)
  {
    r, rec := PersistChunk(client, ids, sv, doc, k, chunks[k], embeddings[k], chunkIds[k]);
    if r.Ok? {
      OneMoreWritten(client.test, client.committed.entities, sv, doc, chunks, embeddings, recs, rec,
                     old(client.buffered), client.buffered, chunkIds, from, old(ids.next), ids.next);
    }
  }

  /** All chunks of the document, which is buffered already. */
  method PersistChunks(client: FakePgClient, ids: UuidSource, sv: Services, doc: DocRow,
                       chunks: seq<TextChunk>, embeddings: seq<Vector>, chunkIds: seq<Uuid>)
    returns (r: Result<(), CoreError>, ghost recs: seq<ChunkRecord>)
    requires |chunks| == |embeddings| == |chunkIds|
    requires Written(client.test, client.committed.entities, sv, doc, chunks, embeddings, [], client.buffered,
                     chunkIds, ids.next, ids.next)
    modifies client`buffered, client`writes, client`chunkInserts, ids
    ensures old(ids.next) <= ids.next
    ensures client.Willing() && Smooth(sv, doc.namespace, chunks, client.chunkFailAt, old(client.chunkInserts)) ==> r.Ok?
    ensures r.Ok? ==>
      && client.chunkInserts == old(client.chunkInserts) + |chunks|
      && Spared(client.chunkFailAt, old(client.chunkInserts), client.chunkInserts)
      && |recs| == |chunks|
      && Written(client.test, client.committed.entities, sv, doc, chunks, embeddings, recs, client.buffered,
                 chunkIds, old(ids.next), ids.next)
  {
    recs := [];
    ghost var first, failAt := client.chunkInserts, client.chunkFailAt;
    ghost var smooth := Smooth(sv, doc.namespace, chunks, failAt, first);
    for k := 0 to |chunks|
      invariant |recs| == k
      invariant Written(client.test, client.committed.entities, sv, doc, chunks, embeddings, recs, client.buffered,
                        chunkIds, old(ids.next), ids.next)
      invariant client.chunkInserts == first + k
      invariant old(ids.next) <= ids.next && Spared(failAt, first, client.chunkInserts)
    {
      ghost var number := client.chunkInserts;
      if smooth {
        SmoothAt(sv, doc.namespace, chunks, failAt, first, k, number);
      }
      var c, rec := PersistNext(client, ids, sv, doc, k, chunks, embeddings, chunkIds, recs, old(ids.next));
      if c.Err? {
        return Err(c.error), recs;
      }
      NextSpared(failAt, first, number, client.chunkInserts);
      recs := recs + [rec];
    }
    return Ok(()), recs;
  }

  /** Step 7: everything the document writes, inside the transaction. */
  method PersistDocument(client: FakePgClient, ids: UuidSource, sv: Services, doc: DocRow,
                         chunks: seq<TextChunk>, embeddings: seq<Vector>, chunkIds: seq<Uuid>)
    returns (r: Result<nat, CoreError>, ghost recs: seq<ChunkRecord>)
    requires client.buffered == NO_ROWS
    requires |chunks| == |embeddings| == |chunkIds|
    modifies client`buffered, client`writes, client`chunkInserts, ids
    ensures old(ids.next) <= ids.next
    ensures client.Willing() && Smooth(sv, doc.namespace, chunks, client.chunkFailAt, old(client.chunkInserts)) ==> r.Ok?
    ensures FailsWithin(client.chunkFailAt, old(client.chunkInserts), |chunks|) ==> r.Err?
    ensures r.Ok? ==>
      && r.value == |recs| == |chunks|
      && Written(client.test, client.committed.entities, sv, doc, chunks, embeddings, recs, client.buffered,
                 chunkIds, old(ids.next), ids.next)
  {
    recs := [];
    var d := client.InsertDocument(doc);
    if d.Err? {
      return Err(d.error), recs;
    }
    DocumentWritten(client.test, client.committed.entities, sv, doc, chunks, embeddings, chunkIds, ids.next);
    FailsWithinRange(client.chunkFailAt, client.chunkInserts, |chunks|);
    var written;
    written, recs := PersistChunks(client, ids, sv, doc, chunks, embeddings, chunkIds);
    r := if written.Ok? then Ok(|chunks|) else Err(written.error);
  }

  lemma ChunkFields(test: NameTest, known: seq<EntityRow>, sv: Services, doc: DocRow, chunks: seq<TextChunk>,
                    embeddings: seq<Vector>, recs: seq<ChunkRecord>, k: nat)
    requires RecordsOf(test, known, sv, doc, chunks, embeddings, recs) && k < |recs|
    ensures recs[k].chunk == ChunkRow(recs[k].chunk.id, doc.id, doc.namespace, chunks[k].ord, chunks[k].text,
                                      chunks[k].tokenCount, embeddings[k])
  {
    assert RecordOf(test, known, sv, doc, k, chunks[k], embeddings[k], recs[k]);
  }

  lemma TextTablesAppended(before: Tables, doc: DocRow, recs: seq<ChunkRecord>)
    ensures var after := before.Append(JobTables(doc, recs));
      && after.documents == before.documents + [doc]
      && after.chunks == before.chunks + RecordRows(recs).chunks
  {
    RecordRowsContents(recs);
  }

  /** The rows that a document and its records add to the two tables of text. */
  lemma ChunksCommitted(test: NameTest, before: Tables, sv: Services, doc: DocRow, chunks: seq<TextChunk>,
                        embeddings: seq<Vector>, recs: seq<ChunkRecord>)
    requires RecordsOf(test, before.entities, sv, doc, chunks, embeddings, recs) && |recs| == |chunks|
    ensures var after := before.Append(JobTables(doc, recs));
      && after.documents == before.documents + [doc] && before.chunks <= after.chunks
      && var added := after.chunks[|before.chunks|..];
         && |added| == |chunks|
         && forall k :: 0 <= k < |added| ==>
              && added[k].documentId == doc.id && added[k].namespace == doc.namespace
              && added[k].ord == chunks[k].ord && added[k].text == chunks[k].text
              && added[k].tokenCount == chunks[k].tokenCount && added[k].embedding == embeddings[k]
  {
    TextTablesAppended(before, doc, recs);
    var rows := RecordRows(recs).chunks;
    assert (before.chunks + rows)[|before.chunks|..] == rows;
    RecordRowsContents(recs);
    forall k | 0 <= k < |rows|
      ensures rows[k] == ChunkRow(rows[k].id, doc.id, doc.namespace, chunks[k].ord, chunks[k].text,
                                  chunks[k].tokenCount, embeddings[k])
    {
      ChunkFields(test, before.entities, sv, doc, chunks, embeddings, recs, k);
    }
  }

  /** Step 7 in one transaction: the document with everything it brings, or nothing. */
  method PersistAtomically(client: FakePgClient, ids: UuidSource, sv: Services, namespace: string, sourceName: string,
                           hash: string, chunks: seq<TextChunk>, embeddings: seq<Vector>)
    returns (r: Result<Uuid, CoreError>, ghost recs: seq<ChunkRecord>)
    requires client.buffered == NO_ROWS && |chunks| == |embeddings|
    modifies client, ids
    ensures client.buffered == NO_ROWS && old(ids.next) <= ids.next
    ensures client.Willing() && Smooth(sv, namespace, chunks, client.chunkFailAt, old(client.chunkInserts)) ==> r.Ok?
    ensures FailsWithin(client.chunkFailAt, old(client.chunkInserts), |chunks|) ==> r.Err?
    ensures r.Err? ==> client.committed == old(client.committed)
    ensures r.Ok? ==>
      var doc := DocRow(r.value, namespace, sourceName, hash, None);
      && |recs| == |chunks|
      && RecordsOf(client.test, old(client.committed.entities), sv, doc, chunks, embeddings, recs)
      && client.committed == old(client.committed).Append(JobTables(doc, recs))
      && JobDrawn(r.value, recs, old(ids.next), ids.next)
  {
    var chunkIds := ids.FreshMany(|chunks|);
    var docId := ids.Fresh();
    var doc := DocRow(docId, namespace, sourceName, hash, None);
    var persisted;
    persisted, recs := PersistDocument(client, ids, sv, doc, chunks, embeddings, chunkIds);
    if persisted.Err? {
      client.Rollback();
      return Err(persisted.error), recs;
    }
    client.Commit();
    assert JobDrawnBy(chunkIds, docId, recs, old(ids.next), ids.next);
    return Ok(docId), recs;
  }

  method RunJob(client: FakePgClient, ids: UuidSource, req: IngestRequest, sv: Services)
    returns (r: Result<RunJobOutcome, CoreError>, ghost recs: seq<ChunkRecord>)
    requires client.buffered == NO_ROWS
    modifies client, ids
    ensures client.buffered == NO_ROWS
    ensures JobEffect(client.test, old(client.committed), client.committed, req, sv, r, recs)
    ensures r.Ok? && r.value.Completed? ==>
      var source, was, now := ReadSource(sv, req.source).value, old(client.committed), client.committed;
      && now.documents == was.documents + [DocRow(r.value.documentId, req.namespace, source.0, sv.hash(source.1), None)]
      && was.chunks <= now.chunks
      && sv.decode(source.1).Some? && sv.chunk(req.chunkStrategy, sv.decode(source.1).value).Ok?
      && var chunked, added := sv.chunk(req.chunkStrategy, sv.decode(source.1).value).value, now.chunks[|was.chunks|..];
         && 0 < r.value.chunkCount == |chunked| == |added|
         && sv.embed(ChunkTexts(chunked)).Ok? && |sv.embed(ChunkTexts(chunked)).value| == |added|
         && forall k :: 0 <= k < |added| ==>
              && added[k].documentId == r.value.documentId && added[k].namespace == req.namespace
              && added[k].ord == chunked[k].ord && added[k].text == chunked[k].text
              && added[k].tokenCount == chunked[k].tokenCount
              && added[k].embedding == sv.embed(ChunkTexts(chunked)).value[k]
    ensures old(ids.next) <= ids.next
    ensures r.Ok? && r.value.Completed? ==> JobDrawn(r.value.documentId, recs, old(ids.next), ids.next)
    ensures client.Willing() && Unhindered(sv, req) ==>
      (r.Ok? <==>
        || (exists d :: d in old(client.committed.documents) && d.namespace == req.namespace
              && d.contentHash == sv.hash(ReadSource(sv, req.source).value.1))
        || !FailsWithin(client.chunkFailAt, old(client.chunkInserts), ChunkCount(sv, req)))
    ensures r.Ok? && r.value.Completed? ==>
      !FailsWithin(client.chunkFailAt, old(client.chunkInserts), r.value.chunkCount)
    ensures var source := ReadSource(sv, req.source);
      if source.Err? then r == Err(source.error)
      else if exists d :: d in old(client.committed.documents) && d.namespace == req.namespace
                          && d.contentHash == sv.hash(source.value.1) then
        r == Ok(SkippedDuplicate(sv.hash(source.value.1)))
      else
        var text := sv.decode(source.value.1);
        if text.None? then r.Err? && r.error.InvalidConfig?
        else
          var chunked := sv.chunk(req.chunkStrategy, text.value);
          if chunked.Err? then r == Err(chunked.error)
          else if chunked.value == [] then r.Err? && r.error.InvalidConfig?
          else
            var embedded := sv.embed(ChunkTexts(chunked.value));
            if embedded.Err? then r == Err(embedded.error)
            else if |embedded.value| != |chunked.value| then r.Err? && r.error.InvalidConfig?
            else r.Err? || r.value.Completed?
  {
    recs := [];
    var source := ReadSource(sv, req.source);
    if source.Err? {
      return Err(source.error), recs;
    }
    var (sourceName, bytes) := source.value;
    var hash := sv.hash(bytes);
    if client.DocumentExistsByHash(req.namespace, hash) {
      return Ok(SkippedDuplicate(hash)), recs;
    }
    var text := sv.decode(bytes);
    if text.None? {
      return Err(InvalidConfig("source not valid utf-8")), recs;
    }
    var chunked := sv.chunk(req.chunkStrategy, text.value);
    if chunked.Err? {
      return Err(chunked.error), recs;
    }
    var chunks := chunked.value;
    if chunks == [] {
      return Err(InvalidConfig("chunkshop produced 0 chunks for non-empty source")), recs;
    }
    var embedded := sv.embed(ChunkTexts(chunks));
    if embedded.Err? {
      return Err(embedded.error), recs;
    }
    var embeddings := embedded.value;
    if |embeddings| != |chunks| {
      return Err(InvalidConfig("embedder returned a wrong number of vectors")), recs;
    }
    var persisted;
    persisted, recs := PersistAtomically(client, ids, sv, req.namespace, sourceName, hash, chunks, embeddings);
    if persisted.Err? {
      return Err(persisted.error), recs;
    }
    ghost var doc := DocRow(persisted.value, req.namespace, sourceName, hash, None);
    ChunksCommitted(client.test, old(client.committed), sv, doc, chunks, embeddings, recs);
    return Ok(Completed(persisted.value, |chunks|)), recs;
  }

  /**
   * What one call does to the committed tables: an error or a skip changes
   * nothing, and a skip has found the document; a completed job appends its
   * document, which was not there, with the rows of every chunk.
   */
  ghost predicate JobEffect(test: NameTest, before: Tables, after: Tables, req: IngestRequest, sv: Services,
                            r: Result<RunJobOutcome, CoreError>, recs: seq<ChunkRecord>)
  {
    match r
    case Err(_) => after == before
    case Ok(SkippedDuplicate(hash)) =>
      && after == before
      && ReadSource(sv, req.source).Ok?
      && hash == sv.hash(ReadSource(sv, req.source).value.1)
      && HasDocument(before.documents, req.namespace, hash)
    case Ok(Completed(documentId, chunkCount)) =>
      JobCompleted(test, before, after, req, sv, documentId, chunkCount, recs)
  }

  ghost predicate JobCompleted(test: NameTest, before: Tables, after: Tables, req: IngestRequest, sv: Services,
                               documentId: Uuid, chunkCount: nat, recs: seq<ChunkRecord>)
  {
    var source := ReadSource(sv, req.source);
    && source.Ok?
    && var doc := DocRow(documentId, req.namespace, source.value.0, sv.hash(source.value.1), None);
       var text := sv.decode(source.value.1);
       && !HasDocument(before.documents, req.namespace, doc.contentHash)
       && text.Some?
       && var chunked := sv.chunk(req.chunkStrategy, text.value);
          && chunked.Ok?
          && 0 < chunkCount == |recs| == |chunked.value|
          && var embedded := sv.embed(ChunkTexts(chunked.value));
             && embedded.Ok?
             && RecordsOf(test, before.entities, sv, doc, chunked.value, embedded.value, recs)
             && after == before.Append(JobTables(doc, recs))
  }
}
