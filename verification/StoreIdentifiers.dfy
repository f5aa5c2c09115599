/**
 * The identifiers of committed rows: over any sequence of jobs no two rows of
 * a table share one, so that a reference leads to exactly one row.
 */
module StoreIdentifiers {
  import opened Prelude
  import opened Rows
  import opened PgClient
  import opened Identifiers
  import opened IngestRows
  import opened IngestJob

  function DocumentId(d: DocRow): Uuid {
    d.id
  }

  function ChunkId(c: ChunkRow): Uuid {
    c.id
  }

  function EntityId(e: EntityRow): Uuid {
    e.id
  }

  /** Every table's identifiers have been drawn in the order of its rows, between `from` and `to`. */
  ghost predicate AllDrawn(t: Tables, from: nat, to: nat) {
    && Drawn(Ids(t.documents, DocumentId), from, to)
    && Drawn(Ids(t.chunks, ChunkId), from, to)
    && Drawn(Ids(t.entities, EntityId), from, to)
    && Drawn(Ids(t.relationships, RelationshipId), from, to)
  }

  lemma LaterIds<T>(a: seq<T>, b: seq<T>, id: T -> Uuid, from: nat, mid: nat, to: nat)
    requires Drawn(Ids(a, id), from, mid) && Drawn(Ids(b, id), mid, to)
    ensures Drawn(Ids(a + b, id), from, to)
  {
    IdsConcat(a, b, id);
    DrawnLater(Ids(a, id), Ids(b, id), from, mid, to);
  }

  lemma AllLater(t: Tables, more: Tables, from: nat, mid: nat, to: nat)
    requires AllDrawn(t, from, mid) && AllDrawn(more, mid, to)
    ensures AllDrawn(t.Append(more), from, to)
  {
    LaterIds(t.documents, more.documents, DocumentId, from, mid, to);
    LaterIds(t.chunks, more.chunks, ChunkId, from, mid, to);
    LaterIds(t.entities, more.entities, EntityId, from, mid, to);
    LaterIds(t.relationships, more.relationships, RelationshipId, from, mid, to);
  }

  lemma AllWithin(t: Tables, from: nat, to: nat, to': nat)
    requires AllDrawn(t, from, to) && to <= to'
    ensures AllDrawn(t, from, to')
  {
    DrawnWithin(Ids(t.documents, DocumentId), from, to, from, to');
    DrawnWithin(Ids(t.chunks, ChunkId), from, to, from, to');
    DrawnWithin(Ids(t.entities, EntityId), from, to, from, to');
    DrawnWithin(Ids(t.relationships, RelationshipId), from, to, from, to');
  }

  lemma {:induction false} IdsOfMentions(ms: seq<Mention>)
    ensures Ids(MentionRows(ms).entities, EntityId) == MentionIds(ms)
  {
    if ms != [] {
      var n := |ms| - 1;
      IdsOfMentions(ms[..n]);
      IdsConcat(MentionRows(ms[..n]).entities, ms[n].Rows().entities, EntityId);
      if ms[n].added.Some? {
        var e := ms[n].added.value;
        assert ms[n].Rows().entities == [e] && [e][..0] == [];
      } else {
        assert ms[n].Rows().entities == [];
      }
    }
  }

  /** The rows of a job's records have the identifiers of the records. */
  lemma {:induction false} IdsOfRecords(recs: seq<ChunkRecord>)
    ensures RecordRows(recs).documents == []
    ensures Ids(RecordRows(recs).chunks, ChunkId) == Ids(recs, ChunkIdOf)
    ensures Ids(RecordRows(recs).entities, EntityId) == EntityIds(recs)
    ensures Ids(RecordRows(recs).relationships, RelationshipId) == RelationshipIds(recs)
  {
    if recs != [] {
      var n := |recs| - 1;
      var front, rec := RecordRows(recs[..n]), recs[n];
      IdsOfRecords(recs[..n]);
      RecordFields(rec);
      IdsOfMentions(rec.mentions);
      IdsConcat(front.chunks, [rec.chunk], ChunkId);
      assert [rec.chunk][..0] == [];
      IdsConcat(front.entities, rec.Rows().entities, EntityId);
      IdsConcat(front.relationships, rec.relationships, RelationshipId);
    }
  }

  lemma RowsFromDocument(doc: DocRow, recs: seq<ChunkRecord>)
    requires RecordRows(recs).documents == []
    ensures var rows := JobTables(doc, recs);
      && rows.documents == [doc] && rows.chunks == RecordRows(recs).chunks
      && rows.entities == RecordRows(recs).entities && rows.relationships == RecordRows(recs).relationships
  {
  }

  lemma JobIdsDrawn(doc: DocRow, chunkIds: seq<Uuid>, recs: seq<ChunkRecord>, from: nat, to: nat)
    requires JobDrawnBy(chunkIds, doc.id, recs, from, to)
    ensures Drawn(Ids([doc], DocumentId), from, to) && Drawn(Ids(recs, ChunkIdOf), from, to)
    ensures Drawn(EntityIds(recs), from, to) && Drawn(RelationshipIds(recs), from, to)
  {
    assert Drawn(Ids([doc], DocumentId), from, to) by {
      OneMoreDrawn([], doc.id, from, doc.id, to);
      assert Ids([doc], DocumentId) == [] + [doc.id];
    }
    assert chunkIds[..|recs|] == chunkIds;
    DrawnWithin(chunkIds, from, doc.id, from, to);
    DrawnWithin(EntityIds(recs), doc.id + 1, to, from, to);
    DrawnWithin(RelationshipIds(recs), doc.id + 1, to, from, to);
  }

  lemma JobTablesDrawn(doc: DocRow, chunkIds: seq<Uuid>, recs: seq<ChunkRecord>, from: nat, to: nat)
    requires JobDrawnBy(chunkIds, doc.id, recs, from, to)
    ensures AllDrawn(JobTables(doc, recs), from, to)
  {
    JobIdsDrawn(doc, chunkIds, recs, from, to);
    IdsOfRecords(recs);
    RowsFromDocument(doc, recs);
  }

  /** Whatever a job returns, identifiers stay drawn in order. */
  lemma JobKeepsDrawn(test: NameTest, before: Tables, after: Tables, req: IngestRequest, sv: Services,
                      r: Result<RunJobOutcome, CoreError>, recs: seq<ChunkRecord>, from: nat, to: nat)
    requires JobEffect(test, before, after, req, sv, r, recs) && AllDrawn(before, 0, from) && from <= to
    requires r.Ok? && r.value.Completed? ==> JobDrawn(r.value.documentId, recs, from, to)
    ensures AllDrawn(after, 0, to)
  {
    if r.Ok? && r.value.Completed? {
      var source := ReadSource(sv, req.source).value;
      var doc := DocRow(r.value.documentId, req.namespace, source.0, sv.hash(source.1), None);
      var chunkIds :| JobDrawnBy(chunkIds, doc.id, recs, from, to);
      JobTablesDrawn(doc, chunkIds, recs, from, to);
      AllLater(before, JobTables(doc, recs), 0, from, to);
    } else {
      AllWithin(before, 0, from, to);
    }
  }

  /** No two rows of a table share an identifier. */
  ghost predicate DistinctIds(t: Tables) {
    Apart(t.documents, DocumentId) && Apart(t.chunks, ChunkId) && Apart(t.entities, EntityId)
    && Apart(t.relationships, RelationshipId)
  }

  lemma DrawnAreDistinct(t: Tables, from: nat, to: nat)
    requires AllDrawn(t, from, to)
    ensures DistinctIds(t)
  {
    DrawnApart(t.documents, DocumentId, from, to);
    DrawnApart(t.chunks, ChunkId, from, to);
    DrawnApart(t.entities, EntityId, from, to);
    DrawnApart(t.relationships, RelationshipId, from, to);
  }

  /** Exactly one row has the identifier. */
  ghost predicate OneHas<T>(rows: seq<T>, id: T -> Uuid, key: Uuid) {
    exists i :: 0 <= i < |rows| && id(rows[i]) == key && forall j :: 0 <= j < |rows| && id(rows[j]) == key ==> j == i
  }

  lemma FoundOnce<T>(rows: seq<T>, id: T -> Uuid, row: T)
    requires Apart(rows, id) && row in rows
    ensures OneHas(rows, id, id(row))
  {
    var i :| 0 <= i < |rows| && rows[i] == row;
    assert forall j :: 0 <= j < |rows| && id(rows[j]) == id(row) ==> j == i;
  }
}
