/** What a completed job adds to the tables of the graph, row by row, in terms of what was extracted. */
module CommittedRows {
  import opened Prelude
  import opened Rows
  import opened PgClient
  import opened ResolveEntity
  import opened IngestRows
  import opened IngestJob
  import opened StoreInvariants

  ghost predicate SomeInserts(recs: seq<ChunkRecord>, e: EntityRow) {
    exists k :: 0 <= k < |recs| && Inserts(recs[k].mentions, e)
  }

  ghost predicate SomeLinks(recs: seq<ChunkRecord>, l: ChunkEntityRow) {
    exists k :: 0 <= k < |recs| && HasLink(recs[k].mentions, l)
  }

  ghost predicate HasLink(ms: seq<Mention>, l: ChunkEntityRow) {
    exists i :: 0 <= i < |ms| && ms[i].link == l
  }

  ghost predicate SomeRelates(recs: seq<ChunkRecord>, r: RelRow) {
    exists k :: 0 <= k < |recs| && r in recs[k].relationships
  }

  lemma SomeLast(recs: seq<ChunkRecord>, e: EntityRow, l: ChunkEntityRow, r: RelRow)
    requires recs != []
    ensures var front, last := recs[..|recs| - 1], recs[|recs| - 1];
      && (SomeInserts(recs, e) <==> SomeInserts(front, e) || Inserts(last.mentions, e))
      && (SomeLinks(recs, l) <==> SomeLinks(front, l) || HasLink(last.mentions, l))
      && (SomeRelates(recs, r) <==> SomeRelates(front, r) || r in last.relationships)
  {
    var n := |recs| - 1;
    assert forall k :: 0 <= k < n ==> recs[..n][k] == recs[k];
  }

  lemma {:induction false} RowsOfRecords(recs: seq<ChunkRecord>, e: EntityRow, l: ChunkEntityRow, r: RelRow)
    ensures e in RecordRows(recs).entities <==> SomeInserts(recs, e)
    ensures l in RecordRows(recs).links <==> SomeLinks(recs, l)
    ensures r in RecordRows(recs).relationships <==> SomeRelates(recs, r)
    decreases |recs|
  {
    if recs != [] {
      var front, last := recs[..|recs| - 1], recs[|recs| - 1];
      RowsOfRecords(front, e, l, r);
      SomeLast(recs, e, l, r);
      RecordFields(last);
      MentionEntities(last.mentions, e);
      LinksOfMentions(last.mentions, l);
      assert RecordRows(recs).entities == RecordRows(front).entities + last.Rows().entities;
      assert RecordRows(recs).links == RecordRows(front).links + last.Rows().links;
      assert RecordRows(recs).relationships == RecordRows(front).relationships + last.Rows().relationships;
    }
  }

  lemma LinksOfMentions(ms: seq<Mention>, l: ChunkEntityRow)
    ensures l in MentionRows(ms).links <==> HasLink(ms, l)
  {
    MentionLinks(ms);
    if HasLink(ms, l) {
      var i :| 0 <= i < |ms| && ms[i].link == l;
      assert MentionRows(ms).links[i] == l;
    }
  }

  /**
   * The entities, links and relationships a job adds are those of its
   * records: every inserted entity, every mention's link, every relationship.
   */
  lemma GraphRowsAdded(before: Tables, doc: DocRow, recs: seq<ChunkRecord>, e: EntityRow, l: ChunkEntityRow, r: RelRow)
    ensures var after := before.Append(JobTables(doc, recs));
      && before.entities <= after.entities && before.links <= after.links && before.relationships <= after.relationships
      && (e in after.entities[|before.entities|..] <==>
            exists k, i :: 0 <= k < |recs| && 0 <= i < |recs[k].mentions| && recs[k].mentions[i].added == Some(e))
      && (l in after.links[|before.links|..] <==>
            exists k, i :: 0 <= k < |recs| && 0 <= i < |recs[k].mentions| && recs[k].mentions[i].link == l)
      && (r in after.relationships[|before.relationships|..] <==>
            exists k :: 0 <= k < |recs| && r in recs[k].relationships)
  {
    var rows := RecordRows(recs);
    var after := before.Append(JobTables(doc, recs));
    assert after.entities[|before.entities|..] == rows.entities;
    assert after.links[|before.links|..] == rows.links;
    assert after.relationships[|before.relationships|..] == rows.relationships;
    RowsOfRecords(recs, e, l, r);
  }

  /**
   * Mention `i` of chunk `k`: its link joins the committed chunk to the entity
   * it merges into, or to an entity inserted with the extracted fields.
   */
  lemma MentionCommitted(test: NameTest, before: Tables, after: Tables, req: IngestRequest, sv: Services,
                         r: Result<RunJobOutcome, CoreError>, recs: seq<ChunkRecord>, k: nat, i: nat)
    requires JobEffect(test, before, after, req, sv, r, recs) && r.Ok? && r.value.Completed?
    requires k < |recs| && i < |recs[k].mentions|
    ensures var text := sv.decode(ReadSource(sv, req.source).value.1).value;
      var chunk := sv.chunk(req.chunkStrategy, text).value[k];
      var extracted, m := sv.extract(k, chunk.text, req.namespace), recs[k].mentions[i];
      && extracted.Ok? && |recs[k].mentions| == |extracted.value.entities|
      && var ent := extracted.value.entities[i];
         && sv.embed([ent.name]).Ok? && sv.embed([ent.name]).value != []
         && m.link.chunkId == recs[k].chunk.id && m.link.confidence == ent.confidence
         && var emb := sv.embed([ent.name]).value[0];
            match MergeTarget(test, before.entities, req.namespace, ent.name, emb)
            case Some(id) => m.link.entityId == id && m.added == None
            case None =>
              m.added == Some(EntityRow(m.link.entityId, req.namespace, ent.name, ent.kind, Some(emb), ent.description))
  {
    var source := ReadSource(sv, req.source).value;
    var doc := DocRow(r.value.documentId, req.namespace, source.0, sv.hash(source.1), None);
    var chunks := sv.chunk(req.chunkStrategy, sv.decode(source.1).value).value;
    var embeddings := sv.embed(ChunkTexts(chunks)).value;
    assert RecordOf(test, before.entities, sv, doc, k, chunks[k], embeddings[k], recs[k]);
    var ex := sv.extract(k, chunks[k].text, req.namespace).value;
    assert MentionOf(test, before.entities, sv, recs[k].chunk, ex.entities[i], recs[k].mentions[i]);
  }
}
