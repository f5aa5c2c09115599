/**
 * The rows of the graph store and the buffering client that writes them.
 *
 * Writes go to buffers; `Commit` moves the buffers into the canonical tables
 * and `Rollback` empties them.
 */
module Rows {
  import opened Prelude

  datatype DocRow = DocRow(id: Uuid, namespace: string, source: string, contentHash: string, title: Option<string>)

  datatype ChunkRow = ChunkRow(id: Uuid, documentId: Uuid, namespace: string, ord: int, text: string,
                               tokenCount: int, embedding: Vector)

  datatype EntityRow = EntityRow(id: Uuid, namespace: string, name: string, kind: Option<string>,
                                 nameEmb: Option<Vector>, description: Option<string>)

  datatype RelRow = RelRow(id: Uuid, namespace: string, srcId: Uuid, dstId: Uuid, kind: string,
                           weight: real, description: Option<string>)

  datatype ChunkEntityRow = ChunkEntityRow(chunkId: Uuid, entityId: Uuid, confidence: real)

  /** The contents of the five tables. */
  datatype Tables = Tables(documents: seq<DocRow>, chunks: seq<ChunkRow>, entities: seq<EntityRow>,
                           relationships: seq<RelRow>, links: seq<ChunkEntityRow>)
  {
    function Append(more: Tables): Tables {
      Tables(documents + more.documents, chunks + more.chunks, entities + more.entities,
             relationships + more.relationships, links + more.links)
    }
  }

  const NO_ROWS := Tables([], [], [], [], [])

  function DocumentRow(d: DocRow): Tables {
    NO_ROWS.(documents := [d])
  }

  function ChunkOnly(c: ChunkRow): Tables {
    NO_ROWS.(chunks := [c])
  }

  function EntityOnly(e: EntityRow): Tables {
    NO_ROWS.(entities := [e])
  }

  function RelationshipOnly(r: RelRow): Tables {
    NO_ROWS.(relationships := [r])
  }

  function LinkOnly(l: ChunkEntityRow): Tables {
    NO_ROWS.(links := [l])
  }

  lemma AppendAssociative(a: Tables, b: Tables, c: Tables)
    ensures a.Append(b).Append(c) == a.Append(b.Append(c))
  {
    assert (a.documents + b.documents) + c.documents == a.documents + (b.documents + c.documents);
    assert (a.chunks + b.chunks) + c.chunks == a.chunks + (b.chunks + c.chunks);
    assert (a.entities + b.entities) + c.entities == a.entities + (b.entities + c.entities);
    assert (a.relationships + b.relationships) + c.relationships
        == a.relationships + (b.relationships + c.relationships);
    assert (a.links + b.links) + c.links == a.links + (b.links + c.links);
  }

  lemma AppendNone(a: Tables)
    ensures a.Append(NO_ROWS) == a && NO_ROWS.Append(a) == a
  {
  }

  predicate HasDocument(documents: seq<DocRow>, namespace: string, hash: string) {
    exists d :: d in documents && d.namespace == namespace && d.contentHash == hash
  }

  predicate HasEntity(entities: seq<EntityRow>, namespace: string, id: Uuid) {
    exists e :: e in entities && e.namespace == namespace && e.id == id
  }

  predicate HasChunk(chunks: seq<ChunkRow>, namespace: string, id: Uuid) {
    exists c :: c in chunks && c.namespace == namespace && c.id == id
  }

  predicate HasDocumentId(documents: seq<DocRow>, namespace: string, id: Uuid) {
    exists d :: d in documents && d.namespace == namespace && d.id == id
  }

  predicate HasChunkOf(chunks: seq<ChunkRow>, documentId: Uuid) {
    exists c :: c in chunks && c.documentId == documentId
  }
}

module PgClient {
  import opened Prelude
  import opened Rows
  import opened Identifiers
  import opened StableSort

  /** The two tests of the resolver: trigram similarity of names, cosine of embeddings. */
  datatype NameTest = NameTest(sim: (string, string) -> real, clears: (Vector, Vector) -> bool)

  datatype EntityCandidate = EntityCandidate(id: Uuid, name: string, trgmSimilarity: real, nameEmb: Option<Vector>)

  /** The entities of a namespace, in table order. */
  function InNamespace(entities: seq<EntityRow>, namespace: string): (pool: seq<EntityRow>)
    ensures forall e :: e in pool <==> e in entities && e.namespace == namespace
  {
    if entities == [] then []
    else
      var n := |entities| - 1;
      InNamespace(entities[..n], namespace)
      + (if entities[n].namespace == namespace then [entities[n]] else [])
  }

  function ToCandidate(test: NameTest, e: EntityRow, name: string): EntityCandidate {
    EntityCandidate(e.id, e.name, test.sim(e.name, name), e.nameEmb)
  }

  function Similarities(test: NameTest, pool: seq<EntityRow>, name: string): (keys: seq<real>)
    ensures |keys| == |pool|
    ensures forall i :: 0 <= i < |pool| ==> keys[i] == test.sim(pool[i].name, name)
  {
    seq(|pool|, i requires 0 <= i < |pool| => test.sim(pool[i].name, name))
  }

  /** The pool in stable descending order of similarity, cut to `limit`. */
  function TopMatches(test: NameTest, pool: seq<EntityRow>, name: string, limit: nat): (hits: seq<EntityCandidate>)
    ensures |hits| == Min(limit, |pool|)
    ensures var order := Order(Similarities(test, pool, name));
      forall a :: 0 <= a < |hits| ==> order[a] < |pool| && hits[a] == ToCandidate(test, pool[order[a]], name)
  {
    var order := Order(Similarities(test, pool, name));
    seq(Min(limit, |pool|), a requires 0 <= a < Min(limit, |pool|) => ToCandidate(test, pool[order[a]], name))
  }

  class FakePgClient {
    /** The canonical tables, and the writes buffered since the last commit or rollback. */
    var committed: Tables
    var buffered: Tables

    /** If `Some(n)`, the n-th chunk insert of a transaction fails. */
    var chunkFailAt: Option<nat>
    var chunkInserts: nat
    const test: NameTest

    /**
     * The client contract lets every write fail; `refuses(n)` says that the
     * store refuses the n-th write. The fake refuses none on its own account.
     */
    const refuses: nat -> bool
    var writes: nat

    constructor (test: NameTest, refuses: nat -> bool)
      ensures committed == NO_ROWS && buffered == NO_ROWS
      ensures chunkFailAt == None && this.test == test && this.refuses == refuses
    {
      committed, buffered := NO_ROWS, NO_ROWS;
      chunkFailAt, chunkInserts := None, 0;
      writes := 0;
      this.test := test;
      this.refuses := refuses;
    }

    /** The store refuses no write at all. */
    ghost predicate Willing() {
      forall n :: !refuses(n)
    }

    method FailChunkWriteAt(n: nat)
      modifies this`chunkFailAt
      ensures chunkFailAt == Some(n)
    {
      chunkFailAt := Some(n);
    }

    /** Buffers `rows` unless the store refuses the write. */
    method Write(rows: Tables) returns (r: Result<(), CoreError>)
      modifies this`buffered, this`writes
      ensures r.Ok? <==> !refuses(old(writes))
      ensures buffered == if r.Ok? then old(buffered).Append(rows) else old(buffered)
    {
      if refuses(writes) {
        r := Err(InvalidConfig("write failure"));
      } else {
        r := Ok(());
        buffered := buffered.Append(rows);
      }
      writes := writes + 1;
    }

    predicate DocumentExistsByHash(namespace: string, hash: string)
      reads this
    {
      HasDocument(committed.documents, namespace, hash)
    }

    method InsertDocument(doc: DocRow) returns (r: Result<(), CoreError>)
      modifies this`buffered, this`writes
      ensures r.Ok? <==> !refuses(old(writes))
      ensures r.Ok? ==> buffered == old(buffered).Append(DocumentRow(doc))
    {
      r := Write(DocumentRow(doc));
    }

    method InsertChunk(chunk: ChunkRow) returns (r: Result<(), CoreError>)
      modifies this`buffered, this`writes, this`chunkInserts
      ensures r.Ok? ==> buffered == old(buffered).Append(ChunkOnly(chunk))
      ensures chunkInserts == old(chunkInserts) + 1
      ensures r.Ok? <==> Some(old(chunkInserts)) != chunkFailAt && !refuses(old(writes))
    {
      chunkInserts := chunkInserts + 1;
      if Some(chunkInserts - 1) == chunkFailAt {
        return Err(InvalidConfig("synthetic chunk write failure"));
      }
      r := Write(ChunkOnly(chunk));
    }

    method InsertEntity(row: EntityRow) returns (r: Result<(), CoreError>)
      modifies this`buffered, this`writes
      ensures r.Ok? <==> !refuses(old(writes))
      ensures r.Ok? ==> buffered == old(buffered).Append(EntityOnly(row))
    {
      r := Write(EntityOnly(row));
    }

    method InsertRelationship(row: RelRow) returns (r: Result<(), CoreError>)
      modifies this`buffered, this`writes
      ensures r.Ok? <==> !refuses(old(writes))
      ensures r.Ok? ==> buffered == old(buffered).Append(RelationshipOnly(row))
    {
      r := Write(RelationshipOnly(row));
    }

    method InsertChunkEntity(row: ChunkEntityRow) returns (r: Result<(), CoreError>)
      modifies this`buffered, this`writes
      ensures r.Ok? <==> !refuses(old(writes))
      ensures r.Ok? ==> buffered == old(buffered).Append(LinkOnly(row))
    {
      r := Write(LinkOnly(row));
    }

    /** Sees committed entities only. */
    function FuzzyMatchEntity(namespace: string, name: string, limit: nat): seq<EntityCandidate>
      reads this
    {
      TopMatches(test, InNamespace(committed.entities, namespace), name, limit)
    }

    method Rollback()
      modifies this`buffered, this`chunkInserts
      ensures buffered == NO_ROWS && chunkInserts == 0
    {
      buffered := NO_ROWS;
      chunkInserts := 0;
    }

    method Commit()
      modifies this`committed, this`buffered, this`chunkInserts
      ensures committed == old(committed).Append(old(buffered))
      ensures buffered == NO_ROWS && chunkInserts == 0
    {
      committed := committed.Append(buffered);
      buffered := NO_ROWS;
      chunkInserts := 0;
    }
  }

  /** Where run_job's random identifiers come from: no identifier is handed out twice. */
  class UuidSource {
    var next: Uuid

    constructor ()
      ensures next == 0
    {
      next := 0;
    }

    method Fresh() returns (id: Uuid)
      modifies this
      ensures id == old(next) && next == old(next) + 1
    {
      id := next;
      next := next + 1;
    }

    method FreshMany(n: nat) returns (many: seq<Uuid>)
      modifies this
      ensures |many| == n && old(next) <= next && Drawn(many, old(next), next)
    {
      many := [];
      for i := 0 to n
        invariant |many| == i && old(next) <= next && Drawn(many, old(next), next)
      {
        var id := Fresh();
        OneMoreDrawn(many, id, old(next), id, next);
        many := many + [id];
      }
    }
  }
}
