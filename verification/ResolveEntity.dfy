/**
 * Resolution of one extracted entity: merge into a committed entity of the
 * namespace, or insert a new one.
 */
module ResolveEntity {
  import opened Prelude
  import opened Rows
  import opened PgClient
  import opened StableSort
  import opened MergeScan

  const TRGM_CANDIDATE_LIMIT := 8

  function ScoreEntity(test: NameTest, e: EntityRow, name: string, emb: Vector): Scored {
    Scored(test.sim(e.name, name), e.nameEmb.Some? && test.clears(emb, e.nameEmb.value))
  }

  function Scores(test: NameTest, pool: seq<EntityRow>, name: string, emb: Vector): (cs: seq<Scored>)
    ensures |cs| == |pool|
    ensures forall i :: 0 <= i < |pool| ==> cs[i] == ScoreEntity(test, pool[i], name, emb)
  {
    seq(|pool|, i requires 0 <= i < |pool| => ScoreEntity(test, pool[i], name, emb))
  }

  /** The committed entity a mention merges into, if any. */
  function MergeTarget(test: NameTest, entities: seq<EntityRow>, namespace: string, name: string, emb: Vector):
    (target: Option<Uuid>)
    ensures target.Some? ==> HasEntity(entities, namespace, target.value)
  {
    var pool := InNamespace(entities, namespace);
    match Truncated(Scores(test, pool, name, emb), TRGM_CANDIDATE_LIMIT)
    case None => None
    case Some(i) =>
      assert pool[i] in pool;
      Some(pool[i].id)
  }

  /** The two thresholds, as the scan tests them. */
  predicate Accepts(test: NameTest, c: EntityCandidate, emb: Vector) {
    c.trgmSimilarity >= TRGM_MERGE && c.nameEmb.Some? && test.clears(emb, c.nameEmb.value)
  }

  lemma HitAccepted(test: NameTest, pool: seq<EntityRow>, name: string, emb: Vector, b: nat)
    requires b < |TopMatches(test, pool, name, TRGM_CANDIDATE_LIMIT)|
    ensures var cs := Scores(test, pool, name, emb);
      && b < |Order(Keys(cs))| && Order(Keys(cs))[b] < |cs|
      && (cs[Order(Keys(cs))[b]].Accepted() <==> Accepts(test, TopMatches(test, pool, name, TRGM_CANDIDATE_LIMIT)[b], emb))
      && TopMatches(test, pool, name, TRGM_CANDIDATE_LIMIT)[b].id == pool[Order(Keys(cs))[b]].id
  {
    assert Keys(Scores(test, pool, name, emb)) == Similarities(test, pool, name);
  }

  ghost predicate RejectsFirst(test: NameTest, cands: seq<EntityCandidate>, emb: Vector, n: nat) {
    n <= |cands| && forall b :: 0 <= b < n ==> !Accepts(test, cands[b], emb)
  }

  /** The first accepted candidate, in the order the client offers them, is the merge target. */
  lemma ScanFindsTarget(test: NameTest, entities: seq<EntityRow>, namespace: string, name: string, emb: Vector, a: nat)
    requires var hits := TopMatches(test, InNamespace(entities, namespace), name, TRGM_CANDIDATE_LIMIT);
      && RejectsFirst(test, hits, emb, a)
      && (a < |hits| ==> Accepts(test, hits[a], emb))
    ensures var hits := TopMatches(test, InNamespace(entities, namespace), name, TRGM_CANDIDATE_LIMIT);
      MergeTarget(test, entities, namespace, name, emb) == if a < |hits| then Some(hits[a].id) else None
  {
    var pool := InNamespace(entities, namespace);
    var hits := TopMatches(test, pool, name, TRGM_CANDIDATE_LIMIT);
    var cs := Scores(test, pool, name, emb);
    forall b | 0 <= b < a ensures !cs[Order(Keys(cs))[b]].Accepted() {
      HitAccepted(test, pool, name, emb, b);
    }
    if a < |hits| {
      HitAccepted(test, pool, name, emb, a);
    }
    TruncatedIs(cs, TRGM_CANDIDATE_LIMIT, a);
  }

  /** The scan over the client's candidates. */
  method FindTarget(client: FakePgClient, namespace: string, name: string, incomingEmb: Vector)
    returns (hit: Option<Uuid>)
    ensures hit == MergeTarget(client.test, client.committed.entities, namespace, name, incomingEmb)
  {
    var cands := client.FuzzyMatchEntity(namespace, name, TRGM_CANDIDATE_LIMIT);
    for a := 0 to |cands|
      invariant RejectsFirst(client.test, cands, incomingEmb, a)
    {
      var c := cands[a];
      if c.trgmSimilarity < TRGM_MERGE {
        continue;
      }
      if c.nameEmb.Some? {
        if client.test.clears(incomingEmb, c.nameEmb.value) {
          ScanFindsTarget(client.test, client.committed.entities, namespace, name, incomingEmb, a);
          return Some(c.id);
        }
      }
    }
    ScanFindsTarget(client.test, client.committed.entities, namespace, name, incomingEmb, |cands|);
    return None;
  }

  method ResolveOrInsertEntity(client: FakePgClient, ids: UuidSource, namespace: string, name: string,
                               kind: Option<string>, incomingEmb: Vector, description: Option<string>)
    returns (r: Result<Uuid, CoreError>)
    modifies client`buffered, client`writes, ids
    ensures ids.next >= old(ids.next)
    ensures client.Willing() ==> r.Ok?
    ensures r.Ok? ==>
      match MergeTarget(client.test, client.committed.entities, namespace, name, incomingEmb)
      case Some(id) => r.value == id && client.buffered == old(client.buffered)
      case None =>
        && old(ids.next) <= r.value < ids.next
        && client.buffered == old(client.buffered).Append(
             EntityOnly(EntityRow(r.value, namespace, name, kind, Some(incomingEmb), description)))
  {
    var hit := FindTarget(client, namespace, name, incomingEmb);
    if hit.Some? {
      return Ok(hit.value);
    }
    var newId := ids.Fresh();
    var w := client.InsertEntity(EntityRow(newId, namespace, name, kind, Some(incomingEmb), description));
    r := if w.Ok? then Ok(newId) else Err(w.error);
  }

  /**
   * A merge never picks anything but the entity the exhaustive rule picks from
   * the whole namespace, and the two rules agree exactly when nothing is
   * acceptable or fewer than eight entities rank ahead of the best one.
   */
  lemma MergeTargetExact(test: NameTest, entities: seq<EntityRow>, namespace: string, name: string, emb: Vector)
    ensures var pool := InNamespace(entities, namespace);
      var cs := Scores(test, pool, name, emb);
      var target := MergeTarget(test, entities, namespace, name, emb);
      && (target.Some? ==> Best(cs).Some? && target.value == pool[Best(cs).value].id)
      && (target.None? <==>
          Best(cs).None? || |Ahead(Keys(cs), Best(cs).value)| >= TRGM_CANDIDATE_LIMIT)
  {
    TruncationExact(Scores(test, InNamespace(entities, namespace), name, emb), TRGM_CANDIDATE_LIMIT);
  }

  /** With at most eight entities of the namespace over the trigram threshold, truncation changes nothing. */
  lemma FewCandidatesSuffice(test: NameTest, entities: seq<EntityRow>, namespace: string, name: string, emb: Vector)
    requires |SimilarSet(Scores(test, InNamespace(entities, namespace), name, emb))| <= TRGM_CANDIDATE_LIMIT
    ensures var pool := InNamespace(entities, namespace);
      var best := Best(Scores(test, pool, name, emb));
      MergeTarget(test, entities, namespace, name, emb) == if best.Some? then Some(pool[best.value].id) else None
  {
    FewSimilarSuffice(Scores(test, InNamespace(entities, namespace), name, emb), TRGM_CANDIDATE_LIMIT);
  }
}
