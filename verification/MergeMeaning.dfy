/** The merge rule of the production resolver, read off the entity table itself. */
module MergeMeaning {
  import opened Prelude
  import opened Rows
  import opened PgClient
  import opened StableSort
  import opened MergeScan
  import opened ResolveEntity

  /** Where in the table the entities of a namespace stand, in order. */
  function Places(entities: seq<EntityRow>, namespace: string): (ps: seq<nat>)
    ensures |ps| == |InNamespace(entities, namespace)|
  {
    if entities == [] then []
    else
      var n := |entities| - 1;
      Places(entities[..n], namespace) + (if entities[n].namespace == namespace then [n] else [])
  }

  lemma {:induction false} PlaceOf(entities: seq<EntityRow>, namespace: string, i: nat)
    requires i < |Places(entities, namespace)|
    ensures Places(entities, namespace)[i] < |entities|
    ensures InNamespace(entities, namespace)[i] == entities[Places(entities, namespace)[i]]
    decreases |entities|
  {
    var n := |entities| - 1;
    if i < |Places(entities[..n], namespace)| {
      PlaceOf(entities[..n], namespace, i);
    }
  }

  lemma {:induction false} PlacesRise(entities: seq<EntityRow>, namespace: string, i: nat, j: nat)
    requires i < j < |Places(entities, namespace)|
    ensures Places(entities, namespace)[i] < Places(entities, namespace)[j]
    decreases |entities|
  {
    var n := |entities| - 1;
    if j < |Places(entities[..n], namespace)| {
      PlacesRise(entities[..n], namespace, i, j);
    } else {
      PlaceOf(entities[..n], namespace, i);
    }
  }

  lemma {:induction false} PlacesAll(entities: seq<EntityRow>, namespace: string, q: nat)
    requires q < |entities|
    ensures q in Places(entities, namespace) <==> entities[q].namespace == namespace
    decreases |entities|
  {
    var n := |entities| - 1;
    if q < n {
      PlacesAll(entities[..n], namespace, q);
    } else {
      PlacesBelow(entities[..n], namespace);
    }
  }

  lemma PlacesBelow(entities: seq<EntityRow>, namespace: string)
    ensures forall q :: q in Places(entities, namespace) ==> q < |entities|
  {
    var ps := Places(entities, namespace);
    forall i | 0 <= i < |ps| ensures ps[i] < |entities| {
      PlaceOf(entities, namespace, i);
    }
  }

  /** Entity `q` of the table passes both thresholds. */
  predicate Acceptable(test: NameTest, entities: seq<EntityRow>, namespace: string, name: string, emb: Vector, q: nat)
    requires q < |entities|
  {
    && entities[q].namespace == namespace
    && test.sim(entities[q].name, name) >= 0.85
    && entities[q].nameEmb.Some? && test.clears(emb, entities[q].nameEmb.value)
  }

  /** Of two entities, `p` is more similar, or as similar and earlier in the table. */
  predicate Precedes(test: NameTest, entities: seq<EntityRow>, name: string, p: nat, q: nat)
    requires p < |entities| && q < |entities|
  {
    || test.sim(entities[p].name, name) > test.sim(entities[q].name, name)
    || (test.sim(entities[p].name, name) == test.sim(entities[q].name, name) && p < q)
  }

  lemma PlacedScore(test: NameTest, entities: seq<EntityRow>, namespace: string, name: string, emb: Vector, i: nat)
    requires i < |Places(entities, namespace)|
    ensures var cs, p := Scores(test, InNamespace(entities, namespace), name, emb), Places(entities, namespace)[i];
      && p < |entities| && cs[i].sim == test.sim(entities[p].name, name)
      && (cs[i].Accepted() <==> Acceptable(test, entities, namespace, name, emb, p))
  {
    PlaceOf(entities, namespace, i);
    assert InNamespace(entities, namespace)[i] in InNamespace(entities, namespace);
  }

  /** Without an acceptable entity there is no target. */
  lemma NoMergeTarget(test: NameTest, entities: seq<EntityRow>, namespace: string, name: string, emb: Vector)
    requires forall q :: 0 <= q < |entities| ==>
      || entities[q].namespace != namespace || test.sim(entities[q].name, name) < 0.85
      || entities[q].nameEmb.None? || !test.clears(emb, entities[q].nameEmb.value)
    ensures MergeTarget(test, entities, namespace, name, emb) == None
  {
    var cs := Scores(test, InNamespace(entities, namespace), name, emb);
    forall i | 0 <= i < |cs| ensures !cs[i].Accepted() {
      PlacedScore(test, entities, namespace, name, emb, i);
    }
    TruncationExact(cs, TRGM_CANDIDATE_LIMIT);
  }

  /** The entities of the namespace that precede entity `p`. */
  ghost function Preceding(test: NameTest, entities: seq<EntityRow>, namespace: string, name: string, p: nat): set<nat>
    requires p < |entities|
  {
    set q | 0 <= q < |entities| && entities[q].namespace == namespace && Precedes(test, entities, name, q, p)
  }

  lemma AheadAt(test: NameTest, entities: seq<EntityRow>, namespace: string, name: string, emb: Vector, i: nat, k: nat)
    requires i < |Places(entities, namespace)| && k < |Places(entities, namespace)|
    ensures var keys, ps := Keys(Scores(test, InNamespace(entities, namespace), name, emb)), Places(entities, namespace);
      && ps[i] < |entities| && ps[k] < |entities|
      && (k in Ahead(keys, i) <==> ps[k] in Preceding(test, entities, namespace, name, ps[i]))
  {
    var keys, ps := Keys(Scores(test, InNamespace(entities, namespace), name, emb)), Places(entities, namespace);
    PlaceOf(entities, namespace, i);
    PlaceOf(entities, namespace, k);
    assert keys[k] == test.sim(entities[ps[k]].name, name) && keys[i] == test.sim(entities[ps[i]].name, name) by {
      PlacedScore(test, entities, namespace, name, emb, k);
      PlacedScore(test, entities, namespace, name, emb, i);
    }
    assert entities[ps[k]].namespace == namespace by {
      PlacesAll(entities, namespace, ps[k]);
    }
    assert k < i <==> ps[k] < ps[i] by {
      if k < i {
        PlacesRise(entities, namespace, k, i);
      } else if i < k {
        PlacesRise(entities, namespace, i, k);
      }
    }
  }

  /** The pool's order puts as many ahead as the table does. */
  lemma AheadIsPreceding(test: NameTest, entities: seq<EntityRow>, namespace: string, name: string, emb: Vector, i: nat)
    requires i < |Places(entities, namespace)|
    ensures var p := Places(entities, namespace)[i];
      && p < |entities|
      && |Ahead(Keys(Scores(test, InNamespace(entities, namespace), name, emb)), i)|
           == |Preceding(test, entities, namespace, name, p)|
  {
    PlaceOf(entities, namespace, i);
    var ps := Places(entities, namespace);
    var ahead := Ahead(Keys(Scores(test, InNamespace(entities, namespace), name, emb)), i);
    var preceding := Preceding(test, entities, namespace, name, ps[i]);
    forall k | 0 <= k < |ps| ensures k in ahead <==> ps[k] in preceding {
      AheadAt(test, entities, namespace, name, emb, i, k);
    }
    forall j, k | 0 <= j < k < |ps| ensures ps[j] < ps[k] {
      PlacesRise(entities, namespace, j, k);
    }
    forall q | q in preceding ensures q in ps {
      PlacesAll(entities, namespace, q);
    }
    ImageCard(ahead, preceding, ps);
  }

  /** Distinct places of a list are as many as what stands there. */
  lemma ImageCard(places: set<nat>, image: set<nat>, ps: seq<nat>)
    requires forall k :: k in places ==> k < |ps|
    requires forall j, k :: 0 <= j < k < |ps| ==> ps[j] < ps[k]
    requires forall k :: 0 <= k < |ps| ==> (k in places <==> ps[k] in image)
    requires forall q :: q in image ==> q in ps
    ensures |places| == |image|
    decreases |places|
  {
    if places == {} {
      assert forall q :: q in image ==> q in ps;
      assert image == {};
    } else {
      var k :| k in places;
      forall j | 0 <= j < |ps| ensures j in places - {k} <==> ps[j] in image - {ps[k]} {
      }
      ImageCard(places - {k}, image - {ps[k]}, ps);
    }
  }

  /** The best score of the pool stands where the best entity of the table does. */
  lemma BestPlaced(test: NameTest, entities: seq<EntityRow>, namespace: string, name: string, emb: Vector, i: nat, p: nat)
    requires i < |Places(entities, namespace)| && p == Places(entities, namespace)[i] && p < |entities|
    requires Acceptable(test, entities, namespace, name, emb, p)
    requires forall q :: 0 <= q < |entities| && q != p && Acceptable(test, entities, namespace, name, emb, q) ==>
      Precedes(test, entities, name, p, q)
    ensures Best(Scores(test, InNamespace(entities, namespace), name, emb)) == Some(i)
  {
    var cs := Scores(test, InNamespace(entities, namespace), name, emb);
    PlacedScore(test, entities, namespace, name, emb, i);
    forall j | 0 <= j < |cs| && cs[j].Accepted() && j != i
      ensures cs[j].sim < cs[i].sim || (cs[j].sim == cs[i].sim && i < j)
    {
      PlacedScore(test, entities, namespace, name, emb, j);
      if j < i {
        PlacesRise(entities, namespace, j, i);
      } else {
        PlacesRise(entities, namespace, i, j);
      }
      assert Precedes(test, entities, name, p, Places(entities, namespace)[j]);
    }
    BestUnique(cs, Best(cs), Some(i));
  }

  /**
   * The target is the acceptable entity that precedes every other acceptable
   * one, if fewer than eight entities of the namespace precede it; otherwise
   * there is none.
   */
  lemma MergeTargetIs(test: NameTest, entities: seq<EntityRow>, namespace: string, name: string, emb: Vector, p: nat)
    requires p < |entities| && entities[p].namespace == namespace && test.sim(entities[p].name, name) >= 0.85
    requires entities[p].nameEmb.Some? && test.clears(emb, entities[p].nameEmb.value)
    requires forall q :: 0 <= q < |entities| && q != p && Acceptable(test, entities, namespace, name, emb, q) ==>
      Precedes(test, entities, name, p, q)
    ensures MergeTarget(test, entities, namespace, name, emb) ==
      if |Preceding(test, entities, namespace, name, p)| < 8 then Some(entities[p].id) else None
  {
    var cs := Scores(test, InNamespace(entities, namespace), name, emb);
    PlacesAll(entities, namespace, p);
    var i :| 0 <= i < |Places(entities, namespace)| && Places(entities, namespace)[i] == p;
    BestPlaced(test, entities, namespace, name, emb, i, p);
    PlaceOf(entities, namespace, i);
    TruncationExact(cs, TRGM_CANDIDATE_LIMIT);
    AheadIsPreceding(test, entities, namespace, name, emb, i);
  }
}
