/**
 * The cross-implementation entry point of entity resolution: clustering of
 * names by trigram similarity and by the cosine of their parity vectors.
 */
module CanonicalIds {
  import opened Prelude
  import opened Trigram
  import opened NameEmbedding
  import opened MergeScan
  import opened Clustering

  function NameVec(t: Text, name: string): Vector {
    LaneSums(t.utf8(t.lower(name)))
  }

  function NameMeasure(t: Text): Measure {
    Measure((a, b) => Similarity(t, a, b), (a, b) => Clears(NameVec(t, a), NameVec(t, b)))
  }

  function UnitVec(t: Text, sqrt: real -> real, name: string): Vector {
    ParityVec(sqrt, t.utf8(t.lower(name)))
  }

  method ResolveCanonicalIds(t: Text, sqrt: real -> real, names: seq<string>) returns (out: map<string, nat>)
    requires IsSqrt(sqrt)
    ensures out == ResolveAll(NameMeasure(t), names).ids
  {
    var canon: seq<string> := [];
    var embs: seq<Vector> := [];
    out := map[];
    for n := 0 to |names|
      invariant Clusters(canon, out) == ResolveAll(NameMeasure(t), names[..n])
      invariant embs == UnitVecs(t, sqrt, canon)
    {
      ResolveOneMore(NameMeasure(t), names, n);
      var id;
      id, canon, embs := FindOrAdd(t, sqrt, names[n], canon, embs);
      out := out[names[n] := id];
    }
    assert names[..|names|] == names;
  }

  /** One round of the loop: the entry the name joins, after adding it if it joins none. */
  method FindOrAdd(t: Text, sqrt: real -> real, name: string, canon: seq<string>, embs: seq<Vector>)
    returns (id: nat, canon': seq<string>, embs': seq<Vector>)
    requires IsSqrt(sqrt) && embs == UnitVecs(t, sqrt, canon)
    ensures forall ids :: Clusters(canon', ids[name := id]) == Assign(NameMeasure(t), Clusters(canon, ids), name)
    ensures embs' == UnitVecs(t, sqrt, canon')
  {
    var hit, emb := FindEntry(t, sqrt, name, canon, embs);
    match hit
    case Some(i) =>
      id, canon', embs' := i, canon, embs;
    case None =>
      id, canon', embs' := |canon|, canon + [name], embs + [emb];
      assert UnitVecs(t, sqrt, canon + [name]) == UnitVecs(t, sqrt, canon) + [UnitVec(t, sqrt, name)];
  }

  /** The normalised vectors stored with the entries. */
  function UnitVecs(t: Text, sqrt: real -> real, canon: seq<string>): (embs: seq<Vector>)
    ensures |embs| == |canon|
    ensures forall i :: 0 <= i < |canon| ==> embs[i] == UnitVec(t, sqrt, canon[i])
  {
    seq(|canon|, i requires 0 <= i < |canon| => UnitVec(t, sqrt, canon[i]))
  }

  method FindEntry(t: Text, sqrt: real -> real, name: string, canon: seq<string>, embs: seq<Vector>)
    returns (hit: Option<nat>, emb: Vector)
    requires IsSqrt(sqrt) && embs == UnitVecs(t, sqrt, canon)
    ensures hit == Best(NameMeasure(t).Candidates(name, canon))
    ensures emb == UnitVec(t, sqrt, name)
  {
    var v := ParityNameVec(sqrt, t.utf8(t.lower(name)));
    emb := v[..];
    var cands := ScoreEntries(t, sqrt, name, emb, canon, embs);
    hit := ScanWithBreak(cands);
    BestUnique(cands, hit, Best(cands));
  }

  /**
   * One round in terms of the entries: the name joins the entry of greatest
   * similarity among those it passes both thresholds against, ties to the
   * oldest, or opens an entry if there is none.
   */
  lemma RoundJoins(t: Text, c: Clusters, name: string, i: nat)
    requires i < |c.canon| && Similarity(t, name, c.canon[i]) >= 0.85
    requires Clears(LaneSums(t.utf8(t.lower(name))), LaneSums(t.utf8(t.lower(c.canon[i]))))
    ensures var c' := Assign(NameMeasure(t), c, name);
      && c'.canon == c.canon && name in c'.ids && c'.ids == c.ids[name := c'.ids[name]]
      && var k := c'.ids[name];
         && k < |c.canon| && Similarity(t, name, c.canon[k]) >= 0.85
         && Clears(LaneSums(t.utf8(t.lower(name))), LaneSums(t.utf8(t.lower(c.canon[k]))))
         && Similarity(t, name, c.canon[i]) <= Similarity(t, name, c.canon[k])
         && (Similarity(t, name, c.canon[i]) == Similarity(t, name, c.canon[k]) ==> k <= i)
  {
    AssignJoins(NameMeasure(t), c, name, i);
  }

  lemma RoundOpens(t: Text, c: Clusters, name: string)
    requires forall i :: 0 <= i < |c.canon| ==>
      Similarity(t, name, c.canon[i]) < 0.85
      || !Clears(LaneSums(t.utf8(t.lower(name))), LaneSums(t.utf8(t.lower(c.canon[i]))))
    ensures Assign(NameMeasure(t), c, name) == Clusters(c.canon + [name], c.ids[name := |c.canon|])
  {
    AssignOpens(NameMeasure(t), c, name);
  }

  /** One candidate: the trigram similarity, and whether the cosine of the stored vectors reaches its threshold. */
  method ScoreEntry(t: Text, sqrt: real -> real, name: string, emb: Vector, entry: string, entryEmb: Vector)
    returns (c: Scored)
    requires IsSqrt(sqrt) && emb == UnitVec(t, sqrt, name) && entryEmb == UnitVec(t, sqrt, entry)
    ensures c == NameMeasure(t).Candidate(name, entry)
  {
    var sim, _, _ := TrgmSim(t, name, entry);
    var cs := Cosine(emb, entryEmb, Norm(sqrt, emb), Norm(sqrt, entryEmb));
    ParityCosine(sqrt, t.utf8(t.lower(name)), t.utf8(t.lower(entry)));
    c := Scored(sim, cs >= COSINE_MERGE);
  }

  method ScoreEntries(t: Text, sqrt: real -> real, name: string, emb: Vector, canon: seq<string>, embs: seq<Vector>)
    returns (cands: seq<Scored>)
    requires IsSqrt(sqrt) && emb == UnitVec(t, sqrt, name) && embs == UnitVecs(t, sqrt, canon)
    ensures cands == NameMeasure(t).Candidates(name, canon)
  {
    cands := [];
    for i := 0 to |canon|
      invariant cands == NameMeasure(t).Candidates(name, canon[..i])
    {
      CandidatesAppended(NameMeasure(t), name, canon, i);
      var c := ScoreEntry(t, sqrt, name, emb, canon[i], embs[i]);
      cands := cands + [c];
    }
    assert canon[..|canon|] == canon;
  }

  lemma NameMeasureSymmetric(t: Text)
    ensures NameMeasure(t).Symmetric()
  {
    var m := NameMeasure(t);
    forall a, b | m.Merges(a, b) ensures m.Merges(b, a) {
      SimilaritySymmetric(t, a, b);
      ClearsSymmetric(NameVec(t, a), NameVec(t, b));
    }
  }

  lemma NameMeasureMetric(t: Text)
    ensures NameMeasure(t).Metric()
  {
    var m := NameMeasure(t);
    forall a, b, c
      ensures m.sim(a, a) == 1.0
      ensures m.sim(a, b) == m.sim(b, a)
      ensures m.sim(a, c) >= m.sim(a, b) + m.sim(b, c) - 1.0
    {
      SimilarityOne(t, a, a);
      SimilaritySymmetric(t, a, b);
      SimilarityChains(t, a, b, c);
    }
  }

  /** A name passes both thresholds against itself unless its vector is zero. */
  lemma MergesItself(t: Text, a: string)
    ensures NameMeasure(t).Merges(a, a) <==> !Zero(NameVec(t, a))
  {
    SimilarityOne(t, a, a);
    ClearsItself(NameVec(t, a));
  }

  /** Any two names with the same canonical id have trigram similarity at least 0.70. */
  lemma GroupedNamesStayClose(t: Text, names: seq<string>, x: string, y: string)
    requires x in names && y in names
    ensures var ids := ResolveAll(NameMeasure(t), names).ids;
      x in ids && y in ids && (ids[x] == ids[y] ==> Similarity(t, x, y) >= 0.70)
  {
    NameMeasureSymmetric(t);
    NameMeasureMetric(t);
    GroupedAreClose(NameMeasure(t), names, x, y);
  }

  /** At every loop step the canonical entries are independent and cover the names seen. */
  lemma CanonicalEntriesIndependent(t: Text, names: seq<string>, n: nat)
    requires n <= |names|
    ensures Invariant(NameMeasure(t), ResolveAll(NameMeasure(t), names[..n]))
  {
    NameMeasureSymmetric(t);
    ClusteringInvariant(NameMeasure(t), names[..n]);
  }

  /** An entry keeps its own index exactly when its vector is not zero or no later entry repeats its name. */
  lemma CanonicalEntryIsFixed(t: Text, names: seq<string>, i: nat)
    requires i < |ResolveAll(NameMeasure(t), names).canon|
    ensures var c := ResolveAll(NameMeasure(t), names);
      && c.canon[i] in c.ids
      && (c.ids[c.canon[i]] == i <==>
          !Zero(NameVec(t, c.canon[i])) || LastOccurrence(c.canon, i))
  {
    NameMeasureSymmetric(t);
    CanonicalFixedExactly(NameMeasure(t), names, i);
    MergesItself(t, ResolveAll(NameMeasure(t), names).canon[i]);
  }

  /** A name with a zero vector passes the cosine threshold against no name. */
  lemma ZeroNamesAreLoners(t: Text, x: string)
    requires Zero(NameVec(t, x))
    ensures Loner(NameMeasure(t), x)
  {
    NormSqZero(NameVec(t, x));
  }

  /**
   * A canonical name keeps its own index exactly when its vector is not zero
   * or it occurs once in the input.
   */
  lemma CanonicalNamesAreFixed(t: Text, names: seq<string>, x: string)
    requires x in ResolveAll(NameMeasure(t), names).canon
    ensures KeepsIndex(ResolveAll(NameMeasure(t), names), x) <==> !Zero(NameVec(t, x)) || multiset(names)[x] == 1
  {
    var m := NameMeasure(t);
    NameMeasureSymmetric(t);
    KeepsIndexExactly(m, names, x);
    MergesItself(t, x);
    if Zero(NameVec(t, x)) {
      ZeroNamesAreLoners(t, x);
      LonerEntries(m, names, x);
    }
  }

  /** A name with a zero vector never joins an entry: every occurrence opens a new one. */
  lemma ZeroNamesOpenEntries(t: Text, c: Clusters, name: string)
    requires Zero(NameVec(t, name))
    ensures Assign(NameMeasure(t), c, name).canon == c.canon + [name]
  {
    ZeroNamesAreLoners(t, name);
    LonerOpens(NameMeasure(t), c, name);
  }

  /** The empty name, given twice, loses the first of its two canonical entries. */
  lemma EmptyNameMoves(t: Text)
    requires t.lower("") == "" && t.utf8("") == []
    ensures var c := ResolveAll(NameMeasure(t), ["", ""]); c.canon == ["", ""] && c.ids[""] == 1
  {
    var m := NameMeasure(t);
    ZeroNames([]);
    var c1 := ResolveAll(m, [""]);
    assert [""][..0] == [] && ["", ""][..1] == [""];
    ZeroNamesOpenEntries(t, ResolveAll(m, []), "");
    ZeroNamesOpenEntries(t, c1, "");
    var c2 := ResolveAll(m, ["", ""]);
    assert c2 == Assign(m, c1, "");
    assert c2.canon == ["", ""];
    CanonicalEntryIsFixed(t, ["", ""], 1);
  }
}
