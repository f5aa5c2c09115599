/** Reciprocal rank fusion: weighted reciprocal ranks summed per chunk, best first. */
module Fusion {
  import opened StableSort

  const RRF_K := 60.0

  datatype LaneHit = LaneHit(id: int, lane: string, rk: int)

  datatype RrfWeights = RrfWeights(vec: real, bm25: real, graph: real) {
    /** Unknown lanes weigh nothing. */
    function WeightFor(lane: string): real {
      if lane == "vec" then vec
      else if lane == "bm25" then bm25
      else if lane == "graph" then graph
      else 0.0
    }
  }

  datatype ScoredChunk = ScoredChunk(id: int, score: real)

  /** Ranks start at 1; the reciprocal only needs a rank other than -60. */
  predicate Rankable(h: LaneHit) {
    RRF_K + h.rk as real != 0.0
  }

  function Contribution(h: LaneHit, weights: RrfWeights): real
    requires Rankable(h)
  {
    weights.WeightFor(h.lane) / (RRF_K + h.rk as real)
  }

  predicate AllRankable(hits: seq<LaneHit>) {
    forall i :: 0 <= i < |hits| ==> Rankable(hits[i])
  }

  /** The sum of a chunk's contributions. */
  function ScoreOf(hits: seq<LaneHit>, weights: RrfWeights, id: int): real
    requires AllRankable(hits)
  {
    if hits == [] then 0.0
    else
      var n := |hits| - 1;
      ScoreOf(hits[..n], weights, id) + (if hits[n].id == id then Contribution(hits[n], weights) else 0.0)
  }

  /** A further hit adds its lane's weight over 60 plus its rank to its chunk's score, and nothing if its lane is unknown. */
  lemma OneHitMore(hits: seq<LaneHit>, h: LaneHit, weights: RrfWeights, id: int)
    requires AllRankable(hits) && 60 + h.rk != 0
    ensures AllRankable(hits + [h])
    ensures ScoreOf(hits + [h], weights, id) == ScoreOf(hits, weights, id) +
      (if h.id != id then 0.0
       else if h.lane == "vec" then weights.vec / (60 + h.rk) as real
       else if h.lane == "bm25" then weights.bm25 / (60 + h.rk) as real
       else if h.lane == "graph" then weights.graph / (60 + h.rk) as real
       else 0.0)
  {
    assert (hits + [h])[..|hits|] == hits;
  }

  function TotalOf(hits: seq<LaneHit>, weights: RrfWeights): real
    requires AllRankable(hits)
  {
    if hits == [] then 0.0
    else
      var n := |hits| - 1;
      TotalOf(hits[..n], weights) + Contribution(hits[n], weights)
  }

  predicate Hit(hits: seq<LaneHit>, id: int) {
    exists i :: 0 <= i < |hits| && hits[i].id == id
  }

  /** Every hit chunk once, with its score, in non-increasing order of score. */
  ghost predicate IsFused(hits: seq<LaneHit>, weights: RrfWeights, scored: seq<ScoredChunk>)
    requires AllRankable(hits)
  {
    && (forall i :: 0 <= i < |scored| ==>
          Hit(hits, scored[i].id) && scored[i].score == ScoreOf(hits, weights, scored[i].id))
    && (forall id :: Hit(hits, id) ==> exists i :: 0 <= i < |scored| && scored[i].id == id)
    && (forall i, j :: 0 <= i < j < |scored| ==> scored[i].id != scored[j].id && scored[i].score >= scored[j].score)
  }

  lemma {:induction false} NotHit(hits: seq<LaneHit>, weights: RrfWeights, id: int)
    requires AllRankable(hits) && !Hit(hits, id)
    ensures ScoreOf(hits, weights, id) == 0.0
    decreases |hits|
  {
    if hits != [] {
      var n := |hits| - 1;
      assert hits[n].id != id;
      assert forall i :: 0 <= i < n ==> hits[..n][i] == hits[i];
      NotHit(hits[..n], weights, id);
    }
  }

  lemma HitOfAppended(hits: seq<LaneHit>, h: LaneHit, id: int)
    ensures Hit(hits + [h], id) <==> Hit(hits, id) || id == h.id
  {
    var all := hits + [h];
    assert all[|hits|] == h;
    if i :| 0 <= i < |hits| && hits[i].id == id {
      assert all[i].id == id;
    }
  }

  /** What one more hit does to the hit chunks and their sums. */
  lemma HitAppended(hits: seq<LaneHit>, h: LaneHit, weights: RrfWeights, id: int)
    requires AllRankable(hits) && Rankable(h)
    ensures AllRankable(hits + [h]) && (Hit(hits + [h], id) <==> Hit(hits, id) || id == h.id)
    ensures ScoreOf(hits + [h], weights, id) ==
      (if Hit(hits, id) then ScoreOf(hits, weights, id) else 0.0)
      + (if id == h.id then Contribution(h, weights) else 0.0)
  {
    HitOfAppended(hits, h, id);
    ScoreAppended(hits, h, weights, id);
    if !Hit(hits, id) {
      NotHit(hits, weights, id);
    }
  }

  /** The per-chunk sums, one hit at a time. */
  method Accumulate(hits: seq<LaneHit>, weights: RrfWeights) returns (acc: map<int, real>)
    requires AllRankable(hits)
    ensures forall id :: id in acc <==> Hit(hits, id)
    ensures forall id :: id in acc ==> acc[id] == ScoreOf(hits, weights, id)
  {
    acc := map[];
    for k := 0 to |hits|
      invariant forall id :: id in acc <==> Hit(hits[..k], id)
      invariant forall id :: id in acc ==> acc[id] == ScoreOf(hits[..k], weights, id)
    {
      var h := hits[k];
      var contribution := weights.WeightFor(h.lane) / (RRF_K + h.rk as real);
      assert hits[..k + 1] == hits[..k] + [h];
      forall id {
        HitAppended(hits[..k], h, weights, id);
      }
      acc := acc[h.id := (if h.id in acc then acc[h.id] else 0.0) + contribution];
    }
    assert hits[..|hits|] == hits;
  }

  /** Lists the entries of the hash map in whatever order it yields them. */
  method Entries(acc: map<int, real>) returns (entries: seq<ScoredChunk>)
    ensures forall i :: 0 <= i < |entries| ==> entries[i].id in acc && entries[i].score == acc[entries[i].id]
    ensures forall id :: id in acc ==> ScoredChunk(id, acc[id]) in entries
    ensures forall i, j :: 0 <= i < j < |entries| ==> entries[i].id != entries[j].id
  {
    entries := [];
    var all := set id | id in acc :: ScoredChunk(id, acc[id]);
    var left := all;
    while left != {}
      invariant left <= all
      invariant forall c :: c in entries ==> c in all && c !in left
      invariant forall c :: c in all && c !in left ==> c in entries
      invariant forall i, j :: 0 <= i < j < |entries| ==> entries[i] != entries[j]
      decreases |left|
    {
      var c :| c in left;
      entries := entries + [c];
      left := left - {c};
    }
    forall i | 0 <= i < |entries| ensures entries[i].id in acc && entries[i].score == acc[entries[i].id] {
      assert entries[i] in all;
    }
    forall id | id in acc ensures ScoredChunk(id, acc[id]) in entries {
      assert ScoredChunk(id, acc[id]) in all;
    }
  }

  function ScoreKeys(entries: seq<ScoredChunk>): (keys: seq<real>)
    ensures |keys| == |entries| && forall i :: 0 <= i < |keys| ==> keys[i] == entries[i].score
  {
    seq(|entries|, i requires 0 <= i < |entries| => entries[i].score)
  }

  /** The entries in the order of a stable descending sort on their scores. */
  function Sorted(entries: seq<ScoredChunk>): (scored: seq<ScoredChunk>)
    ensures |scored| == |entries|
  {
    var order := Order(ScoreKeys(entries));
    seq(|order|, i requires 0 <= i < |order| => entries[order[i]])
  }

  lemma SortedFalls(entries: seq<ScoredChunk>, i: nat, j: nat)
    requires i < j < |entries|
    requires forall a, b :: 0 <= a < b < |entries| ==> entries[a].id != entries[b].id
    ensures Sorted(entries)[i].id != Sorted(entries)[j].id && Sorted(entries)[i].score >= Sorted(entries)[j].score
  {
    var order := Order(ScoreKeys(entries));
    assert Before(ScoreKeys(entries), order[i], order[j]);
  }

  lemma SortedHas(entries: seq<ScoredChunk>, c: ScoredChunk)
    ensures c in Sorted(entries) <==> c in entries
  {
    var order := Order(ScoreKeys(entries));
    if c in entries {
      var k :| 0 <= k < |entries| && entries[k] == c;
      assert k in order;
      var i :| 0 <= i < |order| && order[i] == k;
      assert Sorted(entries)[i] == c;
    }
  }

  method Fuse(hits: seq<LaneHit>, weights: RrfWeights) returns (scored: seq<ScoredChunk>)
    requires AllRankable(hits)
    ensures IsFused(hits, weights, scored)
  {
    var acc := Accumulate(hits, weights);
    var entries := Entries(acc);
    scored := Sorted(entries);
    forall i | 0 <= i < |scored|
      ensures Hit(hits, scored[i].id) && scored[i].score == ScoreOf(hits, weights, scored[i].id)
    {
      assert scored[i] in scored;
      SortedHas(entries, scored[i]);
    }
    forall id | Hit(hits, id) ensures exists i :: 0 <= i < |scored| && scored[i].id == id {
      var c := ScoredChunk(id, acc[id]);
      SortedHas(entries, c);
      var i :| 0 <= i < |scored| && scored[i] == c;
    }
    forall i, j | 0 <= i < j < |scored| ensures scored[i].id != scored[j].id && scored[i].score >= scored[j].score {
      SortedFalls(entries, i, j);
    }
  }

  lemma {:induction false} ScoreConcat(a: seq<LaneHit>, b: seq<LaneHit>, weights: RrfWeights, id: int)
    requires AllRankable(a) && AllRankable(b)
    ensures AllRankable(a + b) && ScoreOf(a + b, weights, id) == ScoreOf(a, weights, id) + ScoreOf(b, weights, id)
    decreases |b|
  {
    if b == [] {
      assert a + b == a;
    } else {
      var n := |b| - 1;
      ScoreConcat(a, b[..n], weights, id);
      assert (a + b)[..|a| + n] == a + b[..n];
      assert (a + b)[|a| + n] == b[n];
    }
  }

  lemma ScoreAppended(hits: seq<LaneHit>, h: LaneHit, weights: RrfWeights, id: int)
    requires AllRankable(hits) && Rankable(h)
    ensures AllRankable(hits + [h])
    ensures ScoreOf(hits + [h], weights, id)
      == ScoreOf(hits, weights, id) + (if h.id == id then Contribution(h, weights) else 0.0)
  {
    assert (hits + [h])[..|hits|] == hits;
  }

  /** Taking a hit out takes exactly its contribution away. */
  lemma ScoreWithout(hits: seq<LaneHit>, weights: RrfWeights, id: int, k: nat)
    requires AllRankable(hits) && k < |hits|
    ensures AllRankable(hits[..k] + hits[k + 1..])
    ensures ScoreOf(hits, weights, id)
      == ScoreOf(hits[..k] + hits[k + 1..], weights, id) + (if hits[k].id == id then Contribution(hits[k], weights) else 0.0)
  {
    var front, back := hits[..k], hits[k + 1..];
    ScoreConcat(front, back, weights, id);
    assert hits[..k + 1][..k] == front;
    ScoreConcat(hits[..k + 1], back, weights, id);
    assert hits == hits[..k + 1] + back;
  }

  lemma WithoutOne<T>(s: seq<T>, k: nat)
    requires k < |s|
    ensures multiset(s[..k] + s[k + 1..]) == multiset(s) - multiset{s[k]}
  {
    assert s == s[..k] + ([s[k]] + s[k + 1..]);
  }

  lemma LastRemoved(hits: seq<LaneHit>, other: seq<LaneHit>, k: nat)
    requires hits != [] && multiset(hits) == multiset(other) && k < |other| && other[k] == hits[|hits| - 1]
    ensures multiset(hits[..|hits| - 1]) == multiset(other[..k] + other[k + 1..])
  {
    var n := |hits| - 1;
    WithoutOne(hits, n);
    assert hits[..n] + hits[n + 1..] == hits[..n];
    WithoutOne(other, k);
  }

  /** The order of the hits does not matter to any score. */
  lemma {:induction false} ScoreOrderIndependent(hits: seq<LaneHit>, other: seq<LaneHit>, weights: RrfWeights, id: int)
    requires AllRankable(hits) && AllRankable(other) && multiset(hits) == multiset(other)
    ensures ScoreOf(hits, weights, id) == ScoreOf(other, weights, id)
    decreases |hits|
  {
    assert |hits| == |multiset(hits)| && |other| == |multiset(other)|;
    if hits != [] {
      var n := |hits| - 1;
      assert hits[n] in multiset(other);
      var k :| 0 <= k < |other| && other[k] == hits[n];
      ScoreWithout(other, weights, id, k);
      LastRemoved(hits, other, k);
      ScoreOrderIndependent(hits[..n], other[..k] + other[k + 1..], weights, id);
    } else {
      assert other == [];
    }
  }

  /** Fusing a permutation of the hits gives the same scored chunks. */
  lemma FusedOrderIndependent(hits: seq<LaneHit>, other: seq<LaneHit>, weights: RrfWeights,
                              a: seq<ScoredChunk>, b: seq<ScoredChunk>)
    requires AllRankable(hits) && AllRankable(other) && multiset(hits) == multiset(other)
    requires IsFused(hits, weights, a) && IsFused(other, weights, b)
    ensures forall c :: c in a ==> c in b
  {
    forall c | c in a ensures c in b {
      var i :| 0 <= i < |hits| && hits[i].id == c.id;
      assert hits[i] in multiset(other);
      var k :| 0 <= k < |other| && other[k] == hits[i];
      assert Hit(other, c.id);
      ScoreOrderIndependent(hits, other, weights, c.id);
    }
  }

  function SumScores(scored: seq<ScoredChunk>): real {
    if scored == [] then 0.0 else SumScores(scored[..|scored| - 1]) + scored[|scored| - 1].score
  }

  /** The scores that `hits` alone give the chunks of `scored`. */
  function SumOver(hits: seq<LaneHit>, weights: RrfWeights, scored: seq<ScoredChunk>): real
    requires AllRankable(hits)
  {
    if scored == [] then 0.0
    else
      var n := |scored| - 1;
      SumOver(hits, weights, scored[..n]) + ScoreOf(hits, weights, scored[n].id)
  }

  ghost predicate DistinctIds(scored: seq<ScoredChunk>) {
    forall i, j :: 0 <= i < j < |scored| ==> scored[i].id != scored[j].id
  }

  predicate Scores(scored: seq<ScoredChunk>, id: int) {
    exists i :: 0 <= i < |scored| && scored[i].id == id
  }

  /** A hit adds its contribution to one chunk. */
  lemma {:induction false} HitAddsOnce(hits: seq<LaneHit>, weights: RrfWeights, scored: seq<ScoredChunk>)
    requires AllRankable(hits) && hits != [] && DistinctIds(scored)
    ensures var n := |hits| - 1;
      SumOver(hits, weights, scored) == SumOver(hits[..n], weights, scored)
        + (if Scores(scored, hits[n].id) then Contribution(hits[n], weights) else 0.0)
    decreases |scored|
  {
    if scored != [] {
      var n, k := |hits| - 1, |scored| - 1;
      HitAddsOnce(hits, weights, scored[..k]);
      assert Scores(scored, hits[n].id) <==> Scores(scored[..k], hits[n].id) || scored[k].id == hits[n].id by {
        assert forall i :: 0 <= i < k ==> scored[..k][i] == scored[i];
      }
      assert !(Scores(scored[..k], hits[n].id) && scored[k].id == hits[n].id);
    }
  }

  lemma {:induction false} SumIsTotal(hits: seq<LaneHit>, weights: RrfWeights, scored: seq<ScoredChunk>)
    requires AllRankable(hits) && DistinctIds(scored)
    requires forall i :: 0 <= i < |hits| ==> Scores(scored, hits[i].id)
    ensures SumOver(hits, weights, scored) == TotalOf(hits, weights)
    decreases |hits|
  {
    if hits == [] {
      SumOfNothing(weights, scored);
    } else {
      HitAddsOnce(hits, weights, scored);
      SumIsTotal(hits[..|hits| - 1], weights, scored);
    }
  }

  lemma {:induction false} SumOfNothing(weights: RrfWeights, scored: seq<ScoredChunk>)
    ensures SumOver([], weights, scored) == 0.0
    decreases |scored|
  {
    if scored != [] {
      SumOfNothing(weights, scored[..|scored| - 1]);
    }
  }

  lemma {:induction false} SumOfScores(hits: seq<LaneHit>, weights: RrfWeights, scored: seq<ScoredChunk>)
    requires AllRankable(hits)
    requires forall i :: 0 <= i < |scored| ==> scored[i].score == ScoreOf(hits, weights, scored[i].id)
    ensures SumScores(scored) == SumOver(hits, weights, scored)
    decreases |scored|
  {
    if scored != [] {
      SumOfScores(hits, weights, scored[..|scored| - 1]);
    }
  }

  /** The total score is the total of the contributions: fusion neither loses nor duplicates any. */
  lemma TotalConserved(hits: seq<LaneHit>, weights: RrfWeights, scored: seq<ScoredChunk>)
    requires AllRankable(hits) && IsFused(hits, weights, scored)
    ensures SumScores(scored) == TotalOf(hits, weights)
  {
    SumOfScores(hits, weights, scored);
    forall i | 0 <= i < |hits| ensures Scores(scored, hits[i].id) {
      assert Hit(hits, hits[i].id);
    }
    SumIsTotal(hits, weights, scored);
  }
}
