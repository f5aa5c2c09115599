/**
 * Agreement beats rank: when a chunk that two lanes find outranks every chunk
 * that one lane finds, whatever the lanes weigh.
 */
module Agreement {
  import opened RealOrder
  import opened Fusion

  predicate KnownLane(lane: string) {
    lane == "vec" || lane == "bm25" || lane == "graph"
  }

  /** Each lane lists a chunk at most once, at a rank from 1 to `depth`. */
  ghost predicate WithinDepth(hits: seq<LaneHit>, depth: int) {
    && (forall i :: 0 <= i < |hits| ==> KnownLane(hits[i].lane) && 1 <= hits[i].rk <= depth)
    && (forall i, j :: 0 <= i < j < |hits| && hits[i].id == hits[j].id ==> hits[i].lane != hits[j].lane)
  }

  predicate FoundTwice(hits: seq<LaneHit>, id: int) {
    exists i, j :: 0 <= i < j < |hits| && hits[i].id == id && hits[j].id == id
  }

  lemma WithinDepthRankable(hits: seq<LaneHit>, depth: int)
    requires WithinDepth(hits, depth)
    ensures AllRankable(hits)
  {
  }

  function Equal(w: real): RrfWeights {
    RrfWeights(w, w, w)
  }

  predicate NonNegative(w: RrfWeights) {
    w.vec >= 0.0 && w.bm25 >= 0.0 && w.graph >= 0.0
  }

  /** The lane of greatest weight. */
  function HeavyLane(w: RrfWeights): (lane: string)
    ensures KnownLane(lane) && forall l :: KnownLane(l) ==> w.WeightFor(l) <= w.WeightFor(lane)
  {
    if w.vec >= w.bm25 && w.vec >= w.graph then "vec" else if w.bm25 >= w.graph then "bm25" else "graph"
  }

  function Heaviest(w: RrfWeights): real {
    w.WeightFor(HeavyLane(w))
  }

  /** The two lightest lanes together. */
  function LightestTwo(w: RrfWeights): real {
    w.vec + w.bm25 + w.graph - Heaviest(w)
  }

  /** The two lightest lanes at rank `depth` outweigh the heaviest at rank 1. */
  predicate Outweighs(w: RrfWeights, depth: int) {
    61.0 * LightestTwo(w) > (RRF_K + depth as real) * Heaviest(w)
  }

  lemma OutweighsExactly(w: RrfWeights, depth: int)
    requires RRF_K + depth as real > 0.0
    ensures LightestTwo(w) / (RRF_K + depth as real) > Heaviest(w) / 61.0 <==> Outweighs(w, depth)
  {
    CrossMultiplied(LightestTwo(w), RRF_K + depth as real, Heaviest(w), 61.0);
  }

  lemma TwoLanesWeigh(w: RrfWeights, k: string, l: string)
    requires KnownLane(k) && KnownLane(l) && k != l
    ensures w.WeightFor(k) + w.WeightFor(l) >= LightestTwo(w)
    ensures k != HeavyLane(w) && l != HeavyLane(w) ==> w.WeightFor(k) + w.WeightFor(l) == LightestTwo(w)
  {
  }

  /** A lane of weight w contributes from w/(60 + depth) to w/61. */
  lemma ContributionBounds(h: LaneHit, w: RrfWeights, depth: int)
    requires KnownLane(h.lane) && 1 <= h.rk <= depth && NonNegative(w)
    ensures Rankable(h)
    ensures 0.0 <= w.WeightFor(h.lane) / (RRF_K + depth as real) <= Contribution(h, w) <= Heaviest(w) / 61.0
  {
    var k := w.WeightFor(h.lane);
    Shares(k, RRF_K + h.rk as real, RRF_K + depth as real);
    Shares(k, 61.0, RRF_K + h.rk as real);
    QuotientSum(k, Heaviest(w), 61.0);
  }

  /** Two hits contribute both. */
  lemma {:induction false} ScoreOfTwo(hits: seq<LaneHit>, w: RrfWeights, depth: int, id: int, i: nat, j: nat)
    requires WithinDepth(hits, depth) && AllRankable(hits) && NonNegative(w)
    requires i < j < |hits| && hits[i].id == id && hits[j].id == id
    ensures ScoreOf(hits, w, id) >= Contribution(hits[i], w) + Contribution(hits[j], w)
    decreases |hits|
  {
    var n := |hits| - 1;
    if j == n {
      ScoreOfOne(hits[..n], w, depth, id, i);
    } else {
      ScoreOfTwo(hits[..n], w, depth, id, i, j);
      ContributionBounds(hits[n], w, depth);
    }
  }

  lemma {:induction false} ScoreOfOne(hits: seq<LaneHit>, w: RrfWeights, depth: int, id: int, i: nat)
    requires WithinDepth(hits, depth) && AllRankable(hits) && NonNegative(w)
    requires i < |hits| && hits[i].id == id
    ensures ScoreOf(hits, w, id) >= Contribution(hits[i], w)
    decreases |hits|
  {
    var n := |hits| - 1;
    if i == n {
      ScoreOfSome(hits[..n], w, depth, id);
    } else {
      ScoreOfOne(hits[..n], w, depth, id, i);
      ContributionBounds(hits[n], w, depth);
    }
  }

  lemma {:induction false} ScoreOfSome(hits: seq<LaneHit>, w: RrfWeights, depth: int, id: int)
    requires WithinDepth(hits, depth) && AllRankable(hits) && NonNegative(w)
    ensures ScoreOf(hits, w, id) >= 0.0
    decreases |hits|
  {
    if hits != [] {
      var n := |hits| - 1;
      ScoreOfSome(hits[..n], w, depth, id);
      ContributionBounds(hits[n], w, depth);
    }
  }

  lemma FoundTwiceLast(hits: seq<LaneHit>, id: int)
    requires hits != []
    ensures var n := |hits| - 1;
      FoundTwice(hits, id) <==> FoundTwice(hits[..n], id) || (hits[n].id == id && Hit(hits[..n], id))
  {
    var n := |hits| - 1;
    var front := hits[..n];
    if i, j :| 0 <= i < j < n && front[i].id == id && front[j].id == id {
      assert hits[i].id == id && hits[j].id == id;
    }
    if i :| hits[n].id == id && 0 <= i < n && front[i].id == id {
      assert hits[i].id == id;
    }
    if i, j :| 0 <= i < j < |hits| && hits[i].id == id && hits[j].id == id {
      assert front[i].id == id;
      assert j < n ==> front[j].id == id;
    }
  }

  lemma ScoreOfFirst(hits: seq<LaneHit>, w: RrfWeights, depth: int, id: int)
    requires WithinDepth(hits, depth) && AllRankable(hits) && NonNegative(w)
    requires hits != [] && hits[|hits| - 1].id == id && !Hit(hits[..|hits| - 1], id)
    ensures ScoreOf(hits, w, id) <= Heaviest(w) / 61.0
  {
    NotHit(hits[..|hits| - 1], w, id);
    ContributionBounds(hits[|hits| - 1], w, depth);
  }

  /** A chunk found once scores at most the heaviest lane's rank 1. */
  lemma {:induction false} ScoreOfSingle(hits: seq<LaneHit>, w: RrfWeights, depth: int, id: int)
    requires WithinDepth(hits, depth) && AllRankable(hits) && NonNegative(w) && !FoundTwice(hits, id)
    ensures ScoreOf(hits, w, id) <= Heaviest(w) / 61.0
    decreases |hits|
  {
    if hits == [] {
      Shares(Heaviest(w), 61.0, 61.0);
    } else {
      var n := |hits| - 1;
      FoundTwiceLast(hits, id);
      if hits[n].id == id {
        ScoreOfFirst(hits, w, depth, id);
      } else {
        ScoreOfSingle(hits[..n], w, depth, id);
      }
    }
  }

  lemma PairWeighs(w: RrfWeights, k: string, l: string, u: real)
    requires KnownLane(k) && KnownLane(l) && k != l && u > 0.0
    ensures w.WeightFor(k) / u + w.WeightFor(l) / u >= LightestTwo(w) / u
  {
    TwoLanesWeigh(w, k, l);
    QuotientSum(w.WeightFor(k), w.WeightFor(l), u);
    QuotientSum(LightestTwo(w), w.WeightFor(k) + w.WeightFor(l), u);
  }

  lemma PairContributes(g: LaneHit, h: LaneHit, w: RrfWeights, depth: int)
    requires KnownLane(g.lane) && KnownLane(h.lane) && g.lane != h.lane && NonNegative(w)
    requires 1 <= g.rk <= depth && 1 <= h.rk <= depth
    ensures RRF_K + depth as real > 0.0 && Rankable(g) && Rankable(h)
    ensures Contribution(g, w) + Contribution(h, w) >= LightestTwo(w) / (RRF_K + depth as real)
  {
    ContributionBounds(g, w, depth);
    ContributionBounds(h, w, depth);
    PairWeighs(w, g.lane, h.lane, RRF_K + depth as real);
  }

  /** A chunk found twice scores at least the two lightest lanes at the last rank. */
  lemma ScoreOfPair(hits: seq<LaneHit>, w: RrfWeights, depth: int, id: int)
    requires WithinDepth(hits, depth) && AllRankable(hits) && NonNegative(w) && FoundTwice(hits, id)
    ensures RRF_K + depth as real > 0.0
    ensures ScoreOf(hits, w, id) >= LightestTwo(w) / (RRF_K + depth as real)
  {
    var i, j :| 0 <= i < j < |hits| && hits[i].id == id && hits[j].id == id;
    ScoreOfTwo(hits, w, depth, id, i, j);
    PairContributes(hits[i], hits[j], w, depth);
  }

  /** A chunk that two lanes find scores higher than any chunk that only one lane finds. */
  lemma AgreementScoresHigher(hits: seq<LaneHit>, w: RrfWeights, depth: int, a: int, b: int)
    requires WithinDepth(hits, depth) && NonNegative(w) && Outweighs(w, depth)
    requires FoundTwice(hits, a) && !FoundTwice(hits, b)
    ensures AllRankable(hits) && ScoreOf(hits, w, a) > ScoreOf(hits, w, b)
  {
    WithinDepthRankable(hits, depth);
    ScoreOfPair(hits, w, depth, a);
    ScoreOfSingle(hits, w, depth, b);
    OutweighsExactly(w, depth);
  }

  /** In the fused list, every chunk found by two or more lanes precedes every chunk found by one. */
  lemma AgreementBeatsRank(hits: seq<LaneHit>, w: RrfWeights, depth: int, scored: seq<ScoredChunk>, p: nat, q: nat)
    requires WithinDepth(hits, depth) && NonNegative(w) && Outweighs(w, depth)
    requires AllRankable(hits) && IsFused(hits, w, scored) && p < |scored| && q < |scored|
    requires FoundTwice(hits, scored[p].id) && !FoundTwice(hits, scored[q].id)
    ensures p < q
  {
    AgreementScoresHigher(hits, w, depth, scored[p].id, scored[q].id);
  }

  /** Whatever lanes of this depth find, agreement beats rank. */
  ghost predicate AgreementWins(w: RrfWeights, depth: int) {
    forall hits, a, b :: WithinDepth(hits, depth) && FoundTwice(hits, a) && Hit(hits, b) && !FoundTwice(hits, b) ==>
      AllRankable(hits) && ScoreOf(hits, w, a) > ScoreOf(hits, w, b)
  }

  /** The other two lanes, in some order. */
  function LightLanes(w: RrfWeights): (pair: (string, string))
    ensures KnownLane(pair.0) && KnownLane(pair.1)
    ensures pair.0 != pair.1 && pair.0 != HeavyLane(w) && pair.1 != HeavyLane(w)
  {
    match HeavyLane(w)
    case "vec" => ("bm25", "graph")
    case "bm25" => ("vec", "graph")
    case _ => ("vec", "bm25")
  }

  /** Chunk 1 at rank `depth` of the two lightest lanes, chunk 2 at rank 1 of the heaviest. */
  function Rivals(w: RrfWeights, depth: int): seq<LaneHit> {
    [LaneHit(1, LightLanes(w).0, depth), LaneHit(1, LightLanes(w).1, depth), LaneHit(2, HeavyLane(w), 1)]
  }

  lemma RivalsCompete(w: RrfWeights, depth: int)
    requires depth >= 1
    ensures WithinDepth(Rivals(w, depth), depth)
    ensures FoundTwice(Rivals(w, depth), 1) && Hit(Rivals(w, depth), 2) && !FoundTwice(Rivals(w, depth), 2)
  {
    var hits := Rivals(w, depth);
    assert hits[0].id == 1 && hits[1].id == 1 && hits[2].id == 2;
  }

  lemma RivalScores(w: RrfWeights, depth: int)
    requires depth >= 1
    ensures AllRankable(Rivals(w, depth))
    ensures ScoreOf(Rivals(w, depth), w, 1) == LightestTwo(w) / (RRF_K + depth as real)
    ensures ScoreOf(Rivals(w, depth), w, 2) == Heaviest(w) / 61.0
  {
    var a, b, c := Rivals(w, depth)[0], Rivals(w, depth)[1], Rivals(w, depth)[2];
    assert [] + [a] == [a] && [a] + [b] == [a, b] && [a, b] + [c] == Rivals(w, depth);
    forall id ensures AllRankable([a]) && AllRankable([a, b]) && AllRankable([a, b] + [c])
      && ScoreOf([a, b] + [c], w, id) ==
           (if id == 1 then Contribution(a, w) + Contribution(b, w) else 0.0) + (if id == 2 then Contribution(c, w) else 0.0)
    {
      ScoreAppended([], a, w, id);
      ScoreAppended([a], b, w, id);
      ScoreAppended([a, b], c, w, id);
    }
    TwoLanesWeigh(w, LightLanes(w).0, LightLanes(w).1);
    QuotientSum(w.WeightFor(a.lane), w.WeightFor(b.lane), RRF_K + depth as real);
  }

  /**
   * Agreement wins at exactly the depths at which the two lightest lanes at
   * the last rank outweigh the heaviest lane at rank 1.
   */
  lemma AgreementDepth(w: RrfWeights, depth: int)
    requires NonNegative(w) && depth >= 1
    ensures AgreementWins(w, depth) <==> Outweighs(w, depth)
  {
    if Outweighs(w, depth) {
      forall hits, a, b | WithinDepth(hits, depth) && FoundTwice(hits, a) && Hit(hits, b) && !FoundTwice(hits, b)
        ensures AllRankable(hits) && ScoreOf(hits, w, a) > ScoreOf(hits, w, b)
      {
        AgreementScoresHigher(hits, w, depth, a, b);
      }
    } else {
      RivalsCompete(w, depth);
      RivalScores(w, depth);
      OutweighsExactly(w, depth);
    }
  }

  /** With equal weights, as by default, these are the depths up to 61; the lanes of the query stop at 50. */
  lemma EqualWeightsDepth(w: real, depth: int)
    requires w > 0.0
    ensures Outweighs(Equal(w), depth) <==> depth <= 61
  {
    var u := RRF_K + depth as real;
    Products(u, 122.0, w, u * w, 122.0 * w);
    Products(122.0, u, w, 122.0 * w, u * w);
  }

  /** Two hits at rank 62 only tie with one at rank 1. */
  lemma TieAtDepth62(w: real)
    ensures var hits := Rivals(Equal(w), 62);
      AllRankable(hits) && ScoreOf(hits, Equal(w), 1) == ScoreOf(hits, Equal(w), 2)
  {
    RivalScores(Equal(w), 62);
  }
}
