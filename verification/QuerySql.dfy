/**
 * The fused query as a relational expression: which lanes a mode switches on,
 * what the graph lane counts, and what a chunk scores.
 */
module QuerySql {
  import opened Prelude
  import opened FiniteSets
  import opened WorkingTable
  import opened RealOrder
  import opened Fusion
  import Agreement

  const LANE_LIMIT := 50

  datatype Mode = Hybrid | Vector | Bm25 | Graph {
    predicate UsesVector() {
      Hybrid? || Vector?
    }

    predicate UsesBm25() {
      Hybrid? || Bm25?
    }

    predicate UsesGraph() {
      Hybrid? || Graph?
    }
  }

  /** A row of `chunk_entities`; the pair is its primary key. */
  datatype Link = Link(chunkId: int, entityId: Vertex)

  datatype ChunkInfo = ChunkInfo(id: int, namespace: string, metadata: string)

  /** The binds of the statement; `contains` is the jsonb operator @>. */
  datatype Query = Query(namespace: string, filter: Option<string>, hops: int,
                         weights: RrfWeights, contains: (string, string) -> bool)
  {
    predicate Passes(c: ChunkInfo) {
      c.namespace == namespace && (filter.Some? ==> contains(c.metadata, filter.value))
    }
  }

  predicate Eligible(q: Query, chunks: seq<ChunkInfo>, chunkId: int) {
    exists c :: c in chunks && c.id == chunkId && q.Passes(c)
  }

  /** How many rows the join of links and walked rows has for a chunk. */
  function JoinCount(links: seq<Link>, walked: seq<Row>, chunkId: int): nat {
    if walked == [] then 0
    else
      var n := |walked| - 1;
      JoinCount(links, walked[..n], chunkId) + multiset(links)[Link(chunkId, walked[n].id)]
  }

  /** COUNT(*) of the chunk's group in the graph lane, 0 if it has no group. */
  function GraphCount(mode: Mode, q: Query, chunks: seq<ChunkInfo>, links: seq<Link>, walked: seq<Row>,
                      chunkId: int): nat
  {
    if mode.UsesGraph() && Eligible(q, chunks, chunkId) && q.hops >= 1
    then JoinCount(links, walked, chunkId)
    else 0
  }

  /** The walks whose row joins a link of the chunk. */
  ghost function Joined(links: seq<Link>, walked: seq<Row>, xs: seq<Walk>, chunkId: int): set<Walk>
    requires |walked| == |xs|
  {
    set k | 0 <= k < |xs| && Link(chunkId, walked[k].id) in links :: xs[k]
  }

  lemma JoinedAppended(links: seq<Link>, walked: seq<Row>, xs: seq<Walk>, chunkId: int)
    requires |walked| == |xs| && xs != [] && Distinct(xs)
    ensures var n := |xs| - 1;
      |Joined(links, walked, xs, chunkId)| == |Joined(links, walked[..n], xs[..n], chunkId)|
        + (if Link(chunkId, walked[n].id) in links then 1 else 0)
  {
    var n := |xs| - 1;
    var front := Joined(links, walked[..n], xs[..n], chunkId);
    assert xs[n] !in front;
    if Link(chunkId, walked[n].id) in links {
      assert Joined(links, walked, xs, chunkId) == front + {xs[n]};
    } else {
      assert Joined(links, walked, xs, chunkId) == front;
    }
  }

  /** The join has one row for each walk that ends at an entity of the chunk. */
  lemma {:induction false} JoinCountsWalks(links: seq<Link>, walked: seq<Row>, xs: seq<Walk>, chunkId: int)
    requires |walked| == |xs| && Distinct(xs) && Distinct(links)
    ensures JoinCount(links, walked, chunkId) == |Joined(links, walked, xs, chunkId)|
    decreases |xs|
  {
    if xs == [] {
      assert Joined(links, walked, xs, chunkId) == {};
    } else {
      var n := |xs| - 1;
      JoinCountsWalks(links, walked[..n], xs[..n], chunkId);
      JoinedAppended(links, walked, xs, chunkId);
      LinkOnce(links, Link(chunkId, walked[n].id));
    }
  }

  lemma {:induction false} LinkOnce(links: seq<Link>, l: Link)
    requires Distinct(links)
    ensures multiset(links)[l] == if l in links then 1 else 0
  {
    if links != [] {
      var n := |links| - 1;
      LinkOnce(links[..n], l);
      assert links == links[..n] + [links[n]];
    }
  }

  /**
   * The graph lane counts, for a chunk that passes the filter, the walks of at
   * most `hops` relationships from a seed to one of the chunk's entities; it is
   * empty if the mode has no graph lane or hops is below 1.
   */
  lemma GraphCountIsWalks(mode: Mode, q: Query, chunks: seq<ChunkInfo>, links: seq<Link>,
                          rels: seq<Edge>, seeds: seq<Vertex>, walked: seq<Row>, xs: seq<Walk>,
                          chunkId: int, into: set<Walk>)
    requires EachWalkOnce(OrJoin(rels), seeds, q.hops, walked, xs) && Distinct(links)
    requires forall x :: x in into <==>
      IsWalk(OrJoin(rels), seeds, x) && |x.via| <= Max(q.hops, 0)
      && Link(chunkId, End(OrJoin(rels), Start(seeds, x), x.via)) in links
    ensures GraphCount(mode, q, chunks, links, walked, chunkId) ==
      if && (mode == Hybrid || mode == Graph) && q.hops >= 1
         && exists c :: c in chunks && c.id == chunkId && c.namespace == q.namespace
                        && (q.filter.Some? ==> q.contains(c.metadata, q.filter.value))
      then |into| else 0
  {
    JoinCountsWalks(links, walked, xs, chunkId);
    forall x ensures x in into <==> x in Joined(links, walked, xs, chunkId) {
      if x in into {
        var k :| 0 <= k < |xs| && xs[k] == x;
      }
    }
    assert into == Joined(links, walked, xs, chunkId);
  }

  /** A lane entry: a chunk and its ROW_NUMBER. */
  datatype LaneEntry = LaneEntry(id: int, rk: int)

  predicate ValidRanks(lane: seq<LaneEntry>) {
    |lane| <= LANE_LIMIT && forall e :: e in lane ==> e.rk >= 1
  }

  /** A lane under its mode gate. */
  function Gated(on: bool, lane: seq<LaneEntry>): seq<LaneEntry> {
    if on then lane else []
  }

  /**
   * The graph lane: ranks number the groups by falling count. The statement
   * keeps 50 of them without an ORDER BY, so which ones is left open.
   */
  ghost predicate IsGraphLane(count: int -> nat, lane: seq<LaneEntry>) {
    && ValidRanks(lane)
    && (forall e :: e in lane ==> count(e.id) > 0)
    && (forall i, j :: 0 <= i < j < |lane| ==> lane[i].id != lane[j].id && lane[i].rk != lane[j].rk)
    && (forall a, b :: a in lane && b in lane && count(a.id) > count(b.id) ==> a.rk < b.rk)
  }

  function HitsOf(lane: seq<LaneEntry>, name: string): (hits: seq<LaneHit>)
    ensures |hits| == |lane|
    ensures forall i :: 0 <= i < |lane| ==> hits[i] == LaneHit(lane[i].id, name, lane[i].rk)
  {
    if lane == [] then []
    else
      var n := |lane| - 1;
      HitsOf(lane[..n], name) + [LaneHit(lane[n].id, name, lane[n].rk)]
  }

  /** The three lanes under UNION ALL. */
  function UnionAll(vec: seq<LaneEntry>, bm: seq<LaneEntry>, graph: seq<LaneEntry>): seq<LaneHit> {
    HitsOf(vec, "vec") + HitsOf(bm, "bm25") + HitsOf(graph, "graph")
  }

  /** The lanes that the mode's gates let through. */
  function LanesOf(mode: Mode, vec: seq<LaneEntry>, bm: seq<LaneEntry>, graph: seq<LaneEntry>): seq<LaneHit> {
    UnionAll(Gated(mode.UsesVector(), vec), Gated(mode.UsesBm25(), bm), Gated(mode.UsesGraph(), graph))
  }

  /** SUM of a term over a lane's rows for one chunk. */
  function SumTerms(lane: seq<LaneEntry>, term: LaneEntry -> real, id: int): real {
    if lane == [] then 0.0
    else
      var n := |lane| - 1;
      SumTerms(lane[..n], term, id) + (if lane[n].id == id then term(lane[n]) else 0.0)
  }

  /** The term w * (1.0 / (60 + rk)). */
  function SqlTerm(w: real): LaneEntry -> real {
    (r: LaneEntry) => if 60 + r.rk == 0 then 0.0 else w * (1.0 / (60 + r.rk) as real)
  }

  function LaneSum(lane: seq<LaneEntry>, w: real, id: int): real {
    SumTerms(lane, SqlTerm(w), id)
  }

  function SqlScore(q: Query, vec: seq<LaneEntry>, bm: seq<LaneEntry>, graph: seq<LaneEntry>, id: int): real {
    LaneSum(vec, q.weights.vec, id) + LaneSum(bm, q.weights.bm25, id) + LaneSum(graph, q.weights.graph, id)
  }

  /** The term of a row is the contribution of its hit. */
  ghost predicate TermFits(r: LaneEntry, name: string, weights: RrfWeights, term: LaneEntry -> real) {
    var h := LaneHit(r.id, name, r.rk);
    Rankable(h) && Contribution(h, weights) == term(r)
  }

  lemma SqlTermFits(r: LaneEntry, name: string, weights: RrfWeights)
    requires r.rk >= 1
    ensures TermFits(r, name, weights, SqlTerm(weights.WeightFor(name)))
  {
    TimesReciprocal(weights.WeightFor(name), (60 + r.rk) as real);
  }

  lemma TimesReciprocal(w: real, k: real)
    requires k != 0.0
    ensures w * (1.0 / k) == w / k
  {
  }

  lemma {:induction false} SumTermsIsScore(lane: seq<LaneEntry>, name: string, weights: RrfWeights, id: int,
                                           term: LaneEntry -> real)
    requires forall r :: r in lane ==> TermFits(r, name, weights, term)
    ensures AllRankable(HitsOf(lane, name))
    ensures ScoreOf(HitsOf(lane, name), weights, id) == SumTerms(lane, term, id)
    decreases |lane|
  {
    if lane != [] {
      var n := |lane| - 1;
      SumTermsIsScore(lane[..n], name, weights, id, term);
      assert TermFits(lane[n], name, weights, term);
      ScoreAppended(HitsOf(lane[..n], name), LaneHit(lane[n].id, name, lane[n].rk), weights, id);
    }
  }

  lemma LaneSumIsScore(lane: seq<LaneEntry>, name: string, weights: RrfWeights, id: int)
    requires ValidRanks(lane)
    ensures AllRankable(HitsOf(lane, name))
    ensures ScoreOf(HitsOf(lane, name), weights, id) == LaneSum(lane, weights.WeightFor(name), id)
  {
    forall r | r in lane ensures TermFits(r, name, weights, SqlTerm(weights.WeightFor(name))) {
      SqlTermFits(r, name, weights);
    }
    SumTermsIsScore(lane, name, weights, id, SqlTerm(weights.WeightFor(name)));
  }

  /** The statement scores a chunk as `Fuse` does on the same lanes. */
  lemma SqlScoreIsFuse(q: Query, vec: seq<LaneEntry>, bm: seq<LaneEntry>, graph: seq<LaneEntry>, id: int)
    requires ValidRanks(vec) && ValidRanks(bm) && ValidRanks(graph)
    ensures AllRankable(UnionAll(vec, bm, graph))
    ensures SqlScore(q, vec, bm, graph, id) == ScoreOf(UnionAll(vec, bm, graph), q.weights, id)
  {
    LaneSumIsScore(vec, "vec", q.weights, id);
    LaneSumIsScore(bm, "bm25", q.weights, id);
    LaneSumIsScore(graph, "graph", q.weights, id);
    ScoreConcat(HitsOf(vec, "vec"), HitsOf(bm, "bm25"), q.weights, id);
    ScoreConcat(HitsOf(vec, "vec") + HitsOf(bm, "bm25"), HitsOf(graph, "graph"), q.weights, id);
  }

  /** Which lanes a mode scores by: hybrid by all three, every other mode by its own. */
  lemma ModeScores(mode: Mode, weights: RrfWeights, vec: seq<LaneEntry>, bm: seq<LaneEntry>, graph: seq<LaneEntry>,
                   id: int)
    requires ValidRanks(vec) && ValidRanks(bm) && ValidRanks(graph)
    ensures AllRankable(LanesOf(mode, vec, bm, graph))
    ensures ScoreOf(LanesOf(mode, vec, bm, graph), weights, id) ==
      match mode
      case Hybrid => LaneSum(vec, weights.vec, id) + LaneSum(bm, weights.bm25, id) + LaneSum(graph, weights.graph, id)
      case Vector => LaneSum(vec, weights.vec, id)
      case Bm25 => LaneSum(bm, weights.bm25, id)
      case Graph => LaneSum(graph, weights.graph, id)
  {
    var q := Query("", None, 0, weights, (m: string, f: string) => true);
    SqlScoreIsFuse(q, Gated(mode.UsesVector(), vec), Gated(mode.UsesBm25(), bm), Gated(mode.UsesGraph(), graph), id);
  }

  /** A chunk listed once by a lane scores that entry's term, any other chunk nothing. */
  lemma {:induction false} SumOfOne(lane: seq<LaneEntry>, term: LaneEntry -> real, id: int)
    requires forall i, j :: 0 <= i < j < |lane| ==> lane[i].id != lane[j].id
    ensures forall i :: 0 <= i < |lane| && lane[i].id == id ==> SumTerms(lane, term, id) == term(lane[i])
    ensures (forall i :: 0 <= i < |lane| ==> lane[i].id != id) ==> SumTerms(lane, term, id) == 0.0
  {
    if lane != [] {
      var n := |lane| - 1;
      SumOfOne(lane[..n], term, id);
      assert forall i :: 0 <= i < n ==> lane[..n][i] == lane[i];
    }
  }

  /** In the graph lane a chunk of more walks has the greater term. */
  lemma MoreWalksScoreHigher(count: int -> nat, graph: seq<LaneEntry>, w: real, a: nat, b: nat)
    requires IsGraphLane(count, graph) && w > 0.0 && a < |graph| && b < |graph|
    requires count(graph[a].id) > count(graph[b].id)
    ensures SqlTerm(w)(graph[a]) > SqlTerm(w)(graph[b])
  {
    assert graph[a] in graph && graph[b] in graph;
    var p, q := (60 + graph[a].rk) as real, (60 + graph[b].rk) as real;
    TimesReciprocal(w, p);
    TimesReciprocal(w, q);
    CrossMultiplied(w, p, w, q);
    Products(p, q, w, p * w, q * w);
  }

  /** In graph mode the gates shut the two other lanes out. */
  lemma GraphModeLanes(vec: seq<LaneEntry>, bm: seq<LaneEntry>, graph: seq<LaneEntry>)
    ensures LanesOf(Graph, vec, bm, graph) == HitsOf(graph, "graph")
  {
  }

  /** A chunk fused from the graph lane alone scores the term of its entry. */
  lemma GraphEntry(weights: RrfWeights, graph: seq<LaneEntry>, fused: seq<ScoredChunk>, k: nat) returns (e: nat)
    requires ValidRanks(graph) && forall i, j :: 0 <= i < j < |graph| ==> graph[i].id != graph[j].id
    requires AllRankable(HitsOf(graph, "graph")) && IsFused(HitsOf(graph, "graph"), weights, fused) && k < |fused|
    ensures e < |graph| && graph[e].id == fused[k].id && fused[k].score == SqlTerm(weights.graph)(graph[e])
  {
    var hits, id := HitsOf(graph, "graph"), fused[k].id;
    assert Hit(hits, id);
    e :| 0 <= e < |graph| && hits[e].id == id;
    LaneSumIsScore(graph, "graph", weights, id);
    SumOfOne(graph, SqlTerm(weights.graph), id);
  }

  lemma GraphModeByCount(weights: RrfWeights, count: int -> nat, vec: seq<LaneEntry>, bm: seq<LaneEntry>,
                         graph: seq<LaneEntry>, fused: seq<ScoredChunk>, i: nat, j: nat)
    requires IsGraphLane(count, graph) && weights.graph > 0.0
    requires AllRankable(LanesOf(Graph, vec, bm, graph)) && IsFused(LanesOf(Graph, vec, bm, graph), weights, fused)
    requires i < j < |fused|
    ensures count(fused[i].id) >= count(fused[j].id) > 0
  {
    GraphModeLanes(vec, bm, graph);
    var a := GraphEntry(weights, graph, fused, i);
    var b := GraphEntry(weights, graph, fused, j);
    assert fused[i].score >= fused[j].score;
    assert graph[b] in graph;
    if count(graph[b].id) > count(graph[a].id) {
      MoreWalksScoreHigher(count, graph, weights.graph, b, a);
    }
  }

  function GraphCounts(mode: Mode, q: Query, chunks: seq<ChunkInfo>, links: seq<Link>, walked: seq<Row>): int -> nat {
    chunkId => GraphCount(mode, q, chunks, links, walked, chunkId)
  }

  lemma CountedWalks(q: Query, chunks: seq<ChunkInfo>, links: seq<Link>, walked: seq<Row>, xs: seq<Walk>, chunkId: int)
    requires |walked| == |xs| && Distinct(xs) && Distinct(links)
    requires GraphCounts(Graph, q, chunks, links, walked)(chunkId) > 0
    ensures |Joined(links, walked, xs, chunkId)| == GraphCounts(Graph, q, chunks, links, walked)(chunkId)
  {
    JoinCountsWalks(links, walked, xs, chunkId);
  }

  /**
   * Graph mode lists the chunks by falling number of walks into their
   * entities, so the LIMIT cuts off none that more walks reach than one it keeps.
   */
  lemma GraphModeListsByWalks(q: Query, chunks: seq<ChunkInfo>, links: seq<Link>, rels: seq<Edge>, seeds: seq<Vertex>,
                              walked: seq<Row>, xs: seq<Walk>, vec: seq<LaneEntry>, bm: seq<LaneEntry>,
                              graph: seq<LaneEntry>, fused: seq<ScoredChunk>, i: nat, j: nat)
    requires EachWalkOnce(OrJoin(rels), seeds, q.hops, walked, xs) && Distinct(links)
    requires IsGraphLane(GraphCounts(Graph, q, chunks, links, walked), graph) && q.weights.graph > 0.0
    requires AllRankable(LanesOf(Graph, vec, bm, graph)) && IsFused(LanesOf(Graph, vec, bm, graph), q.weights, fused)
    requires i < j < |fused|
    ensures |Joined(links, walked, xs, fused[i].id)| >= |Joined(links, walked, xs, fused[j].id)| > 0
  {
    GraphModeByCount(q.weights, GraphCounts(Graph, q, chunks, links, walked), vec, bm, graph, fused, i, j);
    CountedWalks(q, chunks, links, walked, xs, fused[i].id);
    CountedWalks(q, chunks, links, walked, xs, fused[j].id);
  }

  /** A lane lists a chunk once, at a rank from 1 to `depth`. */
  ghost predicate Shallow(lane: seq<LaneEntry>, depth: int) {
    && (forall i :: 0 <= i < |lane| ==> 1 <= lane[i].rk <= depth)
    && (forall i, j :: 0 <= i < j < |lane| ==> lane[i].id != lane[j].id)
  }

  /** Where a hit of the UNION ALL comes from. */
  lemma UnionAllAt(vec: seq<LaneEntry>, bm: seq<LaneEntry>, graph: seq<LaneEntry>, i: nat)
    requires i < |UnionAll(vec, bm, graph)|
    ensures var h := UnionAll(vec, bm, graph)[i];
      if i < |vec| then h == LaneHit(vec[i].id, "vec", vec[i].rk)
      else if i < |vec| + |bm| then h == LaneHit(bm[i - |vec|].id, "bm25", bm[i - |vec|].rk)
      else
        var k := i - |vec| - |bm|;
        k < |graph| && h == LaneHit(graph[k].id, "graph", graph[k].rk)
  {
  }

  lemma UnionAllWithinDepth(vec: seq<LaneEntry>, bm: seq<LaneEntry>, graph: seq<LaneEntry>, depth: int)
    requires Shallow(vec, depth) && Shallow(bm, depth) && Shallow(graph, depth)
    ensures Agreement.WithinDepth(UnionAll(vec, bm, graph), depth)
  {
    var hits := UnionAll(vec, bm, graph);
    forall i | 0 <= i < |hits| ensures Agreement.KnownLane(hits[i].lane) && 1 <= hits[i].rk <= depth {
      UnionAllAt(vec, bm, graph, i);
    }
    forall i, j | 0 <= i < j < |hits| && hits[i].id == hits[j].id ensures hits[i].lane != hits[j].lane {
      UnionAllAt(vec, bm, graph, i);
      UnionAllAt(vec, bm, graph, j);
    }
  }

  /**
   * With weights of which the two lightest at the last rank outweigh the
   * heaviest at rank 1, chunks that two lanes of the query find precede all
   * that one lane finds.
   */
  lemma QueryAgreement(q: Query, vec: seq<LaneEntry>, bm: seq<LaneEntry>, graph: seq<LaneEntry>, depth: int,
                       fused: seq<ScoredChunk>, i: nat, j: nat)
    requires Shallow(vec, depth) && Shallow(bm, depth) && Shallow(graph, depth)
    requires Agreement.NonNegative(q.weights) && Agreement.Outweighs(q.weights, depth)
    requires AllRankable(UnionAll(vec, bm, graph))
    requires IsFused(UnionAll(vec, bm, graph), q.weights, fused) && i < |fused| && j < |fused|
    requires Agreement.FoundTwice(UnionAll(vec, bm, graph), fused[i].id)
    requires !Agreement.FoundTwice(UnionAll(vec, bm, graph), fused[j].id)
    ensures i < j
  {
    UnionAllWithinDepth(vec, bm, graph, depth);
    Agreement.AgreementBeatsRank(UnionAll(vec, bm, graph), q.weights, depth, fused, i, j);
  }
}
