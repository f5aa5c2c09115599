/**
 * The query's single OR-join against the design's two directed joins: the same
 * rows, and equally often exactly if the recursion meets no self-loop.
 */
module WalkRewriting {
  import opened Prelude
  import opened FiniteSets
  import opened WorkingTable

  /** The two-branch move for relationship `i` from `v`: along it where that is possible. */
  function DirectedMove(rows: seq<Edge>, v: Vertex, i: nat): nat {
    if i < |rows| && rows[i].src == v then i else |rows| + i
  }

  lemma DirectedMoveAgrees(rows: seq<Edge>, v: Vertex, i: nat)
    requires i < |rows| && OrJoin(rows).Can(i, v)
    ensures var j := DirectedMove(rows, v, i);
      j < TwoBranch(rows).Count() && TwoBranch(rows).Can(j, v) && TwoBranch(rows).To(j, v) == OrJoin(rows).To(i, v)
  {
  }

  /** The two-branch walk for an undirected one. */
  function Directed(rows: seq<Edge>, u: Vertex, via: seq<nat>): (p: seq<nat>)
    ensures |p| == |via|
    ensures forall j :: 0 <= j < |p| ==> p[j] == DirectedMove(rows, End(OrJoin(rows), u, via[..j]), via[j])
  {
    seq(|via|, j requires 0 <= j < |via| => DirectedMove(rows, End(OrJoin(rows), u, via[..j]), via[j]))
  }

  /** The relationship a two-branch move goes along. */
  function UndirectedMove(rows: seq<Edge>, i: nat): nat {
    if i < |rows| then i else i - |rows|
  }

  lemma UndirectedMoveAgrees(rows: seq<Edge>, v: Vertex, i: nat)
    requires i < TwoBranch(rows).Count() && TwoBranch(rows).Can(i, v)
    ensures var j := UndirectedMove(rows, i);
      j < |rows| && OrJoin(rows).Can(j, v) && OrJoin(rows).To(j, v) == TwoBranch(rows).To(i, v)
  {
  }

  function Undirected(rows: seq<Edge>, p: seq<nat>): (via: seq<nat>)
    ensures |via| == |p| && forall j :: 0 <= j < |p| ==> via[j] == UndirectedMove(rows, p[j])
  {
    seq(|p|, j requires 0 <= j < |p| => UndirectedMove(rows, p[j]))
  }

  lemma DirectedPrefix(rows: seq<Edge>, u: Vertex, via: seq<nat>, n: nat)
    requires n <= |via|
    ensures Directed(rows, u, via)[..n] == Directed(rows, u, via[..n])
  {
    forall j | 0 <= j < n ensures Directed(rows, u, via)[j] == Directed(rows, u, via[..n])[j] {
      assert via[..n][..j] == via[..j];
    }
  }

  lemma UndirectedPrefix(rows: seq<Edge>, p: seq<nat>, n: nat)
    requires n <= |p|
    ensures Undirected(rows, p)[..n] == Undirected(rows, p[..n])
  {
  }

  /** Every prefix of a walk is a walk, and its next move can be taken. */
  lemma {:induction false} PrefixFollows(t: Term, u: Vertex, p: seq<nat>, j: nat)
    requires Follows(t, u, p) && j <= |p|
    ensures Follows(t, u, p[..j])
    ensures j < |p| ==> p[j] < t.Count() && t.Can(p[j], End(t, u, p[..j]))
    decreases |p|
  {
    if j == |p| {
      assert p[..j] == p;
    } else if j < |p| - 1 {
      PrefixFollows(t, u, p[..|p| - 1], j);
      assert p[..|p| - 1][..j] == p[..j];
    }
  }

  lemma {:induction false} DirectedFollows(rows: seq<Edge>, u: Vertex, via: seq<nat>)
    requires Follows(OrJoin(rows), u, via)
    ensures Follows(TwoBranch(rows), u, Directed(rows, u, via))
    ensures End(TwoBranch(rows), u, Directed(rows, u, via)) == End(OrJoin(rows), u, via)
    decreases |via|
  {
    if via != [] {
      var n := |via| - 1;
      DirectedFollows(rows, u, via[..n]);
      DirectedMoveAgrees(rows, End(OrJoin(rows), u, via[..n]), via[n]);
      DirectedPrefix(rows, u, via, n);
    }
  }

  /** Forgetting the directions again gives the walk back. */
  lemma UndirectedOfDirected(rows: seq<Edge>, u: Vertex, via: seq<nat>)
    requires Follows(OrJoin(rows), u, via)
    ensures Undirected(rows, Directed(rows, u, via)) == via
  {
    forall j | 0 <= j < |via| ensures Undirected(rows, Directed(rows, u, via))[j] == via[j] {
      PrefixFollows(OrJoin(rows), u, via, j);
    }
  }

  lemma {:induction false} UndirectedFollows(rows: seq<Edge>, u: Vertex, p: seq<nat>)
    requires Follows(TwoBranch(rows), u, p)
    ensures Follows(OrJoin(rows), u, Undirected(rows, p))
    ensures End(OrJoin(rows), u, Undirected(rows, p)) == End(TwoBranch(rows), u, p)
    decreases |p|
  {
    if p != [] {
      var n := |p| - 1;
      UndirectedFollows(rows, u, p[..n]);
      UndirectedMoveAgrees(rows, End(TwoBranch(rows), u, p[..n]), p[n]);
      UndirectedPrefix(rows, p, n);
    }
  }

  function DirectedWalk(rows: seq<Edge>, seeds: seq<Vertex>, x: Walk): Walk {
    Walk(x.seed, Directed(rows, Start(seeds, x), x.via))
  }

  function UndirectedWalk(rows: seq<Edge>, x: Walk): Walk {
    Walk(x.seed, Undirected(rows, x.via))
  }

  ghost function OrWalks(rows: seq<Edge>, seeds: seq<Vertex>, row: Row): set<Walk> {
    WalksTo(OrJoin(rows), seeds, row)
  }

  ghost function TwoWalks(rows: seq<Edge>, seeds: seq<Vertex>, row: Row): set<Walk> {
    WalksTo(TwoBranch(rows), seeds, row)
  }

  lemma DirectedIn(rows: seq<Edge>, seeds: seq<Vertex>, row: Row, x: Walk)
    requires x in OrWalks(rows, seeds, row)
    ensures DirectedWalk(rows, seeds, x) in TwoWalks(rows, seeds, row)
    ensures UndirectedWalk(rows, DirectedWalk(rows, seeds, x)) == x
  {
    var u, y := Start(seeds, x), DirectedWalk(rows, seeds, x);
    assert Start(seeds, y) == u;
    assert IsWalk(TwoBranch(rows), seeds, y) && RowOf(TwoBranch(rows), seeds, y) == row by {
      DirectedFollows(rows, u, x.via);
    }
    assert UndirectedWalk(rows, y) == x by {
      UndirectedOfDirected(rows, u, x.via);
    }
  }

  lemma UndirectedIn(rows: seq<Edge>, seeds: seq<Vertex>, row: Row, x: Walk)
    requires x in TwoWalks(rows, seeds, row)
    ensures UndirectedWalk(rows, x) in OrWalks(rows, seeds, row)
  {
    var u, y := Start(seeds, x), UndirectedWalk(rows, x);
    assert Start(seeds, y) == u;
    assert IsWalk(OrJoin(rows), seeds, y) && RowOf(OrJoin(rows), seeds, y) == row by {
      UndirectedFollows(rows, u, x.via);
    }
  }

  /** Every undirected walk is one of the directed ones, and different walks stay different. */
  lemma Embedding(rows: seq<Edge>, seeds: seq<Vertex>, row: Row, two: set<Walk>)
    requires two <= TwoWalks(rows, seeds, row)
    requires forall x :: x in OrWalks(rows, seeds, row) ==> DirectedWalk(rows, seeds, x) in two
    ensures |OrWalks(rows, seeds, row)| <= |two|
  {
    var or, f := OrWalks(rows, seeds, row), x => DirectedWalk(rows, seeds, x);
    forall x, y | x in or && y in or && f(x) == f(y) ensures x == y {
      DirectedIn(rows, seeds, row, x);
      DirectedIn(rows, seeds, row, y);
    }
    InjectionCard(or, two, f);
  }

  /** Both terms reach the same rows. */
  lemma SameReach(rows: seq<Edge>, seeds: seq<Vertex>, row: Row)
    ensures OrWalks(rows, seeds, row) == {} <==> TwoWalks(rows, seeds, row) == {}
  {
    if x :| x in OrWalks(rows, seeds, row) {
      DirectedIn(rows, seeds, row, x);
    }
    if x :| x in TwoWalks(rows, seeds, row) {
      UndirectedIn(rows, seeds, row, x);
    }
  }

  /** No walk shorter than `d` reaches a vertex that has a self-loop. */
  ghost predicate NoLoopBefore(rows: seq<Edge>, seeds: seq<Vertex>, d: int) {
    forall i, k: nat :: 0 <= i < |rows| && rows[i].src == rows[i].dst && k < d ==>
      OrWalks(rows, seeds, Row(rows[i].src, k)) == {}
  }

  /** Short of a self-loop, a move's relationship and place give its direction. */
  lemma MoveForced(rows: seq<Edge>, seeds: seq<Vertex>, d: int, x: Walk, i: nat)
    requires IsWalk(OrJoin(rows), seeds, x) && |x.via| < d && NoLoopBefore(rows, seeds, d)
    requires i < |rows| && rows[i].dst == End(OrJoin(rows), Start(seeds, x), x.via)
    ensures rows[i].src != rows[i].dst
  {
    assert x in OrWalks(rows, seeds, RowOf(OrJoin(rows), seeds, x));
  }

  /** Away from self-loops, every move of a directed walk has the direction its relationship gives it. */
  lemma DirectionForcedAt(rows: seq<Edge>, seeds: seq<Vertex>, d: int, x: Walk, j: nat)
    requires IsWalk(TwoBranch(rows), seeds, x) && j < |x.via| <= d && NoLoopBefore(rows, seeds, d)
    ensures Directed(rows, Start(seeds, x), Undirected(rows, x.via))[j] == x.via[j]
  {
    var u, front := Start(seeds, x), Walk(x.seed, x.via[..j]);
    PrefixFollows(TwoBranch(rows), u, x.via, j);
    UndirectedFollows(rows, u, front.via);
    UndirectedPrefix(rows, x.via, j);
    if x.via[j] >= |rows| {
      MoveForced(rows, seeds, d, UndirectedWalk(rows, front), x.via[j] - |rows|);
    }
  }

  /** So a directed walk is determined by its relationships. */
  lemma DirectionForced(rows: seq<Edge>, seeds: seq<Vertex>, d: int, x: Walk)
    requires IsWalk(TwoBranch(rows), seeds, x) && |x.via| <= d && NoLoopBefore(rows, seeds, d)
    ensures DirectedWalk(rows, seeds, UndirectedWalk(rows, x)) == x
  {
    forall j | 0 <= j < |x.via| ensures Directed(rows, Start(seeds, x), Undirected(rows, x.via))[j] == x.via[j] {
      DirectionForcedAt(rows, seeds, d, x, j);
    }
  }

  lemma SameCount(rows: seq<Edge>, seeds: seq<Vertex>, row: Row)
    requires NoLoopBefore(rows, seeds, row.d)
    ensures |OrWalks(rows, seeds, row)| == |TwoWalks(rows, seeds, row)|
  {
    var or, two, f := OrWalks(rows, seeds, row), TwoWalks(rows, seeds, row), x => UndirectedWalk(rows, x);
    forall x | x in two ensures f(x) in or {
      UndirectedIn(rows, seeds, row, x);
    }
    forall x, y | x in two && y in two && f(x) == f(y) ensures x == y {
      DirectionForced(rows, seeds, row.d, x);
      DirectionForced(rows, seeds, row.d, y);
    }
    InjectionCard(two, or, f);
    forall x | x in or ensures DirectedWalk(rows, seeds, x) in two {
      DirectedIn(rows, seeds, row, x);
    }
    Embedding(rows, seeds, row, two);
  }

  /** The embedding never goes against a self-loop. */
  lemma LoopTakenForwards(rows: seq<Edge>, seeds: seq<Vertex>, y: Walk, i: nat, d: nat)
    requires i < |rows| && rows[i].src == rows[i].dst && IsWalk(OrJoin(rows), seeds, y) && |y.via| == d + 1
    ensures DirectedWalk(rows, seeds, y).via[d] != |rows| + i
  {
  }

  lemma LoopMissed(rows: seq<Edge>, seeds: seq<Vertex>, row: Row, y: Walk, i: nat, x: Walk)
    requires i < |rows| && rows[i].src == rows[i].dst && y in OrWalks(rows, seeds, row) && |x.via| + 1 == row.d
    ensures DirectedWalk(rows, seeds, y) != Extended(x, |rows| + i)
  {
    LoopTakenForwards(rows, seeds, y, i, |x.via|);
    assert Extended(x, |rows| + i).via[|x.via|] == |rows| + i;
  }

  /** The directed walk that goes against the loop. */
  lemma ExtraWalk(rows: seq<Edge>, seeds: seq<Vertex>, i: nat, d: nat, x: Walk)
    requires i < |rows| && rows[i].src == rows[i].dst && x in TwoWalks(rows, seeds, Row(rows[i].src, d))
    ensures Extended(x, |rows| + i) in TwoWalks(rows, seeds, Row(rows[i].src, d + 1))
  {
    ExtendedRow(TwoBranch(rows), seeds, x, |rows| + i);
  }

  /** At a self-loop the two directed joins both take it: one row too many. */
  lemma LoopCountsTwice(rows: seq<Edge>, seeds: seq<Vertex>, i: nat, d: nat, x: Walk)
    requires i < |rows| && rows[i].src == rows[i].dst && x in TwoWalks(rows, seeds, Row(rows[i].src, d))
    ensures var row := Row(rows[i].src, d + 1); |OrWalks(rows, seeds, row)| < |TwoWalks(rows, seeds, row)|
  {
    var row := Row(rows[i].src, d + 1);
    var extra, two := Extended(x, |rows| + i), TwoWalks(rows, seeds, row);
    ExtraWalk(rows, seeds, i, d, x);
    var others := two - {extra};
    forall y | y in OrWalks(rows, seeds, row) ensures DirectedWalk(rows, seeds, y) in others {
      DirectedIn(rows, seeds, row, y);
      LoopMissed(rows, seeds, row, y, i, x);
    }
    Embedding(rows, seeds, row, others);
  }

  ghost predicate SameRows(a: seq<Row>, b: seq<Row>) {
    forall r :: r in a <==> r in b
  }

  /** The rewritten query finds the same vertices at the same distances, self-loops or not. */
  lemma RewritingKeepsRows(rows: seq<Edge>, seeds: seq<Vertex>, hops: int, a: seq<Row>, b: seq<Row>)
    requires CountsWalks(OrJoin(rows), seeds, hops, a) && CountsWalks(TwoBranch(rows), seeds, hops, b)
    ensures SameRows(a, b)
  {
    forall r ensures r in a <==> r in b {
      assert multiset(a)[Row(r.id, r.d)] > 0 <==> r in a;
      assert multiset(b)[Row(r.id, r.d)] > 0 <==> r in b;
      SameReach(rows, seeds, r);
    }
  }

  /**
   * It returns the same bag exactly if no vertex reached before the last hop
   * carries a self-loop.
   */
  lemma RewritingKeepsBagExactly(rows: seq<Edge>, seeds: seq<Vertex>, hops: int, a: seq<Row>, b: seq<Row>)
    requires CountsWalks(OrJoin(rows), seeds, hops, a) && CountsWalks(TwoBranch(rows), seeds, hops, b)
    ensures multiset(a) == multiset(b) <==> NoLoopBefore(rows, seeds, hops)
  {
    if NoLoopBefore(rows, seeds, hops) {
      forall r ensures multiset(a)[r] == multiset(b)[r] {
        assert r == Row(r.id, r.d);
        if r.d <= Max(hops, 0) {
          SameCount(rows, seeds, r);
        }
      }
    } else {
      var i, k: nat :| 0 <= i < |rows| && rows[i].src == rows[i].dst && k < hops
        && OrWalks(rows, seeds, Row(rows[i].src, k)) != {};
      SameReach(rows, seeds, Row(rows[i].src, k));
      var x :| x in TwoWalks(rows, seeds, Row(rows[i].src, k));
      LoopCountsTwice(rows, seeds, i, k, x);
      assert multiset(a)[Row(rows[i].src, k + 1)] != multiset(b)[Row(rows[i].src, k + 1)];
    }
  }
}
