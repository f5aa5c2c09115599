/** What the recursive table holds, read off the relationships: paths that take one relationship a step, either way. */
module WalkPaths {
  import opened Prelude
  import opened WorkingTable

  /** Relationship `e` joins `a` and `b`, in either direction. */
  predicate Joins(e: Edge, a: Vertex, b: Vertex) {
    (e.src == a && e.dst == b) || (e.src == b && e.dst == a)
  }

  /** Move `j` takes a relationship that joins the vertices before and after it. */
  ghost predicate TakesAt(rels: seq<Edge>, via: seq<nat>, path: seq<Vertex>, j: nat)
    requires |path| == |via| + 1 && j < |via|
  {
    via[j] < |rels| && Joins(rels[via[j]], path[j], path[j + 1])
  }

  ghost predicate Takes(rels: seq<Edge>, via: seq<nat>, path: seq<Vertex>) {
    |path| == |via| + 1 && forall j :: 0 <= j < |via| ==> TakesAt(rels, via, path, j)
  }

  lemma TakesMore(rels: seq<Edge>, via: seq<nat>, path: seq<Vertex>, i: nat, v: Vertex)
    requires |path| == |via| + 1
    ensures Takes(rels, via + [i], path + [v]) <==>
      Takes(rels, via, path) && i < |rels| && Joins(rels[i], path[|via|], v)
  {
    var more, longer := via + [i], path + [v];
    forall j | 0 <= j < |via| ensures TakesAt(rels, more, longer, j) <==> TakesAt(rels, via, path, j) {
    }
    assert TakesAt(rels, more, longer, |via|) <==> i < |rels| && Joins(rels[i], path[|via|], v);
  }

  /** One move of the OR-join leads along a relationship that joins where it starts and where it ends. */
  lemma MoveJoins(rels: seq<Edge>, i: nat, a: Vertex, b: Vertex)
    ensures i < OrJoin(rels).Count() && OrJoin(rels).Can(i, a) && OrJoin(rels).To(i, a) == b
      <==> i < |rels| && Joins(rels[i], a, b)
  {
  }

  /** The moves of a walk and the vertices it passes. */
  lemma {:induction false} WalkTakesPath(rels: seq<Edge>, u: Vertex, via: seq<nat>) returns (path: seq<Vertex>)
    requires Follows(OrJoin(rels), u, via)
    ensures Takes(rels, via, path) && path[0] == u && path[|via|] == End(OrJoin(rels), u, via)
    decreases |via|
  {
    if via == [] {
      path := [u];
    } else {
      var front, i := via[..|via| - 1], via[|via| - 1];
      var before := WalkTakesPath(rels, u, front);
      var v := End(OrJoin(rels), u, via);
      MoveJoins(rels, i, End(OrJoin(rels), u, front), v);
      TakesMore(rels, front, before, i, v);
      assert via == front + [i];
      path := before + [v];
    }
  }

  lemma {:induction false} PathIsWalk(rels: seq<Edge>, u: Vertex, via: seq<nat>, path: seq<Vertex>)
    requires Takes(rels, via, path) && path[0] == u
    ensures Follows(OrJoin(rels), u, via) && End(OrJoin(rels), u, via) == path[|via|]
    decreases |via|
  {
    if via != [] {
      var front, i := via[..|via| - 1], via[|via| - 1];
      var before, v := path[..|via|], path[|via|];
      assert via == front + [i] && path == before + [v];
      TakesMore(rels, front, before, i, v);
      PathIsWalk(rels, u, front, before);
      MoveJoins(rels, i, before[|front|], v);
    }
  }

  /**
   * A walk from a seed is a list of relationships, given by their places,
   * each of which joins the vertex reached so far and the next.
   */
  lemma WalkIsPath(rels: seq<Edge>, seeds: seq<Vertex>, x: Walk, v: Vertex)
    ensures IsWalk(OrJoin(rels), seeds, x) && RowOf(OrJoin(rels), seeds, x) == Row(v, |x.via|) <==>
      x.seed < |seeds| && exists path :: Takes(rels, x.via, path) && path[0] == seeds[x.seed] && path[|x.via|] == v
  {
    if IsWalk(OrJoin(rels), seeds, x) && RowOf(OrJoin(rels), seeds, x) == Row(v, |x.via|) {
      var path := WalkTakesPath(rels, seeds[x.seed], x.via);
    }
    if x.seed < |seeds| {
      if path :| Takes(rels, x.via, path) && path[0] == seeds[x.seed] && path[|x.via|] == v {
        PathIsWalk(rels, seeds[x.seed], x.via, path);
      }
    }
  }

  /** Some relationship joins `a` and `b`. */
  predicate Neighbours(rels: seq<Edge>, a: Vertex, b: Vertex) {
    exists i :: 0 <= i < |rels| && (rels[i] == Edge(a, b) || rels[i] == Edge(b, a))
  }

  /** A path leads from neighbour to neighbour. */
  ghost predicate Leads(rels: seq<Edge>, path: seq<Vertex>) {
    forall j, k :: 0 <= j && k == j + 1 < |path| ==> Neighbours(rels, path[j], path[k])
  }

  lemma {:induction false} RelationshipsTaken(rels: seq<Edge>, path: seq<Vertex>) returns (via: seq<nat>)
    requires path != [] && Leads(rels, path)
    ensures Takes(rels, via, path)
    decreases |path|
  {
    if |path| == 1 {
      via := [];
    } else {
      var n := |path| - 1;
      var front := RelationshipsTaken(rels, path[..n]);
      assert Neighbours(rels, path[n - 1], path[n]);
      var i :| 0 <= i < |rels| && (rels[i] == Edge(path[n - 1], path[n]) || rels[i] == Edge(path[n], path[n - 1]));
      TakesMore(rels, front, path[..n], i, path[n]);
      assert path == path[..n] + [path[n]];
      via := front + [i];
    }
  }

  lemma TakenLeads(rels: seq<Edge>, via: seq<nat>, path: seq<Vertex>)
    requires Takes(rels, via, path)
    ensures Leads(rels, path)
  {
    forall j, k | 0 <= j && k == j + 1 < |path| ensures Neighbours(rels, path[j], path[k]) {
      assert TakesAt(rels, via, path, j);
      var e := rels[via[j]];
      assert e == Edge(path[j], path[k]) || e == Edge(path[k], path[j]);
    }
  }

  /**
   * The table has a row for vertex `v` at distance `d` exactly if `d` is
   * within the hops and a path of `d` relationships, each taken either way,
   * leads from a seed to `v`.
   */
  lemma ReachesExactly(rels: seq<Edge>, seeds: seq<Vertex>, hops: int, table: seq<Row>, xs: seq<Walk>, v: Vertex, d: nat)
    requires EachWalkOnce(OrJoin(rels), seeds, hops, table, xs)
    ensures Row(v, d) in table <==>
      && d <= Max(hops, 0)
      && exists path :: |path| == d + 1 && path[0] in seeds && path[d] == v && Leads(rels, path)
  {
    var t := OrJoin(rels);
    if Row(v, d) in table {
      var k :| 0 <= k < |table| && table[k] == Row(v, d);
      assert xs[k] in xs;
      var path := WalkTakesPath(rels, seeds[xs[k].seed], xs[k].via);
      TakenLeads(rels, xs[k].via, path);
    }
    if d <= Max(hops, 0) {
      if path :| |path| == d + 1 && path[0] in seeds && path[d] == v && Leads(rels, path) {
        var via := RelationshipsTaken(rels, path);
        var seed :| 0 <= seed < |seeds| && seeds[seed] == path[0];
        var x := Walk(seed, via);
        PathIsWalk(rels, path[0], via, path);
        assert x in xs;
        var k :| 0 <= k < |xs| && xs[k] == x;
        assert table[k] == Row(v, d);
      }
    }
  }
}
