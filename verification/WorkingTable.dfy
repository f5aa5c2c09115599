/**
 * The recursive `walked` table as a working-table loop, and what its rows
 * count: undirected walks over the relationship rows.
 */
module WorkingTable {
  import opened Prelude
  import opened FiniteSets

  type Vertex = nat

  /** A row of the recursive table: a vertex, and how far the recursion has gone. */
  datatype Row = Row(id: Vertex, d: nat)

  /** A relationship row. */
  datatype Edge = Edge(src: Vertex, dst: Vertex)

  predicate Touches(e: Edge, v: Vertex) {
    e.src == v || e.dst == v
  }

  function Other(e: Edge, v: Vertex): Vertex {
    if e.src == v then e.dst else e.src
  }

  /**
   * The recursive term: a single OR-join with a CASE in the query, two
   * directed joins in the design. A move is one joined row: the two-branch
   * term can move along relationship `i` (move `i`) or against it (move
   * `|rows| + i`).
   */
  datatype Term = OrJoin(rows: seq<Edge>) | TwoBranch(rows: seq<Edge>) {
    function Count(): nat {
      if OrJoin? then |rows| else 2 * |rows|
    }

    /** Move `i` joins a working row at vertex `v`. */
    predicate Can(i: nat, v: Vertex) {
      if i < |rows| then (if OrJoin? then Touches(rows[i], v) else rows[i].src == v)
      else TwoBranch? && i < Count() && rows[i - |rows|].dst == v
    }

    function To(i: nat, v: Vertex): Vertex {
      if i < |rows| then (if OrJoin? then Other(rows[i], v) else rows[i].dst)
      else if i < Count() then rows[i - |rows|].src
      else v
    }
  }

  /** A walk: the seed it starts from, by position, and the moves it takes. */
  datatype Walk = Walk(seed: nat, via: seq<nat>)

  function End(t: Term, u: Vertex, via: seq<nat>): Vertex {
    if via == [] then u else t.To(via[|via| - 1], End(t, u, via[..|via| - 1]))
  }

  predicate Follows(t: Term, u: Vertex, via: seq<nat>) {
    via == [] ||
    var n := |via| - 1;
    Follows(t, u, via[..n]) && via[n] < t.Count() && t.Can(via[n], End(t, u, via[..n]))
  }

  function Start(seeds: seq<Vertex>, x: Walk): Vertex {
    if x.seed < |seeds| then seeds[x.seed] else 0
  }

  predicate IsWalk(t: Term, seeds: seq<Vertex>, x: Walk) {
    x.seed < |seeds| && Follows(t, Start(seeds, x), x.via)
  }

  function RowOf(t: Term, seeds: seq<Vertex>, x: Walk): Row {
    Row(End(t, Start(seeds, x), x.via), |x.via|)
  }

  function Extended(x: Walk, i: nat): Walk {
    Walk(x.seed, x.via + [i])
  }

  /** The walks of length `d`. */
  ghost function WalkSet(t: Term, seeds: seq<Vertex>, d: nat): set<Walk> {
    if d == 0 then set i | 0 <= i < |seeds| :: Walk(i, [])
    else
      set x, i | x in WalkSet(t, seeds, d - 1) && 0 <= i < t.Count() && t.Can(i, RowOf(t, seeds, x).id)
        :: Extended(x, i)
  }

  lemma {:induction false} WalkSetSound(t: Term, seeds: seq<Vertex>, d: nat, y: Walk)
    requires y in WalkSet(t, seeds, d)
    ensures IsWalk(t, seeds, y) && |y.via| == d
    decreases d
  {
    if d > 0 {
      var x, i :| x in WalkSet(t, seeds, d - 1) && 0 <= i < t.Count() && t.Can(i, RowOf(t, seeds, x).id)
        && y == Extended(x, i);
      WalkSetSound(t, seeds, d - 1, x);
      assert y.via[..d - 1] == x.via;
    }
  }

  lemma {:induction false} WalkSetComplete(t: Term, seeds: seq<Vertex>, d: nat, y: Walk)
    requires IsWalk(t, seeds, y) && |y.via| == d
    ensures y in WalkSet(t, seeds, d)
    decreases d
  {
    if d == 0 {
      assert y == Walk(y.seed, []);
    } else {
      var x, i := Walk(y.seed, y.via[..d - 1]), y.via[d - 1];
      assert IsWalk(t, seeds, x) && i < t.Count() && t.Can(i, RowOf(t, seeds, x).id);
      WalkSetComplete(t, seeds, d - 1, x);
      assert y == Extended(x, i);
    }
  }

  /** The walks that end in `row`. */
  ghost function WalksTo(t: Term, seeds: seq<Vertex>, row: Row): (walks: set<Walk>)
    ensures forall x :: x in walks <==> IsWalk(t, seeds, x) && RowOf(t, seeds, x) == row
  {
    var walks := set x | x in WalkSet(t, seeds, row.d) && RowOf(t, seeds, x) == row;
    forall x ensures x in walks <==> IsWalk(t, seeds, x) && RowOf(t, seeds, x) == row {
      if x in walks {
        WalkSetSound(t, seeds, row.d, x);
      }
      if IsWalk(t, seeds, x) && RowOf(t, seeds, x) == row {
        WalkSetComplete(t, seeds, row.d, x);
      }
    }
    walks
  }

  /** How many walks of length `d` lead from a seed to `v`. */
  ghost function WalkCount(t: Term, seeds: seq<Vertex>, v: Vertex, d: nat): nat {
    |WalksTo(t, seeds, Row(v, d))|
  }

  /** `table` holds (v, d) exactly as often as there are walks of length d, at most max(hops, 0), from a seed to v. */
  ghost predicate CountsWalks(t: Term, seeds: seq<Vertex>, hops: int, table: seq<Row>) {
    forall v, d: nat :: multiset(table)[Row(v, d)] == if d <= Max(hops, 0) then WalkCount(t, seeds, v, d) else 0
  }

  /** Row by row, `rows` holds the ends of the walks `xs`. */
  ghost predicate Lockstep(t: Term, seeds: seq<Vertex>, rows: seq<Row>, xs: seq<Walk>) {
    |rows| == |xs| && forall k :: 0 <= k < |xs| ==> rows[k] == RowOf(t, seeds, xs[k])
  }

  lemma ExtendedRow(t: Term, seeds: seq<Vertex>, x: Walk, i: nat)
    requires IsWalk(t, seeds, x) && i < t.Count() && t.Can(i, RowOf(t, seeds, x).id)
    ensures IsWalk(t, seeds, Extended(x, i))
    ensures RowOf(t, seeds, Extended(x, i)) == Row(t.To(i, RowOf(t, seeds, x).id), |x.via| + 1)
  {
    assert Extended(x, i).via[..|x.via|] == x.via;
  }

  /** `y` extends one of the walks of `xs` by a move it can take. */
  predicate Extends(t: Term, seeds: seq<Vertex>, xs: seq<Walk>, y: Walk) {
    y.via != [] &&
    var n := |y.via| - 1;
    var x := Walk(y.seed, y.via[..n]);
    x in xs && y.via[n] < t.Count() && t.Can(y.via[n], RowOf(t, seeds, x).id)
  }

  /** The same, by one of the first `i` moves. */
  predicate ExtendsOne(t: Term, seeds: seq<Vertex>, x: Walk, i: nat, y: Walk) {
    y.via != [] &&
    var n := |y.via| - 1;
    Walk(y.seed, y.via[..n]) == x && y.via[n] < i && t.Can(y.via[n], RowOf(t, seeds, x).id)
  }

  /** How many of the first `i` moves join a working row at `v`. */
  function JoinedMoves(t: Term, v: Vertex, i: nat): nat {
    if i == 0 then 0 else JoinedMoves(t, v, i - 1) + (if t.Can(i - 1, v) then 1 else 0)
  }

  /** The walk that takes move `i` joins those that take an earlier one. */
  lemma OneMoreMove(t: Term, seeds: seq<Vertex>, x: Walk, i: nat, ys: seq<Walk>)
    requires t.Can(i, RowOf(t, seeds, x).id) && Distinct(ys)
    requires forall y :: y in ys <==> ExtendsOne(t, seeds, x, i, y)
    ensures Distinct(ys + [Extended(x, i)])
    ensures forall y :: y in ys + [Extended(x, i)] <==> ExtendsOne(t, seeds, x, i + 1, y)
  {
    var z := Extended(x, i);
    assert z.via[..|x.via|] == x.via;
    forall y ensures y in ys + [z] <==> ExtendsOne(t, seeds, x, i + 1, y) {
      if ExtendsOne(t, seeds, x, i + 1, y) && y.via[|y.via| - 1] == i {
        assert y.via == y.via[..|y.via| - 1] + [i];
      }
    }
    DistinctAppended(ys, z);
  }

  /** Joins one working row with every relationship. */
  method JoinRow(t: Term, ghost seeds: seq<Vertex>, w: Row, ghost x: Walk)
    returns (next: seq<Row>, ghost ys: seq<Walk>)
    requires IsWalk(t, seeds, x) && w == RowOf(t, seeds, x)
    ensures |next| == JoinedMoves(t, w.id, t.Count())
    ensures Lockstep(t, seeds, next, ys) && Distinct(ys)
    ensures forall y :: y in ys <==> ExtendsOne(t, seeds, x, t.Count(), y)
  {
    next, ys := [], [];
    for i := 0 to t.Count()
      invariant |next| == JoinedMoves(t, w.id, i)
      invariant Lockstep(t, seeds, next, ys) && Distinct(ys)
      invariant forall y :: y in ys <==> ExtendsOne(t, seeds, x, i, y)
    {
      if t.Can(i, w.id) {
        ExtendedRow(t, seeds, x, i);
        OneMoreMove(t, seeds, x, i, ys);
        next, ys := next + [Row(t.To(i, w.id), w.d + 1)], ys + [Extended(x, i)];
      }
    }
  }

  lemma DisjointExtensions(t: Term, seeds: seq<Vertex>, xs: seq<Walk>, x: Walk, ys: seq<Walk>, zs: seq<Walk>)
    requires x !in xs && Distinct(ys) && Distinct(zs)
    requires forall y :: y in ys <==> Extends(t, seeds, xs, y)
    requires forall z :: z in zs <==> ExtendsOne(t, seeds, x, t.Count(), z)
    ensures Distinct(ys + zs)
    ensures forall y :: y in ys + zs <==> Extends(t, seeds, xs + [x], y)
  {
    forall i, j | 0 <= i < |ys| && 0 <= j < |zs| ensures ys[i] != zs[j] {
      assert ys[i] in ys && zs[j] in zs;
    }
  }

  /** One evaluation of the recursive term against the working table. */
  method Join(t: Term, ghost seeds: seq<Vertex>, hops: int, working: seq<Row>, ghost xs: seq<Walk>, ghost d: nat)
    returns (next: seq<Row>, ghost ys: seq<Walk>)
    requires Lockstep(t, seeds, working, xs) && Distinct(xs)
    requires forall x :: x in xs ==> IsWalk(t, seeds, x) && |x.via| == d
    ensures Lockstep(t, seeds, next, ys) && Distinct(ys)
    ensures d < hops ==> forall y :: y in ys <==> Extends(t, seeds, xs, y)
    ensures d >= hops ==> ys == []
  {
    next, ys := [], [];
    for k := 0 to |working|
      invariant Lockstep(t, seeds, next, ys) && Distinct(ys)
      invariant d < hops ==> forall y :: y in ys <==> Extends(t, seeds, xs[..k], y)
      invariant d >= hops ==> ys == []
    {
      assert xs[k] in xs;
      if working[k].d < hops {
        var more, zs := JoinRow(t, seeds, working[k], xs[k]);
        assert xs[..k] + [xs[k]] == xs[..k + 1];
        DisjointExtensions(t, seeds, xs[..k], xs[k], ys, zs);
        next, ys := next + more, ys + zs;
      }
    }
    assert xs[..|xs|] == xs;
  }

  /** `xs` lists the walks of length `d`, each once. */
  ghost predicate Level(t: Term, seeds: seq<Vertex>, xs: seq<Walk>, d: nat) {
    Distinct(xs) && forall x :: x in xs <==> IsWalk(t, seeds, x) && |x.via| == d
  }

  /** `all` lists the walks of length at most `d`, each once. */
  ghost predicate UpTo(t: Term, seeds: seq<Vertex>, all: seq<Walk>, d: nat) {
    Distinct(all) && forall x :: x in all <==> IsWalk(t, seeds, x) && |x.via| <= d
  }

  /** The walks of length `d + 1` are the extensions of those of length `d`. */
  lemma NextLevel(t: Term, seeds: seq<Vertex>, xs: seq<Walk>, ys: seq<Walk>, d: nat)
    requires Level(t, seeds, xs, d) && Distinct(ys)
    requires forall y :: y in ys <==> Extends(t, seeds, xs, y)
    ensures Level(t, seeds, ys, d + 1)
  {
    forall y ensures Extends(t, seeds, xs, y) <==> IsWalk(t, seeds, y) && |y.via| == d + 1 {
      if y.via != [] {
        var x := Walk(y.seed, y.via[..|y.via| - 1]);
        assert x in xs <==> IsWalk(t, seeds, x) && |x.via| == d;
      }
    }
  }

  lemma OneMoreLevel(t: Term, seeds: seq<Vertex>, all: seq<Walk>, ys: seq<Walk>, d: nat)
    requires UpTo(t, seeds, all, d) && Level(t, seeds, ys, d + 1)
    ensures UpTo(t, seeds, all + ys, d + 1)
  {
    forall i, j | 0 <= i < |all| && 0 <= j < |ys| ensures all[i] != ys[j] {
      assert all[i] in all && ys[j] in ys;
    }
  }

  /** If there is no walk of length `d`, the walks of length at most `d` are all there are. */
  lemma LastLevel(t: Term, seeds: seq<Vertex>, all: seq<Walk>, d: nat, hops: nat)
    requires UpTo(t, seeds, all, d) && Level(t, seeds, [], d) && d <= hops
    ensures UpTo(t, seeds, all, hops)
  {
    assert forall y :: IsWalk(t, seeds, y) ==> y !in [] && |y.via| != d;
    forall x | IsWalk(t, seeds, x) ensures |x.via| <= d {
      NoLongerWalks(t, seeds, d, x);
    }
  }

  ghost function EndingIn(t: Term, seeds: seq<Vertex>, xs: seq<Walk>, row: Row): set<Walk> {
    set x | x in xs && RowOf(t, seeds, x) == row
  }

  lemma EndingInAppended(t: Term, seeds: seq<Vertex>, xs: seq<Walk>, row: Row)
    requires Distinct(xs) && xs != []
    ensures var n := |xs| - 1;
      |EndingIn(t, seeds, xs, row)|
        == |EndingIn(t, seeds, xs[..n], row)| + (if RowOf(t, seeds, xs[n]) == row then 1 else 0)
  {
    var n := |xs| - 1;
    var front := EndingIn(t, seeds, xs[..n], row);
    assert forall x :: x in xs <==> x in xs[..n] || x == xs[n];
    assert xs[n] !in xs[..n];
    if RowOf(t, seeds, xs[n]) == row {
      assert EndingIn(t, seeds, xs, row) == front + {xs[n]};
    } else {
      assert EndingIn(t, seeds, xs, row) == front;
    }
  }

  /** Over distinct walks, a row occurs as often as there are walks that end in it. */
  lemma {:induction false} RowCount(t: Term, seeds: seq<Vertex>, rows: seq<Row>, xs: seq<Walk>, row: Row)
    requires Lockstep(t, seeds, rows, xs) && Distinct(xs)
    ensures multiset(rows)[row] == |EndingIn(t, seeds, xs, row)|
    decreases |xs|
  {
    if xs == [] {
      assert EndingIn(t, seeds, xs, row) == {};
    } else {
      var n := |xs| - 1;
      RowCount(t, seeds, rows[..n], xs[..n], row);
      EndingInAppended(t, seeds, xs, row);
      assert rows == rows[..n] + [rows[n]];
    }
  }

  /** `table` holds, in the order of `xs`, the end of every walk of at most max(hops, 0) moves, each walk once. */
  ghost predicate EachWalkOnce(t: Term, seeds: seq<Vertex>, hops: int, table: seq<Row>, xs: seq<Walk>) {
    Lockstep(t, seeds, table, xs) && UpTo(t, seeds, xs, Max(hops, 0))
  }

  lemma AllWalksCount(t: Term, seeds: seq<Vertex>, hops: int, table: seq<Row>, xs: seq<Walk>)
    requires EachWalkOnce(t, seeds, hops, table, xs)
    ensures CountsWalks(t, seeds, hops, table)
  {
    forall v, d: nat ensures multiset(table)[Row(v, d)] == if d <= Max(hops, 0) then WalkCount(t, seeds, v, d) else 0 {
      RowCount(t, seeds, table, xs, Row(v, d));
      if d <= Max(hops, 0) {
        assert EndingIn(t, seeds, xs, Row(v, d)) == WalksTo(t, seeds, Row(v, d));
      } else {
        assert EndingIn(t, seeds, xs, Row(v, d)) == {};
      }
    }
  }

  method SeedRows(t: Term, seeds: seq<Vertex>) returns (rows: seq<Row>, ghost xs: seq<Walk>)
    ensures Lockstep(t, seeds, rows, xs) && Level(t, seeds, xs, 0)
  {
    rows := seq(|seeds|, i requires 0 <= i < |seeds| => Row(seeds[i], 0));
    xs := seq(|seeds|, i requires 0 <= i < |seeds| => Walk(i, []));
    forall x ensures x in xs <==> IsWalk(t, seeds, x) && |x.via| == 0 {
      if IsWalk(t, seeds, x) && |x.via| == 0 {
        assert xs[x.seed] == x;
      }
    }
  }

  /**
   * The recursive query: seeds at depth 0, then the recursive term evaluated
   * against the rows of the previous evaluation until it yields none. It
   * terminates, and its bag of rows counts walks.
   */
  method Walked(t: Term, seeds: seq<Vertex>, hops: int) returns (table: seq<Row>, ghost all: seq<Walk>)
    ensures EachWalkOnce(t, seeds, hops, table, all)
    ensures CountsWalks(t, seeds, hops, table)
  {
    ghost var xs: seq<Walk>;
    var working;
    working, xs := SeedRows(t, seeds);
    table, all := working, xs;
    ghost var d := 0;
    while working != []
      invariant Lockstep(t, seeds, working, xs)
      invariant Lockstep(t, seeds, table, all)
      invariant 0 <= d <= Max(hops, 0) + 1
      invariant if d <= Max(hops, 0) then Level(t, seeds, xs, d) else xs == []
      invariant UpTo(t, seeds, all, Min(d, Max(hops, 0)))
      decreases Max(hops, 0) + 1 - d
    {
      var next, ys := Join(t, seeds, hops, working, xs, d);
      if d < hops {
        NextLevel(t, seeds, xs, ys, d);
        OneMoreLevel(t, seeds, all, ys, d);
      }
      working, table := next, table + next;
      xs, all := ys, all + ys;
      d := d + 1;
    }
    if d <= Max(hops, 0) {
      LastLevel(t, seeds, all, d, Max(hops, 0));
    }
    AllWalksCount(t, seeds, hops, table, all);
  }

  /** If there is no walk of length `d`, there is none that is longer. */
  lemma {:induction false} NoLongerWalks(t: Term, seeds: seq<Vertex>, d: nat, x: Walk)
    requires IsWalk(t, seeds, x) && forall y :: IsWalk(t, seeds, y) ==> |y.via| != d
    ensures |x.via| < d
    decreases |x.via|
  {
    if |x.via| > 0 {
      NoLongerWalks(t, seeds, d, Walk(x.seed, x.via[..|x.via| - 1]));
    }
  }
}
