/**
 * The order a stable descending sort puts a list in, as a permutation of its
 * indices: by key from high to low, equal keys in their original order.
 */
module StableSort {
  import opened FiniteSets

  predicate Before(keys: seq<real>, i: nat, j: nat)
    requires i < |keys| && j < |keys|
  {
    keys[i] > keys[j] || (keys[i] == keys[j] && i < j)
  }

  ghost predicate Ordered(keys: seq<real>, order: seq<nat>) {
    && (forall a :: 0 <= a < |order| ==> order[a] < |keys|)
    && (forall a, b :: 0 <= a < b < |order| ==> Before(keys, order[a], order[b]))
  }

  /** `order` lists every index of `keys` once, in stable descending order. */
  ghost predicate IsOrder(keys: seq<real>, order: seq<nat>) {
    && |order| == |keys|
    && Ordered(keys, order)
    && forall i :: 0 <= i < |keys| ==> i in order
  }

  /** The head of an ordered list stays ahead of its rest when an index that follows it joins the rest. */
  lemma HeadStaysAhead(keys: seq<real>, order: seq<nat>, rest: seq<nat>, i: nat)
    requires i < |keys| && Ordered(keys, order) && order != [] && Before(keys, order[0], i)
    requires Ordered(keys, rest) && forall j :: j in rest <==> j == i || j in order[1..]
    ensures Ordered(keys, [order[0]] + rest)
  {
    forall b | 0 <= b < |rest| ensures Before(keys, order[0], rest[b]) {
      assert rest[b] in rest;
    }
  }

  function Insert(keys: seq<real>, order: seq<nat>, i: nat): (r: seq<nat>)
    requires i < |keys| && Ordered(keys, order)
    requires forall a :: 0 <= a < |order| ==> order[a] < i
    ensures |r| == |order| + 1 && Ordered(keys, r)
    ensures forall j :: j in r <==> j == i || j in order
  {
    if order == [] then [i]
    else if keys[order[0]] >= keys[i] then
      var rest := Insert(keys, order[1..], i);
      assert forall j :: j in order <==> j == order[0] || j in order[1..];
      HeadStaysAhead(keys, order, rest, i);
      [order[0]] + rest
    else [i] + order
  }

  function OrderOf(keys: seq<real>, n: nat): (order: seq<nat>)
    requires n <= |keys|
    ensures |order| == n && Ordered(keys, order)
    ensures forall i :: i in order <==> 0 <= i < n
  {
    if n == 0 then []
    else
      var order := OrderOf(keys, n - 1);
      assert forall a :: 0 <= a < |order| ==> order[a] in order;
      Insert(keys, order, n - 1)
  }

  function Order(keys: seq<real>): (order: seq<nat>)
    ensures IsOrder(keys, order)
  {
    OrderOf(keys, |keys|)
  }

  lemma OrderedDistinct(keys: seq<real>, order: seq<nat>)
    requires Ordered(keys, order)
    ensures Distinct(order)
  {
    forall a, b | 0 <= a < b < |order| ensures order[a] != order[b] {
      assert Before(keys, order[a], order[b]);
    }
  }

  lemma InOrder(keys: seq<real>, order: seq<nat>, a: nat, b: nat)
    requires Ordered(keys, order) && a < |order| && b < |order|
    ensures a < b <==> Before(keys, order[a], order[b])
  {
  }

  /** The indices a stable descending sort puts ahead of index `i`. */
  ghost function Ahead(keys: seq<real>, i: nat): set<nat>
    requires i < |keys|
  {
    set j | 0 <= j < |keys| && Before(keys, j, i)
  }

  /** The rank of an index is the number of indices ahead of it. */
  lemma RankIsAhead(keys: seq<real>, order: seq<nat>, p: nat)
    requires IsOrder(keys, order) && p < |order|
    ensures |Ahead(keys, order[p])| == p
  {
    OrderedDistinct(keys, order);
    var front := order[..p];
    forall j ensures j in Elements(front) <==> j in Ahead(keys, order[p]) {
      if j in Elements(front) {
        var a :| 0 <= a < p && front[a] == j;
        InOrder(keys, order, a, p);
      }
      if j in Ahead(keys, order[p]) {
        assert j in order;
        var a :| 0 <= a < |order| && order[a] == j;
        InOrder(keys, order, a, p);
        assert front[a] == j;
      }
    }
    assert Elements(front) == Ahead(keys, order[p]);
    DistinctCard(front);
  }

  /** The stable order is unique, so every stable descending sort produces it. */
  lemma OrderUnique(keys: seq<real>, o1: seq<nat>, o2: seq<nat>)
    requires IsOrder(keys, o1) && IsOrder(keys, o2)
    ensures o1 == o2
  {
    forall p | 0 <= p < |o1| ensures o1[p] == o2[p] {
      assert o1[p] in o2;
      var q :| 0 <= q < |o2| && o2[q] == o1[p];
      RankIsAhead(keys, o1, p);
      RankIsAhead(keys, o2, q);
    }
  }
}
