/** Identifiers that are drawn one after the other and never twice tell rows apart. */
module Identifiers {
  import opened Prelude

  /** Identifiers drawn in this order, from `from` on and before `to`. */
  ghost predicate Drawn(ids: seq<Uuid>, from: nat, to: nat) {
    if ids == [] then from <= to
    else
      var n := |ids| - 1;
      Drawn(ids[..n], from, ids[n]) && ids[n] < to
  }

  lemma {:induction false} DrawnWithin(ids: seq<Uuid>, from: nat, to: nat, from': nat, to': nat)
    requires Drawn(ids, from, to) && from' <= from && to <= to'
    ensures Drawn(ids, from', to')
  {
    if ids != [] {
      var n := |ids| - 1;
      DrawnWithin(ids[..n], from, ids[n], from', ids[n]);
    }
  }

  lemma {:induction false} DrawnLater(a: seq<Uuid>, b: seq<Uuid>, from: nat, mid: nat, to: nat)
    requires Drawn(a, from, mid) && Drawn(b, mid, to)
    ensures Drawn(a + b, from, to)
    decreases |b|
  {
    if b == [] {
      assert a + b == a;
      DrawnWithin(a, from, mid, from, to);
    } else {
      var n := |b| - 1;
      DrawnLater(a, b[..n], from, mid, b[n]);
      assert (a + b)[..|a + b| - 1] == a + b[..n];
    }
  }

  lemma OneMoreDrawn(ids: seq<Uuid>, id: Uuid, from: nat, mid: nat, to: nat)
    requires Drawn(ids, from, mid) && mid <= id < to
    ensures Drawn(ids + [id], from, to)
  {
    DrawnWithin(ids, from, mid, from, id);
    assert (ids + [id])[..|ids|] == ids;
  }

  /** Drawn identifiers rise, so no two are the same. */
  lemma {:induction false} DrawnRise(ids: seq<Uuid>, from: nat, to: nat)
    requires Drawn(ids, from, to)
    ensures from <= to && forall i :: 0 <= i < |ids| ==> from <= ids[i] < to
    ensures forall i, j :: 0 <= i < j < |ids| ==> ids[i] < ids[j]
  {
    if ids != [] {
      var n := |ids| - 1;
      DrawnRise(ids[..n], from, ids[n]);
      assert forall i :: 0 <= i < n ==> ids[..n][i] == ids[i];
    }
  }

  /** The identifiers of a list of rows. */
  function Ids<T>(rows: seq<T>, id: T -> Uuid): (ids: seq<Uuid>)
    ensures |ids| == |rows|
  {
    if rows == [] then [] else Ids(rows[..|rows| - 1], id) + [id(rows[|rows| - 1])]
  }

  lemma {:induction false} IdsConcat<T>(a: seq<T>, b: seq<T>, id: T -> Uuid)
    ensures Ids(a + b, id) == Ids(a, id) + Ids(b, id)
    decreases |b|
  {
    if b == [] {
      assert a + b == a;
    } else {
      var n := |b| - 1;
      IdsConcat(a, b[..n], id);
      assert (a + b)[..|a + b| - 1] == a + b[..n];
    }
  }

  lemma {:induction false} IdsAt<T>(rows: seq<T>, id: T -> Uuid, i: nat)
    requires i < |rows|
    ensures Ids(rows, id)[i] == id(rows[i])
  {
    if i < |rows| - 1 {
      IdsAt(rows[..|rows| - 1], id, i);
    }
  }

  ghost predicate Apart<T>(rows: seq<T>, id: T -> Uuid) {
    forall i, j :: 0 <= i < j < |rows| ==> id(rows[i]) != id(rows[j])
  }

  lemma DrawnApart<T>(rows: seq<T>, id: T -> Uuid, from: nat, to: nat)
    requires Drawn(Ids(rows, id), from, to)
    ensures Apart(rows, id)
  {
    DrawnRise(Ids(rows, id), from, to);
    forall i, j | 0 <= i < j < |rows| ensures id(rows[i]) != id(rows[j]) {
      IdsAt(rows, id, i);
      IdsAt(rows, id, j);
    }
  }
}
