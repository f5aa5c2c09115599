/** Undirected walks run both ways: a walk from u to v read backwards is a walk from v to u. */
module WalkSymmetry {
  import opened FiniteSets
  import opened WorkingTable

  function Reversed(via: seq<nat>): (r: seq<nat>)
    ensures |r| == |via|
  {
    if via == [] then [] else [via[|via| - 1]] + Reversed(via[..|via| - 1])
  }

  lemma {:induction false} ReversedAt(via: seq<nat>, k: nat)
    requires k < |via|
    ensures Reversed(via)[k] == via[|via| - 1 - k]
  {
    if k > 0 {
      ReversedAt(via[..|via| - 1], k - 1);
    }
  }

  lemma ReversedInjective(p: seq<nat>, q: seq<nat>)
    requires Reversed(p) == Reversed(q)
    ensures p == q
  {
    forall k | 0 <= k < |p| ensures p[k] == q[k] {
      ReversedAt(p, |p| - 1 - k);
      ReversedAt(q, |q| - 1 - k);
    }
  }

  /** A walk seen from its first move. */
  lemma {:induction false} FirstMove(t: Term, u: Vertex, i: nat, p: seq<nat>)
    ensures Follows(t, u, [i] + p) <==> i < t.Count() && t.Can(i, u) && Follows(t, t.To(i, u), p)
    ensures End(t, u, [i] + p) == End(t, t.To(i, u), p)
    decreases |p|
  {
    if p == [] {
      assert ([i] + p)[..0] == [];
    } else {
      var n := |p| - 1;
      FirstMove(t, u, i, p[..n]);
      assert ([i] + p)[..n + 1] == [i] + p[..n];
    }
  }

  lemma {:induction false} WalksBack(t: Term, u: Vertex, via: seq<nat>)
    requires t.OrJoin? && Follows(t, u, via)
    ensures Follows(t, End(t, u, via), Reversed(via))
    ensures End(t, End(t, u, via), Reversed(via)) == u
    decreases |via|
  {
    if via != [] {
      var n := |via| - 1;
      WalksBack(t, u, via[..n]);
      FirstMove(t, End(t, u, via), via[n], Reversed(via[..n]));
    }
  }

  function Backwards(x: Walk): Walk {
    Walk(x.seed, Reversed(x.via))
  }

  lemma WalkCountAtMost(t: Term, u: Vertex, v: Vertex, d: nat)
    requires t.OrJoin?
    ensures WalkCount(t, [u], v, d) <= WalkCount(t, [v], u, d)
  {
    var there, back := WalksTo(t, [u], Row(v, d)), WalksTo(t, [v], Row(u, d));
    forall x | x in there ensures Backwards(x) in back {
      WalksBack(t, u, x.via);
    }
    forall x, y | x in there && y in there && Backwards(x) == Backwards(y) ensures x == y {
      ReversedInjective(x.via, y.via);
    }
    InjectionCard(there, back, Backwards);
  }

  /** There are as many walks of length d from u to v as from v to u, parallel relationships and self-loops included. */
  lemma Symmetry(t: Term, u: Vertex, v: Vertex, d: nat)
    requires t.OrJoin?
    ensures WalkCount(t, [u], v, d) == WalkCount(t, [v], u, d)
  {
    WalkCountAtMost(t, u, v, d);
    WalkCountAtMost(t, v, u, d);
  }
}
