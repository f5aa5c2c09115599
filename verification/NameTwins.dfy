/**
 * Names that compare alike, such as two spellings that differ in case, and
 * when the online clustering gives them one canonical id.
 */
module NameTwins {
  import opened Prelude
  import opened MergeScan
  import opened Clustering

  /** The two names compare with every entry alike. */
  ghost predicate Alike(m: Measure, x: string, y: string) {
    forall e :: m.Candidate(x, e) == m.Candidate(y, e)
  }

  /** The last occurrence of `x` is at position `p`. */
  ghost predicate LastAt(names: seq<string>, p: nat, x: string) {
    p < |names| && names[p] == x && forall k :: p < k < |names| ==> names[k] != x
  }

  /** Entries are only ever added. */
  lemma {:induction false} CanonGrows(m: Measure, names: seq<string>, n: nat)
    requires n <= |names|
    ensures ResolveAll(m, names[..n]).canon <= ResolveAll(m, names).canon
    decreases |names|
  {
    if n == |names| {
      assert names[..n] == names;
    } else {
      var front := names[..|names| - 1];
      CanonGrows(m, front, n);
      assert front[..n] == names[..n];
    }
  }

  lemma IdKept(m: Measure, c: Clusters, name: string, x: string)
    requires name != x && x in c.ids
    ensures x in Assign(m, c, name).ids && Assign(m, c, name).ids[x] == c.ids[x]
  {
  }

  lemma {:induction false} IdStays(m: Measure, names: seq<string>, p: nat, x: string, n: nat)
    requires LastAt(names, p, x) && p < n <= |names|
    ensures x in ResolveAll(m, names[..p + 1]).ids && x in ResolveAll(m, names[..n]).ids
    ensures ResolveAll(m, names[..n]).ids[x] == ResolveAll(m, names[..p + 1]).ids[x]
    decreases n
  {
    ResolveOneMore(m, names, n - 1);
    if n > p + 1 {
      IdStays(m, names, p, x, n - 1);
      IdKept(m, ResolveAll(m, names[..n - 1]), names[n - 1], x);
    }
  }

  /** A name keeps the id of its last occurrence. */
  lemma IdFromLast(m: Measure, names: seq<string>, p: nat, x: string)
    requires LastAt(names, p, x)
    ensures x in ResolveAll(m, names[..p + 1]).ids && x in ResolveAll(m, names).ids
    ensures ResolveAll(m, names).ids[x] == ResolveAll(m, names[..p + 1]).ids[x]
  {
    IdStays(m, names, p, x, |names|);
    assert names[..|names|] == names;
  }

  /** Once it has been assigned, a name that merges with itself has the best entry of all so far. */
  lemma AssignedBest(m: Measure, names: seq<string>, p: nat)
    requires p < |names| && m.Merges(names[p], names[p])
    ensures var c := ResolveAll(m, names[..p + 1]);
      names[p] in c.ids && Best(m.Candidates(names[p], c.canon)) == Some(c.ids[names[p]])
  {
    var x, before, c := names[p], ResolveAll(m, names[..p]), ResolveAll(m, names[..p + 1]);
    ResolveOneMore(m, names, p);
    if Best(m.Candidates(x, before.canon)).None? {
      BestUnique(m.Candidates(x, c.canon), Best(m.Candidates(x, c.canon)), Some(|before.canon|));
    }
  }

  /** Of more entries the best stays the same exactly if none of the new ones is closer. */
  lemma BestOfMore(m: Measure, x: string, canon: seq<string>, more: seq<string>, i: nat)
    requires canon <= more && Best(m.Candidates(x, canon)) == Some(i)
    ensures Best(m.Candidates(x, more)).Some?
    ensures Best(m.Candidates(x, more)) == Some(i) <==>
      forall k :: |canon| <= k < |more| && m.Merges(x, more[k]) ==> m.sim(x, more[k]) <= m.sim(x, canon[i])
  {
    var cs, ds := m.Candidates(x, canon), m.Candidates(x, more);
    assert forall k :: 0 <= k < |canon| ==> ds[k] == cs[k];
    assert ds[i].Accepted();
    if forall k :: |canon| <= k < |more| && m.Merges(x, more[k]) ==> m.sim(x, more[k]) <= m.sim(x, canon[i]) {
      assert IsBest(ds, Some(i));
      BestUnique(ds, Best(ds), Some(i));
    }
  }

  /**
   * Two names that compare alike, the first occurring last at `p` and the
   * second later, at `q`, get one id if and only if no entry opened between
   * these places is closer to them than the entry the first one got.
   */
  lemma ShareExactly(m: Measure, names: seq<string>, x: string, y: string, p: nat, q: nat)
    requires Alike(m, x, y) && m.Merges(x, x) && p < q && LastAt(names, p, x) && LastAt(names, q, y)
    ensures var c, before, ids := ResolveAll(m, names[..p + 1]), ResolveAll(m, names[..q]), ResolveAll(m, names).ids;
      && x in ids && y in ids && x in c.ids && c.ids[x] < |c.canon| <= |before.canon|
      && (ids[x] == ids[y] <==>
            forall k :: |c.canon| <= k < |before.canon| && m.Merges(x, before.canon[k]) ==>
              m.sim(x, before.canon[k]) <= m.sim(x, c.canon[c.ids[x]]))
  {
    var c, before := ResolveAll(m, names[..p + 1]), ResolveAll(m, names[..q]);
    AssignedBest(m, names, p);
    CanonGrows(m, names[..q], p + 1);
    assert names[..q][..p + 1] == names[..p + 1];
    BestOfMore(m, x, c.canon, before.canon, c.ids[x]);
    assert m.Candidates(y, before.canon) == m.Candidates(x, before.canon);
    ResolveOneMore(m, names, q);
    IdFromLast(m, names, p, x);
    IdFromLast(m, names, q, y);
  }
}
