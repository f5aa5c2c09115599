/**
 * Online greedy clustering of names under two thresholds, for any measure of
 * name similarity. Every name joins the best canonical entry that passes both
 * thresholds, or becomes a canonical entry itself.
 */
module Clustering {
  import opened Prelude
  import opened Sequences
  import opened MergeScan

  datatype Measure = Measure(sim: (string, string) -> real, cosine: (string, string) -> bool)
  {
    /** Both merge thresholds between two names. */
    predicate Merges(a: string, b: string) {
      Candidate(a, b).Accepted()
    }

    function Candidate(name: string, entry: string): Scored {
      Scored(sim(name, entry), cosine(name, entry))
    }

    function Candidates(name: string, canon: seq<string>): (cs: seq<Scored>)
      ensures |cs| == |canon|
      ensures forall i :: 0 <= i < |cs| ==> cs[i] == Candidate(name, canon[i])
    {
      seq(|canon|, i requires 0 <= i < |canon| => Candidate(name, canon[i]))
    }

    ghost predicate Symmetric() {
      forall a, b :: Merges(a, b) ==> Merges(b, a)
    }

    /** `1 - sim` is a distance that is zero from a name to itself. */
    ghost predicate Metric() {
      && (forall a :: sim(a, a) == 1.0)
      && (forall a, b :: sim(a, b) == sim(b, a))
      && (forall a, b, c :: sim(a, c) >= sim(a, b) + sim(b, c) - 1.0)
    }
  }

  /** The canonical entries so far, and the entry each name was last given. */
  datatype Clusters = Clusters(canon: seq<string>, ids: map<string, nat>)

  lemma CandidatesAppended(m: Measure, name: string, canon: seq<string>, i: nat)
    requires i < |canon|
    ensures m.Candidates(name, canon[..i + 1]) == m.Candidates(name, canon[..i]) + [m.Candidate(name, canon[i])]
  {
  }

  function Assign(m: Measure, c: Clusters, name: string): Clusters {
    match Best(m.Candidates(name, c.canon))
    case Some(i) => c.(ids := c.ids[name := i])
    case None => Clusters(c.canon + [name], c.ids[name := |c.canon|])
  }

  /** The name joins the closest entry over both thresholds, the oldest of the closest, if there is one at all. */
  lemma AssignJoins(m: Measure, c: Clusters, name: string, i: nat)
    requires i < |c.canon| && m.sim(name, c.canon[i]) >= 0.85 && m.cosine(name, c.canon[i])
    ensures var c' := Assign(m, c, name);
      && c'.canon == c.canon && name in c'.ids && c'.ids == c.ids[name := c'.ids[name]]
      && var k := c'.ids[name];
         && k < |c.canon| && m.sim(name, c.canon[k]) >= 0.85 && m.cosine(name, c.canon[k])
         && m.sim(name, c.canon[i]) <= m.sim(name, c.canon[k])
         && (m.sim(name, c.canon[i]) == m.sim(name, c.canon[k]) ==> k <= i)
  {
    assert m.Candidates(name, c.canon)[i].Accepted();
  }

  lemma AssignOpens(m: Measure, c: Clusters, name: string)
    requires forall i :: 0 <= i < |c.canon| ==> m.sim(name, c.canon[i]) < 0.85 || !m.cosine(name, c.canon[i])
    ensures Assign(m, c, name) == Clusters(c.canon + [name], c.ids[name := |c.canon|])
  {
    var cs := m.Candidates(name, c.canon);
    assert forall i :: 0 <= i < |cs| ==> !cs[i].Accepted();
  }

  function ResolveAll(m: Measure, names: seq<string>): Clusters {
    if names == [] then Clusters([], map[])
    else Assign(m, ResolveAll(m, names[..|names| - 1]), names[|names| - 1])
  }

  lemma ResolveOneMore(m: Measure, names: seq<string>, n: nat)
    requires n < |names|
    ensures ResolveAll(m, names[..n + 1]) == Assign(m, ResolveAll(m, names[..n]), names[n])
  {
    assert names[..n + 1][..n] == names[..n];
  }

  /** No two canonical entries pass both thresholds against each other. */
  ghost predicate Independent(m: Measure, canon: seq<string>) {
    forall i, j :: 0 <= i < j < |canon| ==> !m.Merges(canon[i], canon[j])
  }

  /** Every name is its canonical entry or passes both thresholds against it. */
  ghost predicate Covered(m: Measure, c: Clusters) {
    forall x :: x in c.ids ==>
      c.ids[x] < |c.canon| && (x == c.canon[c.ids[x]] || m.Merges(x, c.canon[c.ids[x]]))
  }

  ghost predicate LastOccurrence(canon: seq<string>, i: nat) {
    i < |canon| && forall j :: i < j < |canon| ==> canon[j] != canon[i]
  }

  /** An entry's name maps back to the entry exactly when no later entry has the same name. */
  ghost predicate Fixed(c: Clusters) {
    forall i :: 0 <= i < |c.canon| ==>
      c.canon[i] in c.ids && (c.ids[c.canon[i]] == i <==> LastOccurrence(c.canon, i))
  }

  ghost predicate Invariant(m: Measure, c: Clusters) {
    Independent(m, c.canon) && Covered(m, c) && Fixed(c)
  }

  lemma MergeKeepsInvariant(m: Measure, c: Clusters, name: string, i: nat)
    requires m.Symmetric() && Invariant(m, c) && Best(m.Candidates(name, c.canon)) == Some(i)
    ensures Invariant(m, Assign(m, c, name))
  {
    assert m.Merges(name, c.canon[i]) && m.Merges(c.canon[i], name);
    assert forall k :: 0 <= k < |c.canon| && c.canon[k] == name ==> k == i;
    assert forall k :: 0 <= k < |c.canon| && c.canon[k] == name ==> LastOccurrence(c.canon, k);
  }

  lemma LastOccurrenceAppended(canon: seq<string>, name: string, i: nat)
    requires i < |canon|
    ensures LastOccurrence(canon + [name], i) <==> LastOccurrence(canon, i) && canon[i] != name
  {
    var all := canon + [name];
    assert all[|canon|] == name;
    assert forall j :: i < j < |canon| ==> all[j] == canon[j];
  }

  lemma OpenKeepsInvariant(m: Measure, c: Clusters, name: string)
    requires m.Symmetric() && Invariant(m, c) && Best(m.Candidates(name, c.canon)).None?
    ensures Invariant(m, Assign(m, c, name))
  {
    var cs := m.Candidates(name, c.canon);
    forall i | 0 <= i < |c.canon| ensures !m.Merges(c.canon[i], name) {
      assert !cs[i].Accepted();
      assert m.Merges(c.canon[i], name) ==> m.Merges(name, c.canon[i]);
    }
    forall i | 0 <= i < |c.canon|
      ensures LastOccurrence(c.canon + [name], i) <==> LastOccurrence(c.canon, i) && c.canon[i] != name
    {
      LastOccurrenceAppended(c.canon, name, i);
    }
  }

  lemma AssignKeepsInvariant(m: Measure, c: Clusters, name: string)
    requires m.Symmetric() && Invariant(m, c)
    ensures Invariant(m, Assign(m, c, name))
  {
    match Best(m.Candidates(name, c.canon))
    case Some(i) => MergeKeepsInvariant(m, c, name, i);
    case None => OpenKeepsInvariant(m, c, name);
  }

  lemma {:induction false} IdsAreNames(m: Measure, names: seq<string>, x: string)
    ensures x in ResolveAll(m, names).ids <==> x in names
  {
    if names != [] {
      var n := |names| - 1;
      IdsAreNames(m, names[..n], x);
      assert names == names[..n] + [names[n]];
    }
  }

  /** The clustering invariants hold after every prefix of every input list. */
  lemma {:induction false} ClusteringInvariant(m: Measure, names: seq<string>)
    requires m.Symmetric()
    ensures Invariant(m, ResolveAll(m, names))
  {
    if names != [] {
      var n := |names| - 1;
      ClusteringInvariant(m, names[..n]);
      AssignKeepsInvariant(m, ResolveAll(m, names[..n]), names[n]);
    }
  }

  /**
   * A canonical name ends up with its own index exactly when it passes the
   * thresholds against itself or no later entry repeats it.
   */
  lemma CanonicalFixedExactly(m: Measure, names: seq<string>, i: nat)
    requires m.Symmetric() && i < |ResolveAll(m, names).canon|
    ensures var c := ResolveAll(m, names);
      && c.canon[i] in c.ids
      && (c.ids[c.canon[i]] == i <==>
          m.Merges(c.canon[i], c.canon[i]) || LastOccurrence(c.canon, i))
  {
    ClusteringInvariant(m, names);
  }

  /** A name that merges with no name. */
  ghost predicate Loner(m: Measure, x: string) {
    forall y :: !m.Merges(x, y)
  }

  lemma LonerOpens(m: Measure, c: Clusters, x: string)
    requires Loner(m, x)
    ensures Assign(m, c, x).canon == c.canon + [x]
  {
    var cs := m.Candidates(x, c.canon);
    assert forall i :: 0 <= i < |cs| ==> !m.Merges(x, c.canon[i]);
    BestUnique(cs, Best(cs), None);
  }

  lemma LonerNext(m: Measure, c: Clusters, name: string, x: string)
    requires Loner(m, x)
    ensures multiset(Assign(m, c, name).canon)[x] == multiset(c.canon)[x] + (if name == x then 1 else 0)
  {
    if name == x {
      LonerOpens(m, c, x);
    }
  }

  /** A loner has one canonical entry for each of its occurrences. */
  lemma {:induction false} LonerEntries(m: Measure, names: seq<string>, x: string)
    requires Loner(m, x)
    ensures multiset(ResolveAll(m, names).canon)[x] == multiset(names)[x]
    decreases |names|
  {
    if names != [] {
      var front, last := names[..|names| - 1], names[|names| - 1];
      LonerEntries(m, front, x);
      LonerNext(m, ResolveAll(m, front), last, x);
      assert names == front + [last];
      CountAppended(front, [last], x);
    }
  }

  /** The entries of `x`, if it has one, all keep their index. */
  ghost predicate KeepsIndex(c: Clusters, x: string) {
    x in c.ids && forall i :: 0 <= i < |c.canon| && c.canon[i] == x ==> c.ids[x] == i
  }

  lemma {:induction false} CountPositive(s: seq<string>, x: string)
    ensures multiset(s)[x] > 0 <==> exists i :: 0 <= i < |s| && s[i] == x
  {
  }

  /** What occurs once occurs at one place only. */
  lemma {:induction false} OccursOnce(s: seq<string>, x: string)
    ensures multiset(s)[x] <= 1 <==> forall i, j :: 0 <= i < j < |s| && s[i] == x ==> s[j] != x
  {
    if s != [] {
      var n := |s| - 1;
      OccursOnce(s[..n], x);
      assert s == s[..n] + [s[n]];
      assert forall i :: 0 <= i < n ==> s[..n][i] == s[i];
      CountPositive(s[..n], x);
    }
  }

  /** A canonical name keeps the index of all its entries exactly if it merges with itself or has one entry. */
  lemma KeepsIndexExactly(m: Measure, names: seq<string>, x: string)
    requires m.Symmetric() && x in ResolveAll(m, names).canon
    ensures var c := ResolveAll(m, names);
      KeepsIndex(c, x) <==> m.Merges(x, x) || multiset(c.canon)[x] <= 1
  {
    var c := ResolveAll(m, names);
    ClusteringInvariant(m, names);
    OccursOnce(c.canon, x);
    var i :| 0 <= i < |c.canon| && c.canon[i] == x;
    assert c.canon[i] in c.ids;
    if KeepsIndex(c, x) {
      forall k, l | 0 <= k < l < |c.canon| && c.canon[k] == x ensures c.canon[l] != x {
        assert c.ids[c.canon[k]] == k;
      }
    }
    if m.Merges(x, x) || multiset(c.canon)[x] <= 1 {
      forall k | 0 <= k < |c.canon| && c.canon[k] == x ensures c.ids[x] == k {
        CanonicalFixedExactly(m, names, k);
      }
    }
  }

  /** Two names with the same canonical id are within twice the merge distance. */
  lemma GroupedAreClose(m: Measure, names: seq<string>, x: string, y: string)
    requires m.Symmetric() && m.Metric() && x in names && y in names
    ensures var ids := ResolveAll(m, names).ids;
      x in ids && y in ids && (ids[x] == ids[y] ==> m.sim(x, y) >= 2.0 * TRGM_MERGE - 1.0)
  {
    ClusteringInvariant(m, names);
    IdsAreNames(m, names, x);
    IdsAreNames(m, names, y);
    var c := ResolveAll(m, names);
    if c.ids[x] == c.ids[y] {
      var centre := c.canon[c.ids[x]];
      assert m.sim(x, y) >= m.sim(x, centre) + m.sim(centre, y) - 1.0;
    }
  }
}
