/**
 * Two spellings of a name that differ in case: when they get one canonical id,
 * and three names between which they do not.
 */
module NameSpellings {
  import opened Prelude
  import opened FiniteSets
  import opened Jaccard
  import opened Trigram
  import opened NameEmbedding
  import opened MergeScan
  import opened Clustering
  import opened CanonicalIds
  import opened NameTwins

  lemma SpellingsAlike(t: Text, x: string, y: string)
    requires t.lower(x) == t.lower(y)
    ensures Alike(NameMeasure(t), x, y)
  {
    SameLowerSame(t, x, y);
    assert NameVec(t, x) == NameVec(t, y);
  }

  /**
   * The later of two spellings gets the id of the earlier one if and only if
   * no entry opened between their last occurrences passes both thresholds
   * against them and is closer to them than the entry the earlier one got.
   */
  lemma SpellingsShareExactly(t: Text, names: seq<string>, x: string, y: string, p: nat, q: nat)
    requires t.lower(x) == t.lower(y) && !Zero(LaneSums(t.utf8(t.lower(x))))
    requires p < q && LastAt(names, p, x) && LastAt(names, q, y)
    ensures var m := NameMeasure(t);
      var c, before, ids := ResolveAll(m, names[..p + 1]), ResolveAll(m, names[..q]), ResolveAll(m, names).ids;
      && x in ids && y in ids && x in c.ids && c.ids[x] < |c.canon| <= |before.canon|
      && (ids[x] == ids[y] <==>
            forall k :: |c.canon| <= k < |before.canon| ==>
              || Similarity(t, x, before.canon[k]) < 0.85
              || !Clears(LaneSums(t.utf8(t.lower(x))), LaneSums(t.utf8(t.lower(before.canon[k]))))
              || Similarity(t, x, before.canon[k]) <= Similarity(t, x, c.canon[c.ids[x]]))
  {
    SpellingsAlike(t, x, y);
    MergesItself(t, x);
    ShareExactly(NameMeasure(t), names, x, y, p, q);
  }

  /** So they share it whenever the earlier one's entry is a spelling of the name, as it is if that one opened it. */
  lemma EntrySpellingShares(t: Text, names: seq<string>, x: string, y: string, p: nat, q: nat)
    requires t.lower(x) == t.lower(y) && !Zero(LaneSums(t.utf8(t.lower(x))))
    requires p < q && LastAt(names, p, x) && LastAt(names, q, y)
    requires var c := ResolveAll(NameMeasure(t), names[..p + 1]);
      x in c.ids && c.ids[x] < |c.canon| && t.lower(c.canon[c.ids[x]]) == t.lower(x)
    ensures var ids := ResolveAll(NameMeasure(t), names).ids; x in ids && y in ids && ids[x] == ids[y]
  {
    var c := ResolveAll(NameMeasure(t), names[..p + 1]);
    SpellingsShareExactly(t, names, x, y, p, q);
    SameLowerSame(t, x, c.canon[c.ids[x]]);
  }

  lemma {:induction false} EntriesAreNames(m: Measure, names: seq<string>, k: nat)
    requires k < |ResolveAll(m, names).canon|
    ensures ResolveAll(m, names).canon[k] in names
  {
    var n := |names| - 1;
    assert names == names[..n] + [names[n]];
    if k < |ResolveAll(m, names[..n]).canon| {
      EntriesAreNames(m, names[..n], k);
    }
  }

  /** And whenever every name of the input that passes both thresholds against it is a spelling of it. */
  lemma LoneSpellingsShare(t: Text, names: seq<string>, x: string, y: string)
    requires t.lower(x) == t.lower(y) && !Zero(LaneSums(t.utf8(t.lower(x)))) && x in names && y in names
    requires forall n :: n in names && t.lower(n) != t.lower(x) ==>
      Similarity(t, x, n) < 0.85 || !Clears(LaneSums(t.utf8(t.lower(x))), LaneSums(t.utf8(t.lower(n))))
    ensures var ids := ResolveAll(NameMeasure(t), names).ids; x in ids && y in ids && ids[x] == ids[y]
  {
    var m := NameMeasure(t);
    var c := ResolveAll(m, names);
    NameMeasureSymmetric(t);
    ClusteringInvariant(m, names);
    IdsAreNames(m, names, x);
    IdsAreNames(m, names, y);
    SpellingsAlike(t, x, y);
    var d, e := c.canon[c.ids[x]], c.canon[c.ids[y]];
    EntriesAreNames(m, names, c.ids[x]);
    EntriesAreNames(m, names, c.ids[y]);
    assert m.Candidate(x, e) == m.Candidate(y, e);
    assert t.lower(d) == t.lower(x) && t.lower(e) == t.lower(x);
    SameLowerSame(t, d, e);
    MergesItself(t, x);
    assert m.Merges(d, e) && m.Merges(e, d);
  }

  lemma WindowIs(p: string, i: nat, a: char, b: char, c: char)
    requires i + 3 <= |p| && p[i] == a && p[i + 1] == b && p[i + 2] == c
    ensures Window(p, i) == [a, b, c]
  {
  }

  /** The trigrams of a padded text, listed window by window. */
  lemma GramsOf(t: Text, s: string, list: seq<string>)
    requires |list| == |Padded(t, s)| - 2
    requires forall i :: 0 <= i < |list| ==> list[i] == Window(Padded(t, s), i)
    ensures forall g :: g in Trigrams(t, s) <==> g in list
  {
    forall g ensures g in Trigrams(t, s) <==> g in list {
      if g in Trigrams(t, s) {
        var i :| 0 <= i <= |Padded(t, s)| - 3 && Window(Padded(t, s), i) == g;
        assert list[i] == g;
      }
    }
  }

  lemma FirstGrams(t: Text)
    requires t.lower("abbabba") == "abbabba"
    ensures forall g :: g in Trigrams(t, "abbabba") <==>
      g in ["  a", " ab", "abb", "bba", "bab", "abb", "bba", "ba ", "a  "]
  {
    var p, list := "  abbabba  ", ["  a", " ab", "abb", "bba", "bab", "abb", "bba", "ba ", "a  "];
    assert Padded(t, "abbabba") == p;
    WindowIs(p, 0, ' ', ' ', 'a');
    WindowIs(p, 1, ' ', 'a', 'b');
    WindowIs(p, 2, 'a', 'b', 'b');
    WindowIs(p, 3, 'b', 'b', 'a');
    WindowIs(p, 4, 'b', 'a', 'b');
    WindowIs(p, 5, 'a', 'b', 'b');
    WindowIs(p, 6, 'b', 'b', 'a');
    WindowIs(p, 7, 'b', 'a', ' ');
    WindowIs(p, 8, 'a', ' ', ' ');
    GramsOf(t, "abbabba", list);
  }

  lemma SecondGrams(t: Text)
    requires t.lower("abababba") == "abababba"
    ensures forall g :: g in Trigrams(t, "abababba") <==>
      g in ["  a", " ab", "aba", "bab", "aba", "bab", "abb", "bba", "ba ", "a  "]
  {
    var p, list := "  abababba  ", ["  a", " ab", "aba", "bab", "aba", "bab", "abb", "bba", "ba ", "a  "];
    assert Padded(t, "abababba") == p;
    WindowIs(p, 0, ' ', ' ', 'a');
    WindowIs(p, 1, ' ', 'a', 'b');
    WindowIs(p, 2, 'a', 'b', 'a');
    WindowIs(p, 3, 'b', 'a', 'b');
    WindowIs(p, 4, 'a', 'b', 'a');
    WindowIs(p, 5, 'b', 'a', 'b');
    WindowIs(p, 6, 'a', 'b', 'b');
    WindowIs(p, 7, 'b', 'b', 'a');
    WindowIs(p, 8, 'b', 'a', ' ');
    WindowIs(p, 9, 'a', ' ', ' ');
    GramsOf(t, "abababba", list);
  }

  lemma ThirdGrams(t: Text)
    requires t.lower("ababbba") == "ababbba"
    ensures forall g :: g in Trigrams(t, "ababbba") <==>
      g in ["  a", " ab", "aba", "bab", "abb", "bbb", "bba", "ba ", "a  "]
  {
    var p, list := "  ababbba  ", ["  a", " ab", "aba", "bab", "abb", "bbb", "bba", "ba ", "a  "];
    assert Padded(t, "ababbba") == p;
    WindowIs(p, 0, ' ', ' ', 'a');
    WindowIs(p, 1, ' ', 'a', 'b');
    WindowIs(p, 2, 'a', 'b', 'a');
    WindowIs(p, 3, 'b', 'a', 'b');
    WindowIs(p, 4, 'a', 'b', 'b');
    WindowIs(p, 5, 'b', 'b', 'b');
    WindowIs(p, 6, 'b', 'b', 'a');
    WindowIs(p, 7, 'b', 'a', ' ');
    WindowIs(p, 8, 'a', ' ', ' ');
    GramsOf(t, "ababbba", list);
  }

  /** The nine trigrams of the three names; the first has the first seven, the second one more, the third all. */
  const NINE := ["  a", " ab", "abb", "bba", "bab", "ba ", "a  ", "aba", "bbb"]

  lemma NineDistinct()
    ensures Distinct(NINE)
  {
    var u := NINE;
    assert u[0][1] == ' ' && u[6][1] == ' ' && u[6][0] == 'a' && u[0][0] == ' ' && u[1][0] == ' ' && u[1][1] == 'a';
    assert u[2] == ['a', 'b', 'b'] && u[3] == ['b', 'b', 'a'] && u[4] == ['b', 'a', 'b'] && u[5] == ['b', 'a', ' '];
    assert u[7] == ['a', 'b', 'a'] && u[8] == ['b', 'b', 'b'];
  }

  lemma Repeats<T>(x: T, a: T, b: T, c: T, d: T, e: T, f: T, g: T, h: T, i: T)
    ensures x in [a, b, c, d, e, c, d, f, g] <==> x in [a, b, c, d, e, f, g]
    ensures x in [a, b, h, e, h, e, c, d, f, g] <==> x in [a, b, c, d, e, f, g, h]
    ensures x in [a, b, h, e, c, i, d, f, g] <==> x in [a, b, c, d, e, f, g, h, i]
  {
  }

  lemma GramSets(t: Text)
    requires t.lower("abbabba") == "abbabba" && t.lower("abababba") == "abababba" && t.lower("ababbba") == "ababbba"
    ensures Trigrams(t, "abbabba") == Elements(NINE[..7])
    ensures Trigrams(t, "abababba") == Elements(NINE[..8])
    ensures Trigrams(t, "ababbba") == Elements(NINE[..9])
  {
    FirstGrams(t);
    SecondGrams(t);
    ThirdGrams(t);
    assert NINE[..7] == ["  a", " ab", "abb", "bba", "bab", "ba ", "a  "];
    assert NINE[..9] == NINE;
    assert NINE[..8] == ["  a", " ab", "abb", "bba", "bab", "ba ", "a  ", "aba"];
    forall x
      ensures x in Trigrams(t, "abbabba") <==> x in NINE[..7]
      ensures x in Trigrams(t, "abababba") <==> x in NINE[..8]
      ensures x in Trigrams(t, "ababbba") <==> x in NINE
    {
      Repeats(x, "  a", " ab", "abb", "bba", "bab", "ba ", "a  ", "aba", "bbb");
    }
  }

  lemma NestedIndex<T>(u: seq<T>, m: nat, n: nat, p: real, q: real, r: real, rq: real)
    requires Distinct(u) && 0 < m <= n <= |u| && p == m as real && q == n as real && rq == r * q
    ensures var a, b := Elements(u[..m]), Elements(u[..n]);
      && Index(a, b) == Index(b, a)
      && (p >= rq ==> Index(a, b) >= r) && (p <= rq ==> Index(a, b) <= r)
  {
    DistinctCard(u[..m]);
    DistinctCard(u[..n]);
    assert u[..n][..m] == u[..m];
    SubsetIndex(Elements(u[..m]), Elements(u[..n]), p, q, r, rq);
  }

  lemma FirstAtLeast(t: Text)
    requires Trigrams(t, "abbabba") == Elements(NINE[..7]) && Trigrams(t, "abababba") == Elements(NINE[..8])
    ensures Similarity(t, "abababba", "abbabba") >= 0.85
  {
    NineDistinct();
    NestedIndex(NINE, 7, 8, 7.0, 8.0, 0.85, 6.8);
  }

  lemma FirstAtMost(t: Text)
    requires Trigrams(t, "abbabba") == Elements(NINE[..7]) && Trigrams(t, "abababba") == Elements(NINE[..8])
    ensures Similarity(t, "abababba", "abbabba") <= 0.875
  {
    NineDistinct();
    NestedIndex(NINE, 7, 8, 7.0, 8.0, 0.875, 7.0);
  }

  lemma ThirdAtLeast(t: Text)
    requires Trigrams(t, "abababba") == Elements(NINE[..8]) && Trigrams(t, "ababbba") == Elements(NINE[..9])
    ensures Similarity(t, "abababba", "ababbba") >= 0.88
  {
    NineDistinct();
    NestedIndex(NINE, 8, 9, 8.0, 9.0, 0.88, 7.92);
  }

  lemma OuterAtMost(t: Text)
    requires Trigrams(t, "abbabba") == Elements(NINE[..7]) && Trigrams(t, "ababbba") == Elements(NINE[..9])
    ensures Similarity(t, "ababbba", "abbabba") <= 0.80
  {
    NineDistinct();
    NestedIndex(NINE, 7, 9, 7.0, 9.0, 0.80, 7.2);
  }

  /** They are 7/8, 8/9 and 7/9. */
  lemma ThreeSimilarities(t: Text)
    requires t.lower("abbabba") == "abbabba" && t.lower("abababba") == "abababba" && t.lower("ababbba") == "ababbba"
    ensures 0.85 <= Similarity(t, "abababba", "abbabba") <= 0.875
    ensures 0.88 <= Similarity(t, "abababba", "ababbba")
    ensures Similarity(t, "ababbba", "abbabba") <= 0.80
  {
    GramSets(t);
    FirstAtLeast(t);
    FirstAtMost(t);
    ThirdAtLeast(t);
    OuterAtMost(t);
  }

  lemma SumOfEight(xs: seq<real>)
    requires |xs| == 8
    ensures Sum(xs) == xs[0] + xs[1] + xs[2] + xs[3] + xs[4] + xs[5] + xs[6] + xs[7]
  {
    SumTail(xs, 0);
    SumTail(xs, 1);
    SumTail(xs, 2);
    SumTail(xs, 3);
    SumTail(xs, 4);
    SumTail(xs, 5);
    SumTail(xs, 6);
    SumTail(xs, 7);
    assert xs[0..] == xs && xs[8..] == [];
  }

  lemma SumTail(xs: seq<real>, i: nat)
    requires i < |xs|
    ensures Sum(xs[i..]) == xs[i] + Sum(xs[i + 1..])
  {
    assert xs[i..][1..] == xs[i + 1..];
  }

  /** The lanes of three names of at most eight letters. */
  const LANES_A: Vector := [97.0, 98.0, 98.0, 97.0, 98.0, 98.0, 97.0, 0.0]
  const LANES_X: Vector := [97.0, 98.0, 97.0, 98.0, 97.0, 98.0, 98.0, 97.0]
  const LANES_Z: Vector := [97.0, 98.0, 97.0, 98.0, 98.0, 98.0, 97.0, 0.0]

  lemma DotValue(a: Vector, b: Vector, products: seq<real>, total: real)
    requires |a| == |b| == |products| == 8 && forall i :: 0 <= i < 8 ==> products[i] == a[i] * b[i]
    requires total == products[0] + products[1] + products[2] + products[3] + products[4] + products[5] + products[6]
      + products[7]
    ensures Dot(a, b) == total && (a == b ==> NormSq(a) == total)
  {
    DotIsSum(a, b, products);
    SumOfEight(products);
    NormSqIsDot(a);
  }

  lemma FirstNorm()
    ensures NormSq(LANES_A) == 66643.0
  {
    DotValue(LANES_A, LANES_A, [9409.0, 9604.0, 9604.0, 9409.0, 9604.0, 9604.0, 9409.0, 0.0], 66643.0);
  }

  lemma SecondNorm()
    ensures NormSq(LANES_X) == 76052.0
  {
    DotValue(LANES_X, LANES_X, [9409.0, 9604.0, 9409.0, 9604.0, 9409.0, 9604.0, 9604.0, 9409.0], 76052.0);
  }

  lemma ThirdNorm()
    ensures NormSq(LANES_Z) == 66643.0
  {
    DotValue(LANES_Z, LANES_Z, [9409.0, 9604.0, 9409.0, 9604.0, 9604.0, 9604.0, 9409.0, 0.0], 66643.0);
  }

  lemma SecondFirst()
    ensures Dot(LANES_X, LANES_A) == 66641.0
  {
    DotValue(LANES_X, LANES_A, [9409.0, 9604.0, 9506.0, 9506.0, 9506.0, 9604.0, 9506.0, 0.0], 66641.0);
  }

  lemma SecondThird()
    ensures Dot(LANES_X, LANES_Z) == 66642.0
  {
    DotValue(LANES_X, LANES_Z, [9409.0, 9604.0, 9409.0, 9604.0, 9506.0, 9604.0, 9506.0, 0.0], 66642.0);
  }

  lemma ThreeVectors()
    ensures Clears(LANES_X, LANES_A) && Clears(LANES_X, LANES_Z)
  {
    FirstNorm();
    SecondNorm();
    ThirdNorm();
    SecondFirst();
    SecondThird();
  }

  lemma VectorIs(t: Text, name: string, bytes: seq<Byte>, v: Vector)
    requires t.utf8(t.lower(name)) == bytes && |bytes| <= 8 && |v| == 8
    requires forall i :: 0 <= i < 8 ==> v[i] == if i < |bytes| then bytes[i] as real else 0.0
    ensures NameVec(t, name) == v
  {
    forall i | 0 <= i < 8 ensures NameVec(t, name)[i] == v[i] {
      ShortLanes(bytes, i);
    }
  }

  /** Four names in this order: the second and the fourth are spellings of one name. */
  function FourNames(): seq<string> {
    ["abbabba", "abababba", "ababbba", "ABABABBA"]
  }

  /** What the lower-casing and the bytes of the four names are. */
  ghost predicate Ascii(t: Text) {
    && t.lower("abbabba") == "abbabba" && t.lower("ababbba") == "ababbba"
    && t.lower("abababba") == "abababba" && t.lower("ABABABBA") == "abababba"
    && t.utf8("abbabba") == [97, 98, 98, 97, 98, 98, 97]
    && t.utf8("abababba") == [97, 98, 97, 98, 97, 98, 98, 97]
    && t.utf8("ababbba") == [97, 98, 97, 98, 98, 98, 97]
  }

  lemma FourMeasures(t: Text)
    requires Ascii(t)
    ensures var m := NameMeasure(t);
      && m.Candidate("ABABABBA", "abbabba") == m.Candidate("abababba", "abbabba")
      && m.Candidate("ABABABBA", "ababbba") == m.Candidate("abababba", "ababbba")
      && m.Candidate("abababba", "abbabba").Accepted() && m.Candidate("abababba", "ababbba").Accepted()
      && m.sim("abababba", "abbabba") < m.sim("abababba", "ababbba")
      && !m.Candidate("ababbba", "abbabba").Accepted()
  {
    ThreeSimilarities(t);
    VectorIs(t, "abbabba", t.utf8("abbabba"), LANES_A);
    VectorIs(t, "abababba", t.utf8("abababba"), LANES_X);
    VectorIs(t, "ababbba", t.utf8("ababbba"), LANES_Z);
    ThreeVectors();
    SpellingsAlike(t, "abababba", "ABABABBA");
  }

  /**
   * Two spellings need not get one id: between them an entry is opened that is
   * closer to them than the entry the first of them joined.
   */
  lemma SpellingsPart(t: Text)
    requires Ascii(t)
    ensures var ids := ResolveAll(NameMeasure(t), FourNames()).ids;
      "abababba" in ids && "ABABABBA" in ids && ids["abababba"] == 0 && ids["ABABABBA"] == 1
  {
    FourMeasures(t);
    FourRounds(NameMeasure(t), "abbabba", "abababba", "ababbba", "ABABABBA");
  }

  lemma JoinsFirst(m: Measure, c: Clusters, name: string, a: string, s: Scored)
    requires c.canon == [a] && m.Candidate(name, a) == s && s.Accepted()
    ensures Assign(m, c, name) == c.(ids := c.ids[name := 0])
  {
    BestUnique(m.Candidates(name, [a]), Best(m.Candidates(name, [a])), Some(0));
  }

  lemma JoinsSecond(m: Measure, c: Clusters, name: string, a: string, z: string, r: Scored, s: Scored)
    requires c.canon == [a, z] && m.Candidate(name, a) == r && m.Candidate(name, z) == s && s.Accepted() && r.sim < s.sim
    ensures Assign(m, c, name) == c.(ids := c.ids[name := 1])
  {
    BestUnique(m.Candidates(name, [a, z]), Best(m.Candidates(name, [a, z])), Some(1));
  }

  lemma OpensSecond(m: Measure, c: Clusters, name: string, a: string)
    requires c.canon == [a] && !m.Candidate(name, a).Accepted()
    ensures Assign(m, c, name) == Clusters([a, name], c.ids[name := 1])
  {
    BestUnique(m.Candidates(name, [a]), Best(m.Candidates(name, [a])), None);
  }

  lemma FourRounds(m: Measure, a: string, x: string, z: string, y: string)
    requires m.Candidate(y, a) == m.Candidate(x, a) && m.Candidate(y, z) == m.Candidate(x, z)
    requires m.Candidate(x, a).Accepted() && m.Candidate(x, z).Accepted() && m.sim(x, a) < m.sim(x, z)
    requires !m.Candidate(z, a).Accepted()
    ensures ResolveAll(m, [a, x, z, y]) == Clusters([a, z], map[a := 0][x := 0][z := 1][y := 1])
  {
    var names := [a, x, z, y];
    var c1 := Clusters([a], map[a := 0]);
    var c2 := c1.(ids := c1.ids[x := 0]);
    var c3 := Clusters([a, z], c2.ids[z := 1]);
    assert names[..0] == [] && names[..4] == names;
    ResolveOneMore(m, names, 0);
    assert ResolveAll(m, names[..1]) == c1;
    ResolveOneMore(m, names, 1);
    JoinsFirst(m, c1, x, a, m.Candidate(x, a));
    ResolveOneMore(m, names, 2);
    OpensSecond(m, c2, z, a);
    ResolveOneMore(m, names, 3);
    JoinsSecond(m, c3, y, a, z, m.Candidate(x, a), m.Candidate(x, z));
  }
}
