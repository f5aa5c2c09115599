/**
 * Trigram similarity of entity names: the Jaccard index of two trigram sets.
 *
 * The distance `1 - Jaccard` is a metric, which is what keeps names that are
 * grouped around one canonical entry close to each other.
 */
module Jaccard {
  import opened FiniteSets
  import opened RealOrder

  function Index<T>(a: set<T>, b: set<T>): (r: real)
    ensures 0.0 <= r <= 1.0
  {
    if |a + b| == 0 then 0.0
    else
      SubsetCard(a * b, a + b);
      Fraction(|a * b| as real, |a + b| as real);
      |a * b| as real / |a + b| as real
  }

  /** The index of a set and a superset compares with `r` as their sizes do. */
  lemma SubsetIndex<T>(a: set<T>, b: set<T>, p: real, q: real, r: real, rq: real)
    requires a <= b && b != {} && p == |a| as real && q == |b| as real && rq == r * q
    ensures Index(a, b) == Index(b, a)
    ensures (p >= rq ==> Index(a, b) >= r) && (p <= rq ==> Index(a, b) <= r)
  {
    assert a * b == a == b * a && a + b == b == b + a;
    Quotients(p, r, q, p / q, rq);
  }

  lemma Fraction(p: real, q: real)
    requires 0.0 <= p <= q && 0.0 < q
    ensures 0.0 <= p / q <= 1.0
  {
    Quotients(p, 1.0, q, p / q, q);
    Quotients(p, 0.0, q, p / q, 0.0);
  }

  function Distance<T>(a: set<T>, b: set<T>): (d: real)
    ensures 0.0 <= d <= 1.0
  {
    1.0 - Index(a, b)
  }

  function SymDiff<T>(a: set<T>, b: set<T>): set<T> {
    (a - b) + (b - a)
  }

  lemma SymDiffCard<T>(a: set<T>, b: set<T>)
    ensures |SymDiff(a, b)| == |a + b| - |a * b|
  {
    assert a + b == SymDiff(a, b) + a * b;
    assert SymDiff(a, b) !! a * b;
  }

  lemma DistanceIsRatio<T>(a: set<T>, b: set<T>) returns (d: real, p: real, q: real)
    requires a + b != {}
    ensures d == Distance(a, b) && p == |SymDiff(a, b)| as real && q == |a + b| as real
    ensures d * q == p
  {
    d, p, q := Distance(a, b), |SymDiff(a, b)| as real, |a + b| as real;
    SymDiffCard(a, b);
  }

  /** Only equal sets have distance zero. */
  lemma DistanceZero<T>(a: set<T>, b: set<T>)
    requires a + b != {}
    ensures Distance(a, b) == 0.0 <==> a == b
  {
    var d, p, q := DistanceIsRatio(a, b);
    assert p == 0.0 <==> SymDiff(a, b) == {};
    assert SymDiff(a, b) == {} <==> a == b;
    Products(0.0, d, q, 0.0, p);
  }

  /**
   * The arithmetic of the triangle inequality: `w` bounds the union sizes, and
   * `k` is what the middle set adds to the union of the outer two.
   */
  lemma RatioTriangle(dab: real, dbc: real, dac: real, pab: real, pbc: real, pac: real,
                      qab: real, qbc: real, qac: real, k: real, w: real)
    requires 0.0 <= qab <= w && 0.0 <= qbc <= w && 0.0 < w == qac + k && 0.0 <= k
    requires 0.0 <= dab && 0.0 <= dbc && dac <= 1.0
    requires dab * qab == pab && dbc * qbc == pbc && dac * qac == pac
    requires pac + k <= pab + pbc
    ensures dac <= dab + dbc
  {
    var sum := dab + dbc;
    var dabw, dbcw, dacw, dack, sumw := dab * w, dbc * w, dac * w, dac * k, sum * w;
    Products(qab, w, dab, pab, dabw);
    Products(qbc, w, dbc, pbc, dbcw);
    Products(dac, 1.0, k, dack, k);
    assert dacw == pac + dack;
    assert sumw == dabw + dbcw;
    Products(sum, dac, w, sumw, dacw);
  }

  /** `1 - Jaccard` satisfies the triangle inequality, for empty sets too. */
  lemma Triangle<T>(a: set<T>, b: set<T>, c: set<T>)
    ensures Distance(a, c) <= Distance(a, b) + Distance(b, c)
  {
    if a == {} || b == {} || c == {} {
      EmptyIsFar(a, b);
      EmptyIsFar(b, c);
    } else {
      var dab, pab, qab := DistanceIsRatio(a, b);
      var dbc, pbc, qbc := DistanceIsRatio(b, c);
      var dac, pac, qac := DistanceIsRatio(a, c);
      UnionSizes(a, b, c);
      Detour(a, b, c);
      RatioTriangle(dab, dbc, dac, pab, pbc, pac, qab, qbc, qac,
                    |b - (a + c)| as real, |a + b + c| as real);
    }
  }

  lemma UnionSizes<T>(a: set<T>, b: set<T>, c: set<T>)
    ensures |a + b| <= |a + b + c| && |b + c| <= |a + b + c|
    ensures |a + b + c| == |a + c| + |b - (a + c)|
    ensures a != {} ==> |a + b + c| > 0
  {
    SubsetCard(a + b, a + b + c);
    SubsetCard(b + c, a + b + c);
    SubsetCard(a, a + b + c);
    assert a + b + c == (a + c) + (b - (a + c));
  }

  lemma EmptyIsFar<T>(a: set<T>, b: set<T>)
    ensures a == {} || b == {} ==> Distance(a, b) == 1.0
  {
    if a == {} || b == {} {
      assert a * b == {};
    }
  }

  lemma Detour<T>(a: set<T>, b: set<T>, c: set<T>)
    ensures |SymDiff(a, c)| + |b - (a + c)| <= |SymDiff(a, b)| + |SymDiff(b, c)|
  {
    var direct := SymDiff(a, c) + (b - (a + c));
    assert SymDiff(a, c) !! (b - (a + c));
    SubsetCard(direct, SymDiff(a, b) + SymDiff(b, c));
  }
}

module Trigram {
  import opened Jaccard
  import opened Prelude

  /** The Unicode functions of the host language, taken as given. */
  datatype Text = Text(lower: string -> string, utf8: string -> seq<Byte>)

  function Padded(t: Text, s: string): string {
    "  " + t.lower(s) + "  "
  }

  function Window(p: string, i: nat): string
    requires i + 3 <= |p|
  {
    p[i..i + 3]
  }

  function Trigrams(t: Text, s: string): (grams: set<string>)
    ensures grams != {}
  {
    var p := Padded(t, s);
    var grams := set i | 0 <= i <= |p| - 3 :: Window(p, i);
    assert Window(p, 0) in grams;
    grams
  }

  function Similarity(t: Text, a: string, b: string): (r: real)
    ensures 0.0 <= r <= 1.0
  {
    Index(Trigrams(t, a), Trigrams(t, b))
  }

  /** The windows of a text are its substrings of length three. */
  lemma WindowsAreSubstrings(p: string, g: string)
    ensures (exists i :: 0 <= i <= |p| - 3 && Window(p, i) == g) <==> |g| == 3 && exists pre, post :: p == pre + g + post
  {
    if i :| 0 <= i <= |p| - 3 && Window(p, i) == g {
      assert p == p[..i] + g + p[i + 3..];
    }
    if pre, post :| |g| == 3 && p == pre + g + post {
      assert Window(p, |pre|) == g;
    }
  }

  method CollectTrigrams(t: Text, s: string) returns (grams: set<string>)
    ensures grams == Trigrams(t, s)
    ensures forall g :: g in grams <==> |g| == 3 && exists pre, post :: "  " + t.lower(s) + "  " == pre + g + post
  {
    var p := "  " + t.lower(s) + "  ";
    grams := {};
    for i := 0 to |p| - 2
      invariant grams == set k | 0 <= k < i :: Window(p, k)
    {
      grams := grams + {Window(p, i)};
    }
    forall g ensures g in grams <==> |g| == 3 && exists pre, post :: p == pre + g + post {
      WindowsAreSubstrings(p, g);
    }
  }

  /** `ta` and `tb` are the trigrams of the two names: the substrings of length three of the padded lower-case name. */
  method TrgmSim(t: Text, a: string, b: string) returns (sim: real, ghost ta: set<string>, ghost tb: set<string>)
    ensures sim == Similarity(t, a, b)
    ensures forall g :: g in ta <==> |g| == 3 && exists pre, post :: "  " + t.lower(a) + "  " == pre + g + post
    ensures forall g :: g in tb <==> |g| == 3 && exists pre, post :: "  " + t.lower(b) + "  " == pre + g + post
    ensures |ta + tb| > 0 && sim == |ta * tb| as real / |ta + tb| as real
  {
    var ga := CollectTrigrams(t, a);
    var gb := CollectTrigrams(t, b);
    ta, tb := ga, gb;
    var inter := |ga * gb|;
    var union := |ga + gb|;
    sim := if union == 0 then 0.0 else inter as real / union as real;
    assert ga <= ga + gb;
  }

  lemma SimilaritySymmetric(t: Text, a: string, b: string)
    ensures Similarity(t, a, b) == Similarity(t, b, a)
  {
    assert Trigrams(t, a) * Trigrams(t, b) == Trigrams(t, b) * Trigrams(t, a);
    assert Trigrams(t, a) + Trigrams(t, b) == Trigrams(t, b) + Trigrams(t, a);
  }

  /** Similarity is one exactly for names with the same trigrams. */
  lemma SimilarityOne(t: Text, a: string, b: string)
    ensures Similarity(t, a, b) == 1.0 <==> Trigrams(t, a) == Trigrams(t, b)
  {
    DistanceZero(Trigrams(t, a), Trigrams(t, b));
  }

  /** Names that differ in case only are the same to every comparison. */
  lemma SameLowerSame(t: Text, a: string, b: string)
    requires t.lower(a) == t.lower(b)
    ensures Similarity(t, a, b) == 1.0
    ensures forall c :: Similarity(t, a, c) == Similarity(t, b, c) && Similarity(t, c, a) == Similarity(t, c, b)
  {
    SimilarityOne(t, a, b);
  }

  /** Two names within `p` and `q` of a third are within `p + q` of each other. */
  lemma SimilarityChains(t: Text, a: string, b: string, c: string)
    ensures Similarity(t, a, c) >= Similarity(t, a, b) + Similarity(t, b, c) - 1.0
  {
    Triangle(Trigrams(t, a), Trigrams(t, b), Trigrams(t, c));
  }
}
