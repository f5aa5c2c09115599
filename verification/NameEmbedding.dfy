/**
 * Name embeddings and the cosine test of the merge decision.
 *
 * `Clears(a, b)` says that the cosine of the two vectors is at least 0.90,
 * written with squares so that no square root is needed; `ClearsMeansCosine`
 * ties it to the quotient the resolver computes.
 */
module NameEmbedding {
  import opened Prelude
  import opened RealOrder

  const LANES := 8
  const COSINE_MERGE := 0.90

  function Dot(a: Vector, b: Vector): real
    requires |a| == |b|
  {
    if a == [] then 0.0 else a[0] * b[0] + Dot(a[1..], b[1..])
  }

  function NormSq(a: Vector): (r: real)
    ensures r >= 0.0
  {
    if a == [] then 0.0 else a[0] * a[0] + NormSq(a[1..])
  }

  lemma {:induction false} NormSqIsDot(a: Vector)
    ensures NormSq(a) == Dot(a, a)
  {
    if a != [] {
      NormSqIsDot(a[1..]);
    }
  }

  predicate Zero(a: Vector) {
    forall i :: 0 <= i < |a| ==> a[i] == 0.0
  }

  lemma {:induction false} NormSqZero(a: Vector)
    ensures NormSq(a) == 0.0 <==> Zero(a)
  {
    if a != [] {
      NormSqZero(a[1..]);
      SquareSign(a[0], a[0] * a[0]);
      assert forall i :: 1 <= i < |a| ==> a[i] == a[1..][i - 1];
      assert Zero(a) <==> a[0] == 0.0 && Zero(a[1..]);
    }
  }

  /** The cosine test on a dot product and two squared norms. */
  predicate Passes(d: real, na: real, nb: real) {
    na > 0.0 && nb > 0.0 && d >= 0.0 && 100.0 * (d * d) >= 81.0 * (na * nb)
  }

  predicate Clears(a: Vector, b: Vector) {
    |a| == |b| && Passes(Dot(a, b), NormSq(a), NormSq(b))
  }

  /**
   * `Clears` is the resolver's test: with `na` and `nb` the two norms, the
   * quotient `dot / (na * nb)` is at least 0.90; a mismatched length, an empty
   * vector or a zero norm counts as cosine zero.
   */
  function Cosine(a: Vector, b: Vector, na: real, nb: real): real {
    if |a| != |b| || a == [] then 0.0
    else if na == 0.0 || nb == 0.0 then 0.0
    else Dot(a, b) / (na * nb)
  }

  lemma ClearsMeansCosine(a: Vector, b: Vector, na: real, nb: real)
    requires na >= 0.0 && na * na == NormSq(a)
    requires nb >= 0.0 && nb * nb == NormSq(b)
    ensures Cosine(a, b, na, nb) >= 0.90 <==> Clears(a, b)
  {
    if |a| != |b| || na == 0.0 || nb == 0.0 {
      assert Cosine(a, b, na, nb) == 0.0 && !Clears(a, b);
    } else {
      var d, n := Dot(a, b), na * nb;
      assert a != [];
      QuotientSquared(d, na, nb, n, Cosine(a, b, na, nb), d * d, NormSq(a), NormSq(b));
    }
  }

  /** Comparing `d / n` with 0.9 is comparing `d * d` with `0.81 * (n * n)` once `d` is not negative. */
  lemma QuotientSquared(d: real, na: real, nb: real, n: real, q: real, dd: real, sa: real, sb: real)
    requires na > 0.0 && nb > 0.0 && n == na * nb && n != 0.0 && q == d / n
    requires dd == d * d && sa == na * na && sb == nb * nb
    ensures sa > 0.0 && sb > 0.0
    ensures q >= 0.90 <==> d >= 0.0 && 100.0 * dd >= 81.0 * (sa * sb)
  {
    Products(0.0, na, na, 0.0, sa);
    Products(0.0, nb, nb, 0.0, sb);
    Products(0.0, na, nb, 0.0, n);
    var m := 0.90 * n;
    Quotients(d, 0.90, n, q, m);
    if d >= 0.0 {
      Squares(m, d, 0.81 * (sa * sb), dd);
    }
  }

  lemma {:induction false} DotSymmetric(a: Vector, b: Vector)
    requires |a| == |b|
    ensures Dot(a, b) == Dot(b, a)
  {
    if a != [] {
      DotSymmetric(a[1..], b[1..]);
    }
  }

  lemma ClearsSymmetric(a: Vector, b: Vector)
    ensures Clears(a, b) == Clears(b, a)
  {
    if |a| == |b| {
      DotSymmetric(a, b);
    }
  }

  /** A vector clears the threshold against itself exactly when it is not zero. */
  lemma ClearsItself(a: Vector)
    ensures Clears(a, a) <==> !Zero(a)
  {
    NormSqIsDot(a);
    NormSqZero(a);
    assert NormSq(a) * NormSq(a) >= 0.0;
  }

  function Scale(k: real, a: Vector): (r: Vector)
    ensures |r| == |a|
    ensures forall i :: 0 <= i < |a| ==> r[i] == k * a[i]
  {
    if a == [] then [] else [k * a[0]] + Scale(k, a[1..])
  }

  /** `km` names the product `k * m`; likewise below. */
  lemma {:induction false} DotScale(k: real, m: real, km: real, a: Vector, b: Vector)
    requires |a| == |b| && km == k * m
    ensures Dot(Scale(k, a), Scale(m, b)) == km * Dot(a, b)
  {
    if a != [] {
      DotScale(k, m, km, a[1..], b[1..]);
      assert Scale(k, a)[1..] == Scale(k, a[1..]) && Scale(m, b)[1..] == Scale(m, b[1..]);
      ScaledTerm(k, m, km, a[0], b[0], Dot(a[1..], b[1..]));
    }
  }

  lemma ScaledTerm(k: real, m: real, km: real, x: real, y: real, rest: real)
    requires km == k * m
    ensures (k * x) * (m * y) + km * rest == km * (x * y + rest)
  {
    assert (k * x) * (m * y) == km * (x * y);
  }

  lemma NormSqScale(k: real, kk: real, a: Vector)
    requires kk == k * k
    ensures NormSq(Scale(k, a)) == kk * NormSq(a)
  {
    NormSqIsDot(a);
    NormSqIsDot(Scale(k, a));
    DotScale(k, k, kk, a, a);
  }

  lemma PassesScale(km: real, kk: real, mm: real,
                    d: real, na: real, nb: real, d': real, na': real, nb': real)
    requires km > 0.0 && kk > 0.0 && mm > 0.0 && km * km == kk * mm
    requires d' == km * d && na' == kk * na && nb' == mm * nb
    ensures Passes(d', na', nb') == Passes(d, na, nb)
  {
    var c := kk * mm;
    Products(0.0, kk, mm, 0.0, c);
    Products(0.0, na, kk, 0.0, na');
    Products(0.0, nb, mm, 0.0, nb');
    Products(0.0, d, km, 0.0, d');
    Products(d, 0.0, km, d', 0.0);
    var x, y := 100.0 * (d * d), 81.0 * (na * nb);
    var x', y' := 100.0 * (d' * d'), 81.0 * (na' * nb');
    assert x' == x * c by {
      assert d' * d' == (km * km) * (d * d);
    }
    assert y' == y * c;
    Products(x, y, c, x', y');
  }

  lemma ScaleFactors(k: real, m: real) returns (km: real, kk: real, mm: real)
    requires k > 0.0 && m > 0.0
    ensures km == k * m && kk == k * k && mm == m * m
    ensures km > 0.0 && kk > 0.0 && mm > 0.0 && km * km == kk * mm
  {
    km, kk, mm := k * m, k * k, m * m;
    Products(0.0, k, k, 0.0, kk);
    Products(0.0, k, m, 0.0, km);
    Products(0.0, m, m, 0.0, mm);
  }

  lemma ScaledPasses(k: real, m: real, a: Vector, b: Vector)
    returns (d: real, na: real, nb: real, d': real, na': real, nb': real)
    requires k > 0.0 && m > 0.0 && |a| == |b|
    ensures d == Dot(a, b) && na == NormSq(a) && nb == NormSq(b)
    ensures d' == Dot(Scale(k, a), Scale(m, b))
    ensures na' == NormSq(Scale(k, a)) && nb' == NormSq(Scale(m, b))
    ensures Passes(d', na', nb') == Passes(d, na, nb)
  {
    var km, kk, mm := ScaleFactors(k, m);
    d, na, nb := Dot(a, b), NormSq(a), NormSq(b);
    d', na', nb' := Dot(Scale(k, a), Scale(m, b)), NormSq(Scale(k, a)), NormSq(Scale(m, b));
    assert d' == km * d by { DotScale(k, m, km, a, b); }
    assert na' == kk * na by { NormSqScale(k, kk, a); }
    assert nb' == mm * nb by { NormSqScale(m, mm, b); }
    PassesScale(km, kk, mm, d, na, nb, d', na', nb');
  }

  /**
   * Normalising either vector does not change the decision, so the unit-length
   * vectors of the resolver and the raw byte sums below decide alike.
   */
  lemma ClearsScale(k: real, m: real, a: Vector, b: Vector)
    requires k > 0.0 && m > 0.0
    ensures Clears(Scale(k, a), Scale(m, b)) == Clears(a, b)
  {
    if |a| == |b| {
      var d, na, nb, d', na', nb' := ScaledPasses(k, m, a, b);
    }
  }

  /** Lane `i % 8` collects byte `i`; the vector is the eight lane sums. */
  function LaneSum(bytes: seq<Byte>, lane: nat): (r: real)
    ensures r >= 0.0
  {
    if bytes == [] then 0.0
    else
      var n := |bytes| - 1;
      LaneSum(bytes[..n], lane) + (if n % LANES == lane then bytes[n] as real else 0.0)
  }

  function LaneSums(bytes: seq<Byte>): (v: Vector)
    ensures |v| == LANES
  {
    seq(LANES, (lane: nat) => LaneSum(bytes, lane))
  }

  lemma {:induction false} LaneSumPositive(bytes: seq<Byte>, i: nat)
    requires i < |bytes| && bytes[i] != 0
    ensures LaneSum(bytes, i % LANES) > 0.0
  {
    var n := |bytes| - 1;
    if i < n {
      LaneSumPositive(bytes[..n], i);
    }
  }

  lemma {:induction false} LaneSumZero(bytes: seq<Byte>, lane: nat)
    requires forall i :: 0 <= i < |bytes| ==> bytes[i] == 0
    ensures LaneSum(bytes, lane) == 0.0
  {
    if bytes != [] {
      LaneSumZero(bytes[..|bytes| - 1], lane);
    }
  }

  /** Another byte at position `i` moves lane `i % 8` by the difference, and no other lane. */
  lemma {:induction false} LaneSumChanged(bytes: seq<Byte>, i: nat, b: Byte, lane: nat)
    requires i < |bytes|
    ensures LaneSum(bytes[i := b], lane)
      == LaneSum(bytes, lane) + (if i % 8 == lane then b as real - bytes[i] as real else 0.0)
    decreases |bytes|
  {
    var n := |bytes| - 1;
    if i < n {
      LaneSumChanged(bytes[..n], i, b, lane);
      assert bytes[i := b][..n] == bytes[..n][i := b];
    } else {
      assert bytes[i := b][..n] == bytes[..n];
    }
  }

  lemma OneByteChanged(bytes: seq<Byte>, i: nat, b: Byte)
    requires i < |bytes|
    ensures LaneSums(bytes[i := b])
      == LaneSums(bytes)[i % 8 := LaneSums(bytes)[i % 8] + b as real - bytes[i] as real]
  {
    var v, w := LaneSums(bytes), LaneSums(bytes[i := b]);
    forall lane | 0 <= lane < 8 ensures w[lane] == if lane == i % 8 then v[lane] + b as real - bytes[i] as real else v[lane] {
      LaneSumChanged(bytes, i, b, lane);
    }
  }

  /** The lanes of at most eight bytes are the bytes themselves. */
  lemma {:induction false} ShortLanes(bytes: seq<Byte>, lane: nat)
    requires |bytes| <= 8
    ensures LaneSum(bytes, lane) == if lane < |bytes| then bytes[lane] as real else 0.0
  {
    if bytes != [] {
      ShortLanes(bytes[..|bytes| - 1], lane);
    }
  }

  function Sum(xs: seq<real>): real {
    if xs == [] then 0.0 else xs[0] + Sum(xs[1..])
  }

  /** The dot product is the sum of the products, place by place. */
  lemma {:induction false} DotIsSum(a: Vector, b: Vector, products: seq<real>)
    requires |a| == |b| == |products| && forall i :: 0 <= i < |a| ==> products[i] == a[i] * b[i]
    ensures Dot(a, b) == Sum(products)
  {
    if a != [] {
      var rest := products[1..];
      forall i | 0 <= i < |rest| ensures rest[i] == a[1..][i] * b[1..][i] {
        assert products[i + 1] == a[i + 1] * b[i + 1];
      }
      DotIsSum(a[1..], b[1..], rest);
      assert products[0] == a[0] * b[0];
    }
  }

  /** A name has a zero vector exactly when it holds no byte but zero bytes. */
  lemma ZeroNames(bytes: seq<Byte>)
    ensures Zero(LaneSums(bytes)) <==> forall i :: 0 <= i < |bytes| ==> bytes[i] == 0
  {
    if forall i :: 0 <= i < |bytes| ==> bytes[i] == 0 {
      forall lane | 0 <= lane < LANES ensures LaneSums(bytes)[lane] == 0.0 {
        LaneSumZero(bytes, lane);
      }
    } else {
      var i :| 0 <= i < |bytes| && bytes[i] != 0;
      LaneSumPositive(bytes, i);
      assert LaneSums(bytes)[i % LANES] > 0.0;
    }
  }

  /** The loop that collects the bytes of a name into the eight lanes. */
  method AddLanes(bytes: seq<Byte>) returns (v: array<real>)
    ensures fresh(v) && v[..] == LaneSums(bytes)
  {
    v := new real[LANES](_ => 0.0);
    for i := 0 to |bytes|
      invariant v[..] == LaneSums(bytes[..i])
    {
      assert bytes[..i + 1][..i] == bytes[..i];
      v[i % LANES] := v[i % LANES] + bytes[i] as real;
    }
    assert bytes[..|bytes|] == bytes;
  }

  /** The loop that normalises a vector in place. */
  method ScaleInPlace(v: array<real>, k: real)
    modifies v
    ensures v[..] == Scale(k, old(v[..]))
  {
    ghost var scaled := Scale(k, v[..]);
    for i := 0 to v.Length
      invariant forall j :: 0 <= j < i ==> v[j] == scaled[j]
      invariant forall j :: i <= j < v.Length ==> v[j] == old(v[j])
    {
      v[i] := k * v[i];
    }
  }

  /** `sqrt` is a square root of `x`. */
  predicate RootAt(sqrt: real -> real, x: real) {
    sqrt(x) >= 0.0 && sqrt(x) * sqrt(x) == x
  }

  /** The square root of the host library. */
  ghost predicate IsSqrt(sqrt: real -> real) {
    forall x :: x >= 0.0 ==> RootAt(sqrt, x)
  }

  function Norm(sqrt: real -> real, a: Vector): real {
    sqrt(NormSq(a))
  }

  /** The parity embedding: lane sums divided by their norm, unless that is zero. */
  function ParityVec(sqrt: real -> real, bytes: seq<Byte>): Vector {
    var sums := LaneSums(bytes);
    if Norm(sqrt, sums) > 0.0 then Scale(1.0 / Norm(sqrt, sums), sums) else sums
  }

  /** It has norm one or is zero, and decides every comparison as the lane sums do. */
  lemma ParityVecDecides(sqrt: real -> real, bytes: seq<Byte>)
    requires IsSqrt(sqrt)
    ensures forall b :: Clears(ParityVec(sqrt, bytes), b) <==> Clears(LaneSums(bytes), b)
    ensures NormSq(ParityVec(sqrt, bytes)) == 1.0 || Zero(ParityVec(sqrt, bytes))
  {
    var sums := LaneSums(bytes);
    assert RootAt(sqrt, NormSq(sums));
    if Norm(sqrt, sums) > 0.0 {
      NormalisedDecides(sums, Norm(sqrt, sums));
    } else {
      NormSqZero(sums);
    }
  }

  /** Dividing by the norm is multiplying by its reciprocal. */
  method ParityNameVec(sqrt: real -> real, bytes: seq<Byte>) returns (v: array<real>)
    ensures fresh(v) && v[..] == ParityVec(sqrt, bytes)
  {
    v := AddLanes(bytes);
    var n := Norm(sqrt, v[..]);
    if n > 0.0 {
      ScaleInPlace(v, 1.0 / n);
    }
  }

  /** The cosine quotient of two parity vectors reaches the threshold exactly if the lane sums clear it. */
  lemma ParityCosine(sqrt: real -> real, a: seq<Byte>, b: seq<Byte>)
    requires IsSqrt(sqrt)
    ensures var v, w := ParityVec(sqrt, a), ParityVec(sqrt, b);
      Cosine(v, w, Norm(sqrt, v), Norm(sqrt, w)) >= 0.90 <==> Clears(LaneSums(a), LaneSums(b))
  {
    var v, w := ParityVec(sqrt, a), ParityVec(sqrt, b);
    assert RootAt(sqrt, NormSq(v)) && RootAt(sqrt, NormSq(w));
    ClearsMeansCosine(v, w, Norm(sqrt, v), Norm(sqrt, w));
    ParityVecDecides(sqrt, a);
    ParityVecDecides(sqrt, b);
    ClearsSymmetric(LaneSums(a), w);
    ClearsSymmetric(LaneSums(b), LaneSums(a));
  }

  lemma NormalisedDecides(a: Vector, norm: real)
    requires norm > 0.0 && norm * norm == NormSq(a)
    ensures forall b :: Clears(Scale(1.0 / norm, a), b) <==> Clears(a, b)
    ensures NormSq(Scale(1.0 / norm, a)) == 1.0
  {
    var k := 1.0 / norm;
    forall b ensures Clears(Scale(k, a), b) <==> Clears(a, b) {
      ClearsScale(k, 1.0, a, b);
      assert Scale(1.0, b) == b;
    }
    NormSqScale(k, k * k, a);
    assert k * norm == 1.0;
    assert (k * k) * (norm * norm) == (k * norm) * (k * norm);
  }
}
