/** Result-carrying datatypes and arithmetic helpers shared by every module. */
module Prelude {
  datatype Option<+T> = None | Some(value: T)

  datatype Result<+T, +E> = Ok(value: T) | Err(error: E)

  datatype CoreError =
    | NamespaceNotFound(namespace: string)
    | ProviderNotFound(provider: string)
    | InvalidConfig(reason: string)
    | Json(reason: string)
    | Crypto(reason: string)
    | Http(reason: string)
    | Llm(reason: string)

  type Byte = b: int | 0 <= b < 256

  type Uuid = nat
  type Vector = seq<real>

  function Min(a: int, b: int): int {
    if a <= b then a else b
  }

  function Max(a: int, b: int): int {
    if a >= b then a else b
  }
}

/** Cardinality facts about finite sets and duplicate-free sequences. */
module FiniteSets {
  lemma {:induction false} SubsetCard<T>(a: set<T>, b: set<T>)
    requires a <= b
    ensures |a| <= |b|
  {
    assert b == a + (b - a);
  }

  /** An injection from `s` into `t` bounds `|s|` by `|t|`. */
  lemma {:induction false} InjectionCard<T, U>(s: set<T>, t: set<U>, f: T -> U)
    requires forall x :: x in s ==> f(x) in t
    requires forall x, y :: x in s && y in s && f(x) == f(y) ==> x == y
    ensures |s| <= |t|
  {
    if s != {} {
      var x :| x in s;
      InjectionCard(s - {x}, t - {f(x)}, f);
    }
  }

  ghost predicate Distinct<T>(s: seq<T>) {
    forall i, j :: 0 <= i < j < |s| ==> s[i] != s[j]
  }

  lemma DistinctAppended<T>(s: seq<T>, x: T)
    requires Distinct(s) && x !in s
    ensures Distinct(s + [x])
  {
  }

  ghost function Elements<T>(s: seq<T>): set<T> {
    set x | x in s
  }

  lemma {:induction false} DistinctCard<T>(s: seq<T>)
    requires Distinct(s)
    ensures |Elements(s)| == |s|
  {
    if s == [] {
      assert Elements(s) == {};
    } else {
      var n := |s| - 1;
      assert Elements(s) == Elements(s[..n]) + {s[n]};
      DistinctCard(s[..n]);
    }
  }

  /** A sequence can be no longer than the set it draws distinct elements from. */
  lemma DistinctFits<T>(s: seq<T>, t: set<T>)
    requires Distinct(s) && forall x :: x in s ==> x in t
    ensures |s| <= |t|
  {
    DistinctCard(s);
    SubsetCard(Elements(s), t);
  }
}

/** Facts about concatenation that the solver needs by name. */
module Sequences {
  lemma ConcatAssociative<T>(a: seq<T>, b: seq<T>, c: seq<T>)
    ensures (a + b) + c == a + (b + c)
  {
  }

  lemma CountAppended<T>(s: seq<T>, t: seq<T>, x: T)
    ensures multiset(s + t)[x] == multiset(s)[x] + multiset(t)[x]
  {
  }
}

/**
 * Order facts about products of reals. The products are named by parameters:
 * the solver reasons linearly about the names, and loses its way in squares.
 */
module RealOrder {
  lemma Products(x: real, y: real, z: real, xz: real, yz: real)
    requires 0.0 <= z && xz == x * z && yz == y * z
    ensures x <= y ==> xz <= yz
    ensures 0.0 < z ==> (x < y <==> xz < yz)
  {
    var d := y - x;
    assert d > 0.0 && z > 0.0 ==> d * z > 0.0;
    assert d < 0.0 && z > 0.0 ==> d * z < 0.0;
    assert d * z == yz - xz;
  }

  lemma Squares(x: real, y: real, xx: real, yy: real)
    requires 0.0 <= x && 0.0 <= y && xx == x * x && yy == y * y
    ensures x <= y <==> xx <= yy
  {
    var xy := x * y;
    Products(x, y, x, xx, xy);
    Products(y, x, x, xy, xx);
    Products(x, y, y, xy, yy);
    Products(y, x, y, yy, xy);
  }

  lemma SquareSign(x: real, xx: real)
    requires xx == x * x
    ensures xx >= 0.0 && (xx == 0.0 <==> x == 0.0)
  {
    if x > 0.0 {
      Products(0.0, x, x, 0.0, xx);
    } else if x < 0.0 {
      Products(0.0, -x, -x, 0.0, xx);
    }
  }

  lemma Quotients(x: real, y: real, w: real, q: real, yw: real)
    requires 0.0 < w && q == x / w && yw == y * w
    ensures q <= y <==> x <= yw
    ensures q >= y <==> x >= yw
  {
    assert q * w == x;
    Products(q, y, w, x, yw);
  }

  /** A larger divisor makes a smaller share. */
  lemma Shares(x: real, p: real, q: real)
    requires x >= 0.0 && 0.0 < p <= q
    ensures 0.0 <= x / q <= x / p
  {
    var a, b := x / p, x / q;
    assert a * p == x && b * q == x;
    Quotients(x, 0.0, p, a, 0.0);
    Quotients(x, 0.0, q, b, 0.0);
    var aq := a * q;
    Products(p, q, a, x, aq);
    Products(a, b, q, aq, x);
  }

  lemma QuotientSum(x: real, y: real, p: real)
    requires p > 0.0
    ensures x / p + y / p == (x + y) / p
    ensures x <= y ==> x / p <= y / p
  {
    var a, b, c := x / p, y / p, (x + y) / p;
    assert a * p == x && b * p == y && c * p == x + y;
    Products(b, a, p, y, x);
    Products(a + b, c, p, x + y, x + y);
    Products(c, a + b, p, x + y, x + y);
  }

  lemma CrossMultiplied(x: real, p: real, y: real, q: real)
    requires p > 0.0 && q > 0.0
    ensures x / p > y / q <==> q * x > p * y
  {
    var a, b := x / p, y / q;
    assert a * p == x && b * q == y;
    var bp := b * p;
    Products(b, a, p, bp, x);
    var qx, qbp := q * x, q * bp;
    Products(bp, x, q, qbp, qx);
    assert qbp == p * y;
  }
}
