/** Three-component vectors over the reals, standing for glm::vec3, with the
    square root, length and normalisation the body model needs. */
module Vectors {

  datatype Vec3 = Vec3(x: real, y: real, z: real)

  const Zero: Vec3 := Vec3(0.0, 0.0, 0.0)

  function Add(a: Vec3, b: Vec3): Vec3 { Vec3(a.x + b.x, a.y + b.y, a.z + b.z) }

  function Sub(a: Vec3, b: Vec3): Vec3 { Vec3(a.x - b.x, a.y - b.y, a.z - b.z) }

  function Neg(a: Vec3): Vec3 { Vec3(-a.x, -a.y, -a.z) }

  /** `dv3(k) * a`: glm's component-wise product with the splatted scalar k. */
  function Scale(k: real, a: Vec3): Vec3 { Vec3(k * a.x, k * a.y, k * a.z) }

  /** `a / dv3(d)`: glm's component-wise quotient by the splatted scalar d. */
  function DivScalar(a: Vec3, d: real): Vec3
    requires d != 0.0
  {
    Vec3(a.x / d, a.y / d, a.z / d)
  }

  function Dot(a: Vec3, b: Vec3): real { a.x * b.x + a.y * b.y + a.z * b.z }

  /* Sign facts about real products. The solver's non-linear arithmetic
     does not reliably carry a fact about `t * t` from one term to another,
     so squares are reasoned about through `Product`, whose applications
     the solver treats as plain terms. */

  function Product(a: real, b: real): real { a * b }

  lemma MulPos(a: real, b: real)
    requires a > 0.0 && b > 0.0
    ensures Product(a, b) > 0.0
  {}

  lemma MulNonNeg(a: real, b: real)
    ensures a >= 0.0 && b >= 0.0 ==> a * b >= 0.0
  {}

  lemma MulNonZero(a: real, b: real)
    requires a != 0.0 && b != 0.0
    ensures Product(a, b) != 0.0
  {}

  lemma ProductOfNegations(a: real, b: real)
    ensures Product(-a, -b) == Product(a, b)
  {}

  /** A square is never negative, and is positive unless its root is zero. */
  lemma SquareSign(t: real)
    ensures Product(t, t) >= 0.0
    ensures t != 0.0 ==> Product(t, t) > 0.0
  {
    if t > 0.0 {
      MulPos(t, t);
    } else if t < 0.0 {
      MulPos(-t, -t);
      ProductOfNegations(t, t);
    }
  }

  /** The squared length of a vector is non-negative and vanishes only at
      the zero vector. */
  lemma DotSelfSign(a: Vec3)
    ensures Dot(a, a) >= 0.0
    ensures a != Zero ==> Dot(a, a) > 0.0
  {
    SquareSign(a.x);
    SquareSign(a.y);
    SquareSign(a.z);
    assert Dot(a, a) == Product(a.x, a.x) + Product(a.y, a.y) + Product(a.z, a.z);
    if a != Zero {
      assert a.x != 0.0 || a.y != 0.0 || a.z != 0.0;
    }
  }

  /** Scaling both sides of a dot product by k scales it by k squared. */
  lemma DotScale(k: real, a: Vec3)
    ensures Dot(Scale(k, a), Scale(k, a)) == k * k * Dot(a, a)
  {}

  /* ---------------------------------------------------------------------
     Square root. Dafny's reals are the mathematical reals, where every
     non-negative number has a non-negative root, but the solver cannot
     produce that root without an axiom. The root is therefore chosen when
     one exists; the fallback branch is never taken over the reals and only
     keeps the function total. */

  ghost predicate IsRootOf(r: real, x: real) { r >= 0.0 && r * r == x }

  ghost predicate HasSqrt(x: real) { exists r :: IsRootOf(r, x) }

  /** Non-negative roots are unique. */
  lemma RootUnique(r: real, s: real, x: real)
    requires IsRootOf(r, x) && IsRootOf(s, x)
    ensures r == s
  {
    assert Product(r - s, r + s) == r * r - s * s == 0.0;
    if r + s == 0.0 {
      assert r == 0.0 && s == 0.0;
    } else if r - s != 0.0 {
      MulNonZero(r - s, r + s);
      assert false;
    }
  }

  ghost function Sqrt(x: real): (r: real)
    requires x >= 0.0
    ensures r >= 0.0
    ensures x > 0.0 ==> r > 0.0
    ensures HasSqrt(x) ==> IsRootOf(r, x)
  {
    if HasSqrt(x) then
      var r :| IsRootOf(r, x);
      assert x > 0.0 ==> r != 0.0;
      r
    else x
  }

  lemma SqrtZero()
    ensures Sqrt(0.0) == 0.0
  {
    assert IsRootOf(0.0, 0.0);
    RootUnique(Sqrt(0.0), 0.0, 0.0);
  }

  /** The root of a square is the absolute value: this holds without any
      appeal to the existence of roots, because |a| is a witness. */
  lemma SqrtOfSquare(a: real)
    ensures a * a >= 0.0
    ensures Sqrt(a * a) == if a >= 0.0 then a else -a
  {
    var w := if a >= 0.0 then a else -a;
    assert IsRootOf(w, a * a);
    RootUnique(Sqrt(a * a), w, a * a);
  }

  /** glm::length. */
  ghost function Length(v: Vec3): (l: real)
    ensures l >= 0.0
    ensures l == 0.0 <==> v == Zero
  {
    DotSelfSign(v);
    SqrtZero();
    Sqrt(Dot(v, v))
  }

  /** glm::normalize, undefined (a division by zero) on the zero vector. */
  ghost function Normalize(v: Vec3): (n: Vec3)
    requires v != Zero
    ensures exists k :: k > 0.0 && n == Scale(k, v)
    ensures HasSqrt(Dot(v, v)) ==> Dot(n, n) == 1.0
  {
    var l := Length(v);
    var k := 1.0 / l;
    var n := Scale(k, v);
    assert HasSqrt(Dot(v, v)) ==> Dot(n, n) == 1.0 by {
      if HasSqrt(Dot(v, v)) {
        assert l * l == Dot(v, v);
        assert Dot(n, n) == k * k * Dot(v, v);
        assert k * l == 1.0;
      }
    }
    n
  }

  /** A vector and its normalisation agree in the sign of every component. */
  lemma NormalizeSign(v: Vec3)
    requires v != Zero
    ensures (Normalize(v).y < 0.0) <==> (v.y < 0.0)
    ensures (Normalize(v).y == 0.0) <==> (v.y == 0.0)
  {
    var k := 1.0 / Length(v);
    assert k > 0.0 && Normalize(v) == Scale(k, v);
    if v.y < 0.0 {
      assert k * v.y < 0.0;
    } else if v.y > 0.0 {
      assert k * v.y > 0.0;
    }
  }

  /** Reversing a vector keeps its length and reverses its normalisation. */
  lemma NormalizeNeg(v: Vec3)
    requires v != Zero
    ensures Neg(v) != Zero
    ensures Length(Neg(v)) == Length(v)
    ensures Normalize(Neg(v)) == Neg(Normalize(v))
  {
    assert Dot(Neg(v), Neg(v)) == Dot(v, v) by {
      assert (-v.x) * (-v.x) == v.x * v.x;
      assert (-v.y) * (-v.y) == v.y * v.y;
      assert (-v.z) * (-v.z) == v.z * v.z;
    }
    var k := 1.0 / Length(v);
    assert Normalize(Neg(v)) == Scale(k, Neg(v));
  }

  /* ---------------------------------------------------------------------
     Sums of vector-valued terms over a sequence, and their invariance under
     reordering. */

  function SumOf<T>(f: T -> Vec3, xs: seq<T>): Vec3
  {
    if xs == [] then Zero else Add(f(xs[0]), SumOf(f, xs[1..]))
  }

  /** Taking any one element out of a sum. */
  lemma {:induction false} SumOfRemove<T>(f: T -> Vec3, xs: seq<T>, i: nat)
    requires i < |xs|
    ensures SumOf(f, xs) == Add(f(xs[i]), SumOf(f, xs[..i] + xs[i + 1..]))
  {
    if i > 0 {
      var tail := xs[1..];
      SumOfRemove(f, tail, i - 1);
      assert xs[..i] + xs[i + 1..] == [xs[0]] + (tail[..i - 1] + tail[i..]);
      assert (xs[..i] + xs[i + 1..])[1..] == tail[..i - 1] + tail[i..];
    } else {
      assert xs[..i] + xs[i + 1..] == xs[1..];
    }
  }

  /** A sum does not depend on the order of its terms. */
  lemma {:induction false} SumOfPermutation<T>(f: T -> Vec3, xs: seq<T>, ys: seq<T>)
    requires multiset(xs) == multiset(ys)
    ensures SumOf(f, xs) == SumOf(f, ys)
    decreases |xs|
  {
    if xs == [] {
      assert |ys| == |multiset(ys)| == 0;
    } else {
      var x := xs[0];
      assert x in multiset(ys);
      var i :| 0 <= i < |ys| && ys[i] == x;
      var rest := ys[..i] + ys[i + 1..];
      assert ys == ys[..i] + [ys[i]] + ys[i + 1..];
      assert multiset(ys) == multiset(ys[..i]) + multiset{x} + multiset(ys[i + 1..]);
      assert multiset(rest) == multiset(ys[..i]) + multiset(ys[i + 1..]);
      assert xs == [x] + xs[1..];
      assert multiset(xs) == multiset{x} + multiset(xs[1..]);
      assert multiset(xs[1..]) == multiset(xs) - multiset{x};
      assert multiset(rest) == multiset(ys) - multiset{x};
      SumOfPermutation(f, xs[1..], rest);
      SumOfRemove(f, ys, i);
    }
  }
}
