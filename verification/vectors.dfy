/** Three-component vectors over the reals, standing in for the 32-bit
    float `Vec3` of the `ultraviolet` crate: component-wise sum and
    difference, negation, and multiplication and division by a scalar.
    The crate's `mag` (the Euclidean length, a square root) is foreign code
    and is not defined here: a caller passes it in as a function, and
    `IsNorm` states the two properties of a length that the model relies
    on. */
module Vectors {

  datatype Vec3 = Vec3(x: real, y: real, z: real)

  const Zero: Vec3 := Vec3(0.0, 0.0, 0.0)

  function Abs(a: real): (r: real)
    ensures r >= 0.0 && (r == a || r == -a)
  {
    if a < 0.0 then -a else a
  }

  /** `a + b` */
  function Add(a: Vec3, b: Vec3): (r: Vec3)
    ensures b == Zero ==> r == a
    ensures a == Zero ==> r == b
  {
    Vec3(a.x + b.x, a.y + b.y, a.z + b.z)
  }

  /** `-a`, the additive inverse */
  function Neg(a: Vec3): (r: Vec3)
    ensures Add(a, r) == Zero
  {
    Vec3(-a.x, -a.y, -a.z)
  }

  /** `a - b`, the vector that carries `b` onto `a` */
  function Sub(a: Vec3, b: Vec3): (r: Vec3)
    ensures Add(b, r) == a
    ensures r == Zero <==> a == b
  {
    Vec3(a.x - b.x, a.y - b.y, a.z - b.z)
  }

  /** `v * c` */
  function Scale(v: Vec3, c: real): (r: Vec3)
    ensures c == 0.0 || v == Zero ==> r == Zero
    ensures c == 1.0 ==> r == v
  {
    Vec3(v.x * c, v.y * c, v.z * c)
  }

  /** `v / c`, undefined for a zero divisor */
  function Div(v: Vec3, c: real): (r: Vec3)
    requires c != 0.0
    ensures Scale(r, c) == v
  {
    Vec3(v.x / c, v.y / c, v.z / c)
  }

  /** `mag` behaves as a length: it is positive on every non-zero vector and
      scales with the absolute value of a scalar factor. The Euclidean
      length computed by the vector library is one such function. */
  ghost predicate IsNorm(mag: Vec3 -> real) {
    && (forall v :: v != Zero ==> mag(v) > 0.0)
    && (forall v, c :: mag(Scale(v, c)) == Abs(c) * mag(v))
  }

  /** A vector and its opposite have the same length. */
  lemma NormNeg(mag: Vec3 -> real, v: Vec3)
    requires IsNorm(mag)
    ensures mag(Neg(v)) == mag(v)
  {
    assert Neg(v) == Scale(v, -1.0);
  }

  /** Two points are at a positive distance exactly when they differ. */
  lemma DistancePositive(mag: Vec3 -> real, p: Vec3, q: Vec3)
    requires IsNorm(mag)
    ensures mag(Sub(q, p)) > 0.0 <==> p != q
  {
    if p == q {
      assert Sub(q, p) == Scale(Sub(q, p), 0.0);
    }
  }

  /** The sum of a sequence of vectors, added up in index order. */
  function Sum(vs: seq<Vec3>): Vec3 {
    if |vs| == 0 then Zero else Add(Sum(vs[..|vs| - 1]), vs[|vs| - 1])
  }

  /** Scaling distributes over a sum of two vectors. */
  lemma ScaleAdd(a: Vec3, b: Vec3, c: real)
    ensures Scale(Add(a, b), c) == Add(Scale(a, c), Scale(b, c))
  {
    assert (a.x + b.x) * c == a.x * c + b.x * c;
    assert (a.y + b.y) * c == a.y * c + b.y * c;
    assert (a.z + b.z) * c == a.z * c + b.z * c;
  }

  /** Sums distribute over a component-wise sum of two sequences. */
  lemma {:induction false} SumAdd(us: seq<Vec3>, vs: seq<Vec3>, ws: seq<Vec3>)
    requires |us| == |vs| == |ws|
    requires forall i :: 0 <= i < |ws| ==> ws[i] == Add(us[i], vs[i])
    ensures Sum(ws) == Add(Sum(us), Sum(vs))
  {
    if |ws| > 0 {
      var n := |ws| - 1;
      SumAdd(us[..n], vs[..n], ws[..n]);
    }
  }

  /** Sums commute with scaling by a common factor. */
  lemma {:induction false} SumScale(us: seq<Vec3>, vs: seq<Vec3>, c: real)
    requires |us| == |vs|
    requires forall i :: 0 <= i < |vs| ==> vs[i] == Scale(us[i], c)
    ensures Sum(vs) == Scale(Sum(us), c)
  {
    if |vs| > 0 {
      var n := |vs| - 1;
      SumScale(us[..n], vs[..n], c);
      assert Sum(vs) == Add(Sum(vs[..n]), vs[n]);
      assert Sum(us) == Add(Sum(us[..n]), us[n]);
      ScaleAdd(Sum(us[..n]), us[n], c);
    }
  }
}
