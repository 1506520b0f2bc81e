/**
 * Two-component vectors over the reals, standing for Unity's Vector2, and the
 * vector length the engine computes (Vector2.magnitude).
 *
 * The reals have no square root, so the length is not defined here: every
 * operation that needs it takes the engine's length function as a parameter of
 * type Norm, which only promises the properties listed in IsNorm. The Euclidean
 * length has all of them.
 */
module Geometry {
  datatype Vec2 = Vec2(x: real, y: real)

  const Zero := Vec2(0.0, 0.0)

  function Add(a: Vec2, b: Vec2): Vec2 { Vec2(a.x + b.x, a.y + b.y) }

  function Sub(a: Vec2, b: Vec2): Vec2 { Vec2(a.x - b.x, a.y - b.y) }

  function Neg(a: Vec2): Vec2 { Vec2(-a.x, -a.y) }

  /** Going back from p - d to p is the opposite of d. */
  lemma BackToStart(p: Vec2, d: Vec2)
    ensures Sub(Sub(p, d), p) == Neg(d)
  {
  }

  function Scale(a: Vec2, k: real): Vec2 { Vec2(a.x * k, a.y * k) }

  function Abs(r: real): real { if r < 0.0 then -r else r }

  /** Adding to the same point gives the same result exactly for the same vector. */
  lemma AddCancels(p: Vec2, a: Vec2, b: Vec2)
    ensures Add(p, a) == Add(p, b) <==> a == b
  {
  }

  /** Scaling gives the zero vector exactly when the factor or the vector is zero. */
  lemma ScaleIsZero(v: Vec2, k: real)
    ensures Scale(v, k) == Zero <==> k == 0.0 || v == Zero
  {
    if k != 0.0 && Scale(v, k) == Zero {
      assert v.x == (v.x * k) / k && v.y == (v.y * k) / k;
    }
  }

  /** Scaling leaves a vector unchanged exactly when the factor is one or the vector is zero. */
  lemma ScaleIsIdentity(v: Vec2, k: real)
    ensures Scale(v, k) == v <==> k == 1.0 || v == Zero
  {
    assert Scale(v, k) == v <==> Scale(v, k - 1.0) == Zero;
    ScaleIsZero(v, k - 1.0);
  }

  /** What the model assumes of a vector length. */
  ghost predicate IsNorm(f: Vec2 -> real) {
    NonNegative(f) && ZeroOnlyAtZero(f) && Symmetric(f) && Homogeneous(f) && AxisAligned(f)
  }

  ghost predicate NonNegative(f: Vec2 -> real) {
    forall v :: f(v) >= 0.0
  }

  ghost predicate ZeroOnlyAtZero(f: Vec2 -> real) {
    forall v :: f(v) == 0.0 <==> v == Zero
  }

  ghost predicate Symmetric(f: Vec2 -> real) {
    forall v :: f(Neg(v)) == f(v)
  }

  ghost predicate Homogeneous(f: Vec2 -> real) {
    forall v, k :: k >= 0.0 ==> f(Scale(v, k)) == k * f(v)
  }

  /** Along an axis the length is the absolute value of the one non-zero component. */
  ghost predicate AxisAligned(f: Vec2 -> real) {
    && (forall a :: f(Vec2(a, 0.0)) == Abs(a))
    && (forall a :: f(Vec2(0.0, a)) == Abs(a))
  }

  lemma AbsOfProduct(a: real, k: real)
    requires k >= 0.0
    ensures Abs(a * k) == k * Abs(a)
  {
    if a < 0.0 {
      assert a * k == -((-a) * k);
      assert (-a) * k >= 0.0;
    } else {
      assert a * k >= 0.0;
    }
  }

  /** A length with all the properties of IsNorm; it only shows that Norm is inhabited. */
  function TaxicabLength(v: Vec2): real {
    Abs(v.x) + Abs(v.y)
  }

  /** The taxicab length is a norm in the sense of IsNorm. */
  lemma TaxicabIsNorm()
    ensures IsNorm(TaxicabLength)
  {
    PointwiseTaxicabIsNorm(TaxicabLength);
  }

  /** Any length that agrees with the taxicab length everywhere is a norm in the sense of IsNorm. */
  lemma PointwiseTaxicabIsNorm(f: Vec2 -> real)
    requires forall u :: f(u) == TaxicabLength(u)
    ensures NonNegative(f)
    ensures ZeroOnlyAtZero(f)
    ensures Symmetric(f)
    ensures Homogeneous(f)
    ensures AxisAligned(f)
  {
    PointwiseTaxicabHomogeneous(f);
  }

  lemma PointwiseTaxicabHomogeneous(f: Vec2 -> real)
    requires forall u :: f(u) == TaxicabLength(u)
    ensures Homogeneous(f)
  {
    TaxicabHomogeneous();
  }

  lemma TaxicabHomogeneous()
    ensures forall v, k :: k >= 0.0 ==> TaxicabLength(Scale(v, k)) == k * TaxicabLength(v)
  {
    forall v, k | k >= 0.0 ensures TaxicabLength(Scale(v, k)) == k * TaxicabLength(v) {
      TaxicabScale(v, k);
    }
  }

  lemma TaxicabScale(v: Vec2, k: real)
    requires k >= 0.0
    ensures TaxicabLength(Scale(v, k)) == k * TaxicabLength(v)
  {
    var s := Scale(v, k);
    AbsOfProduct(v.x, k);
    AbsOfProduct(v.y, k);
    assert Abs(s.x) == k * Abs(v.x) && Abs(s.y) == k * Abs(v.y);
    Distribute(k, Abs(v.x), Abs(v.y));
  }

  lemma Distribute(k: real, a: real, b: real)
    ensures k * a + k * b == k * (a + b)
  {
  }

  type Norm = f: Vec2 -> real | IsNorm(f) witness (TaxicabIsNorm(); TaxicabLength)

  /** Scaling by k multiplies the length by |k|. */
  lemma NormOfScale(v: Vec2, k: real, norm: Norm)
    ensures norm(Scale(v, k)) == Abs(k) * norm(v)
  {
    if k < 0.0 {
      assert Scale(v, k) == Neg(Scale(v, -k));
      assert norm(Neg(Scale(v, -k))) == norm(Scale(v, -k));
    }
  }

  /** The length of a vector along the x axis is the absolute value of its x component. */
  lemma AxisLength(v: Vec2, norm: Norm)
    requires v.y == 0.0
    ensures norm(v) == Abs(v.x)
  {
    assert v == Vec2(v.x, 0.0);
  }
}
