/** Three-component vectors over the reals, standing for glam's `Vec3A`/`Vec3`
    (single precision in the program; rounding is not modelled). */
module Vectors {

  datatype Vec3 = Vec3(x: real, y: real, z: real)

  const Zero: Vec3 := Vec3(0.0, 0.0, 0.0)

  function Max(a: real, b: real): real { if a < b then b else a }

  function Add(a: Vec3, b: Vec3): Vec3 { Vec3(a.x + b.x, a.y + b.y, a.z + b.z) }

  function Sub(a: Vec3, b: Vec3): Vec3 { Vec3(a.x - b.x, a.y - b.y, a.z - b.z) }

  function Neg(a: Vec3): Vec3 { Vec3(-a.x, -a.y, -a.z) }

  /** `c * v` for a scalar `c` */
  function Scale(c: real, v: Vec3): Vec3 { Vec3(c * v.x, c * v.y, c * v.z) }

  /** `v / c`, divided component by component */
  function Div(v: Vec3, c: real): Vec3
    requires c != 0.0
  {
    Vec3(v.x / c, v.y / c, v.z / c)
  }

  /** `a * b` on two vectors: glam multiplies component by component */
  function Mul(a: Vec3, b: Vec3): Vec3 { Vec3(a.x * b.x, a.y * b.y, a.z * b.z) }

  function Dot(a: Vec3, b: Vec3): real { a.x * b.x + a.y * b.y + a.z * b.z }

  function LengthSquared(v: Vec3): (r: real)
    ensures r >= 0.0
  {
    assert v.x * v.x >= 0.0 && v.y * v.y >= 0.0 && v.z * v.z >= 0.0;
    Dot(v, v)
  }

  /** `length` scales with the non-negative factor `c` at `v`. */
  ghost predicate ScalesAt(length: Vec3 -> real, c: real, v: Vec3) {
    0.0 <= c ==> length(Scale(c, v)) == c * length(v)
  }

  /** `length` ignores the sign of `v`. */
  ghost predicate EvenAt(length: Vec3 -> real, v: Vec3) {
    length(Neg(v)) == length(v)
  }

  /** `length(v)` bounds each component of `v` in absolute value. */
  ghost predicate BoundsAt(length: Vec3 -> real, v: Vec3) {
    && -length(v) <= v.x <= length(v)
    && -length(v) <= v.y <= length(v)
    && -length(v) <= v.z <= length(v)
  }

  /** What the model uses of the Euclidean length `Vec3A::length` (a square root that
      is not modelled): it scales with non-negative factors, ignores the sign of the
      vector, and is at least the absolute value of each component. */
  ghost predicate IsLength(length: Vec3 -> real) {
    && (forall c: real, v: Vec3 :: ScalesAt(length, c, v))
    && (forall v: Vec3 :: EvenAt(length, v))
    && (forall v: Vec3 :: BoundsAt(length, v))
  }

  lemma LengthOfZero(length: Vec3 -> real)
    requires IsLength(length)
    ensures length(Zero) == 0.0
  {
    assert Scale(0.0, Zero) == Zero;
    assert ScalesAt(length, 0.0, Zero);
  }

  lemma LengthNonNegative(length: Vec3 -> real, v: Vec3)
    requires IsLength(length)
    ensures length(v) >= 0.0
  {
    assert BoundsAt(length, v);
  }

  lemma LengthBounds(length: Vec3 -> real, v: Vec3)
    requires IsLength(length)
    ensures -length(v) <= v.x <= length(v)
    ensures -length(v) <= v.y <= length(v)
    ensures -length(v) <= v.z <= length(v)
  {
    assert BoundsAt(length, v);
  }

  lemma LengthNeg(length: Vec3 -> real, v: Vec3)
    requires IsLength(length)
    ensures length(Neg(v)) == length(v)
  {
    assert EvenAt(length, v);
  }

  lemma LengthScale(length: Vec3 -> real, c: real, v: Vec3)
    requires IsLength(length) && c >= 0.0
    ensures length(Scale(c, v)) == c * length(v)
  {
    assert ScalesAt(length, c, v);
  }

  /** Dividing by a positive `h` keeps the sign and the comparison with `k h`. */
  lemma DivCompare(a: real, h: real, k: real)
    requires h > 0.0
    ensures a >= 0.0 ==> a / h >= 0.0
    ensures a >= k * h <==> a / h >= k
  {
  }

  /** The length of `v / h` is the length of `v` divided by `h`. */
  lemma LengthDiv(length: Vec3 -> real, v: Vec3, h: real)
    requires IsLength(length) && h > 0.0
    ensures length(Div(v, h)) == length(v) / h
  {
    var c := 1.0 / h;
    DivIsScale(v, h);
    LengthScale(length, c, v);
    InverseScale(length(v), h);
  }

  /** Dividing by a positive `h` keeps strict comparisons with `k h`. */
  lemma DivStrict(a: real, h: real, k: real)
    requires h > 0.0
    ensures a > k * h <==> a / h > k
  {
  }

  /** A positive factor keeps the sign. */
  lemma MulSign(c: real, a: real)
    requires c > 0.0
    ensures a > 0.0 ==> c * a > 0.0
    ensures a == 0.0 ==> c * a == 0.0
  {
  }

  /** Scaling by `1 / h` is dividing by `h`. */
  lemma InverseScale(a: real, h: real)
    requires h > 0.0
    ensures 1.0 / h > 0.0 && (1.0 / h) * a == a / h
  {
  }

  lemma MulPositive(a: real, b: real)
    requires a > 0.0 && b > 0.0
    ensures a * b > 0.0
  {
  }

  /** The softened squared distance in the denominator of `laplace` is positive. */
  lemma SoftenedPositive(h: real, a: real)
    requires h > 0.0 && a >= 0.0
    ensures a + 0.01 * h * h > 0.0
  {
    calc {
      a + 0.01 * h * h;
    >=
      0.01 * h * h;
    >
      0.0;
    }
  }

  lemma DivNeg(v: Vec3, c: real)
    requires c != 0.0
    ensures Div(Neg(v), c) == Neg(Div(v, c))
  {
    assert (-v.x) / c == -(v.x / c);
    assert (-v.y) / c == -(v.y / c);
    assert (-v.z) / c == -(v.z / c);
  }

  /** Swapping the operands of a difference and then scaling and dividing it flips the
      sign of the result. */
  lemma SubSwapDiv(a: Vec3, b: Vec3, h: real)
    requires h != 0.0
    ensures Div(Sub(b, a), h) == Neg(Div(Sub(a, b), h))
  {
    assert Sub(b, a) == Neg(Sub(a, b));
    DivNeg(Sub(a, b), h);
  }

  lemma ScaleDivNeg(c: real, k: real, d: Vec3, q: real)
    requires q != 0.0
    ensures Scale(c, Scale(k, Div(Neg(d), q))) == Neg(Scale(c, Scale(k, Div(d, q))))
  {
    DivNeg(d, q);
    var u := Div(d, q);
    assert Scale(k, Neg(u)) == Neg(Scale(k, u));
    assert Scale(c, Neg(Scale(k, u))) == Neg(Scale(c, Scale(k, u)));
  }

  lemma ScaleAdd(c: real, u: Vec3, v: Vec3)
    ensures Scale(c, Add(u, v)) == Add(Scale(c, u), Scale(c, v))
  {
    assert c * (u.x + v.x) == c * u.x + c * v.x;
    assert c * (u.y + v.y) == c * u.y + c * v.y;
    assert c * (u.z + v.z) == c * u.z + c * v.z;
  }

  lemma DivIsScale(v: Vec3, c: real)
    requires c != 0.0
    ensures Div(v, c) == Scale(1.0 / c, v)
  {
  }

  /** Dividing by `c` and scaling by `c` cancel. */
  lemma ScaleDiv(v: Vec3, c: real)
    requires c != 0.0
    ensures Scale(c, Div(v, c)) == v
  {
    assert c * (v.x / c) == v.x && c * (v.y / c) == v.y && c * (v.z / c) == v.z;
  }
}
