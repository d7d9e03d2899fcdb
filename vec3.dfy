/** Three-component vectors, used as points, directions and colours. */
module Vector {
  import opened Numeric

  /** `points[0]`, `points[1]` and `points[2]` of the source are `x`, `y` and `z`. */
  datatype Vec3 = Vec3(x: real, y: real, z: real)

  /** `Vec3::new()`. */
  function Zero(): Vec3 {
    Vec3(0.0, 0.0, 0.0)
  }

  /** `v[i]`. */
  function Index(v: Vec3, i: nat): real
    requires i < 3
  {
    if i == 0 then v.x else if i == 1 then v.y else v.z
  }

  lemma ZeroAndAccessors(v: Vec3)
    ensures forall i :: 0 <= i < 3 ==> Index(Zero(), i) == 0.0
    ensures v.x == Index(v, 0) && v.y == Index(v, 1) && v.z == Index(v, 2)
  {
  }

  /** `lenght_squared`: the sum of the squared components. */
  function LengthSquared(v: Vec3): (r: real)
    ensures 0.0 <= r
    ensures v.x * v.x <= r && v.y * v.y <= r && v.z * v.z <= r
  {
    SquaresNonNegative(v.x, v.y, v.z);
    v.x * v.x + v.y * v.y + v.z * v.z
  }

  lemma SquaresNonNegative(a: real, b: real, c: real)
    ensures 0.0 <= a * a && 0.0 <= b * b && 0.0 <= c * c
  {
  }

  /** `lenght`. */
  function Length(v: Vec3, sqrt: real -> real): real {
    sqrt(LengthSquared(v))
  }

  /** `dot` exactly as written: the third term adds the two z components
      instead of multiplying them. */
  function Dot(a: Vec3, b: Vec3): real {
    a.x * b.x + a.y * b.y + a.z + b.z
  }

  /** The inner product that `dot` is evidently meant to compute. */
  function InnerProduct(a: Vec3, b: Vec3): real {
    a.x * b.x + a.y * b.y + a.z * b.z
  }

  /** `Dot` agrees with the inner product exactly when `a.z + b.z == a.z * b.z`. */
  lemma DotVersusInnerProduct(a: Vec3, b: Vec3)
    ensures Dot(a, b) == InnerProduct(a, b) + (a.z + b.z - a.z * b.z)
    ensures Dot(a, b) == InnerProduct(a, b) <==> a.z + b.z == a.z * b.z
  {
  }

  /** The self-product of `(0, 0, 1)` is 2 under `Dot` while its squared
      length is 1. */
  lemma DotSelfCounterexample()
    ensures Dot(Vec3(0.0, 0.0, 1.0), Vec3(0.0, 0.0, 1.0)) == 2.0
    ensures LengthSquared(Vec3(0.0, 0.0, 1.0)) == 1.0
  {
  }

  lemma InnerProductSelf(v: Vec3)
    ensures InnerProduct(v, v) == LengthSquared(v)
  {
  }

  lemma InnerProductSymmetric(a: Vec3, b: Vec3)
    ensures InnerProduct(a, b) == InnerProduct(b, a)
  {
  }

  function Cross(a: Vec3, b: Vec3): Vec3 {
    Vec3(a.y * b.z - a.z * b.y,
         a.z * b.x - a.x * b.z,
         a.x * b.y - a.y * b.x)
  }

  lemma CrossAntiSymmetric(a: Vec3, b: Vec3)
    ensures Cross(a, b) == Neg(Cross(b, a))
    ensures Cross(a, a) == Zero()
  {
  }

  /** The cross product is orthogonal to both operands (under the inner product). */
  lemma CrossOrthogonal(a: Vec3, b: Vec3)
    ensures InnerProduct(a, Cross(a, b)) == 0.0
    ensures InnerProduct(b, Cross(a, b)) == 0.0
  {
  }

  function Neg(v: Vec3): Vec3 {
    Vec3(-v.x, -v.y, -v.z)
  }

  lemma NegInvolution(v: Vec3)
    ensures Neg(Neg(v)) == v
    ensures Neg(v) == v <==> v == Zero()
  {
  }

  lemma NegKeepsLength(v: Vec3)
    ensures LengthSquared(Neg(v)) == LengthSquared(v)
  {
    var x, y, z := v.x, v.y, v.z;
    assert (-x) * (-x) == x * x && (-y) * (-y) == y * y && (-z) * (-z) == z * z;
  }

  /** `v + s` for a scalar `s`: the same `s` is added to every component. */
  function AddScalar(v: Vec3, s: real): Vec3 {
    Vec3(v.x + s, v.y + s, v.z + s)
  }

  function SubScalar(v: Vec3, s: real): Vec3 {
    Vec3(v.x - s, v.y - s, v.z - s)
  }

  function MulScalar(v: Vec3, s: real): Vec3 {
    Vec3(v.x * s, v.y * s, v.z * s)
  }

  /** `v / s`, defined in the source as `v * (1.0 / s)`. */
  function DivScalar(v: Vec3, s: real): Vec3
    requires s != 0.0
  {
    MulScalar(v, 1.0 / s)
  }

  /** Multiplying back by the divisor restores the vector. */
  lemma DivScalarInverse(v: Vec3, s: real)
    requires s != 0.0
    ensures MulScalar(DivScalar(v, s), s) == v
  {
    var k := 1.0 / s;
    assert k * s == 1.0;
    assert v.x * k * s == v.x * (k * s) && v.y * k * s == v.y * (k * s) && v.z * k * s == v.z * (k * s);
  }

  /** `s * v`, the scalar on the left. */
  function Scale(s: real, v: Vec3): Vec3 {
    MulScalar(v, s)
  }

  function Add(a: Vec3, b: Vec3): Vec3 {
    Vec3(a.x + b.x, a.y + b.y, a.z + b.z)
  }

  function Sub(a: Vec3, b: Vec3): Vec3 {
    Vec3(a.x - b.x, a.y - b.y, a.z - b.z)
  }

  /** Component-wise product of two vectors. */
  function Mul(a: Vec3, b: Vec3): Vec3 {
    Vec3(a.x * b.x, a.y * b.y, a.z * b.z)
  }

  /** A scalar operator is the vector operator applied to `(s, s, s)`. */
  lemma ScalarOperatorsBroadcast(v: Vec3, s: real)
    ensures AddScalar(v, s) == Add(v, Vec3(s, s, s))
    ensures SubScalar(v, s) == Sub(v, Vec3(s, s, s))
    ensures MulScalar(v, s) == Mul(v, Vec3(s, s, s))
  {
  }

  lemma AddSubInverse(a: Vec3, b: Vec3)
    ensures Add(Sub(a, b), b) == a && Sub(Add(a, b), b) == a
    ensures Sub(a, b) == Add(a, Neg(b))
    ensures Add(a, b) == Add(b, a) && Mul(a, b) == Mul(b, a)
  {
  }

  /** `unit_vector`: `v / |v|`. For the zero vector the source divides by zero
      and gets NaN components; the model gives the zero vector there. */
  function UnitVector(v: Vec3, sqrt: real -> real): Vec3 {
    var len := Length(v, sqrt);
    if len == 0.0 then Zero() else DivScalar(v, len)
  }

  /** A vector of non-zero length is scaled to length 1; every component of
      the result lies in `[-1, 1]`. */
  lemma UnitVectorIsUnit(v: Vec3, sqrt: real -> real)
    requires IsSqrt(sqrt)
    ensures Length(v, sqrt) != 0.0 ==> LengthSquared(UnitVector(v, sqrt)) == 1.0
    ensures var u := UnitVector(v, sqrt);
      -1.0 <= u.x <= 1.0 && -1.0 <= u.y <= 1.0 && -1.0 <= u.z <= 1.0
  {
    var len := sqrt(LengthSquared(v));
    assert len * len == LengthSquared(v) && 0.0 <= len;
    if len != 0.0 {
      NormalisedIsUnit(v, len);
    }
  }

  /** Dividing by a non-zero square root of the squared length gives a
      vector of squared length 1 whose components lie in `[-1, 1]`. */
  lemma NormalisedIsUnit(v: Vec3, len: real)
    requires 0.0 < len && len * len == LengthSquared(v)
    ensures var u := DivScalar(v, len);
      LengthSquared(u) == 1.0 && -1.0 <= u.x <= 1.0 && -1.0 <= u.y <= 1.0 && -1.0 <= u.z <= 1.0
  {
    var n := LengthSquared(v);
    var k := 1.0 / len;
    var u := DivScalar(v, len);
    assert u == Vec3(v.x * k, v.y * k, v.z * k);
    calc {
      LengthSquared(u);
      v.x * k * (v.x * k) + v.y * k * (v.y * k) + v.z * k * (v.z * k);
      { SquareOfProduct(v.x, k); SquareOfProduct(v.y, k); SquareOfProduct(v.z, k); }
      n * (k * k);
      { assert k * k * n == (k * len) * (k * len); }
      1.0;
    }
    UnitComponentBound(u.x, LengthSquared(u));
    UnitComponentBound(u.y, LengthSquared(u));
    UnitComponentBound(u.z, LengthSquared(u));
  }

  lemma SquareOfProduct(a: real, k: real)
    ensures a * k * (a * k) == a * a * (k * k)
  {
  }

  lemma UnitComponentBound(c: real, n: real)
    requires c * c <= n && n == 1.0
    ensures -1.0 <= c <= 1.0
  {
  }
}
