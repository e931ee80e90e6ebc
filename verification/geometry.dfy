/**
 * Small vector algebra used by the icosahedron generator, and its face-normal rule
 * (Icosahedron::computeFaceNormal).
 *
 * Coordinates are `real`: float rounding is not modelled. The C maths functions the
 * generator calls (sinf, cosf, atanf, sqrtf) are not defined here; they are supplied by
 * the caller as a `MathLib` value and are otherwise arbitrary.
 */
module Geometry {

  /** A point or a direction: a C++ `float[3]`. */
  datatype Vec3 = Vec3(x: real, y: real, z: real)

  /** A texture coordinate: a C++ `float[2]`. */
  datatype Vec2 = Vec2(s: real, t: real)

  /** The maths library the generator calls: sinf, cosf, atanf and sqrtf. */
  datatype MathLib = MathLib(sin: real -> real, cos: real -> real, atan: real -> real, sqrt: real -> real)

  /** Threshold below which a cross product counts as zero (computeFaceNormal's EPSILON). */
  const EPSILON: real := 0.000001

  const Zero: Vec3 := Vec3(0.0, 0.0, 0.0)

  function Sub(a: Vec3, b: Vec3): Vec3 {
    Vec3(a.x - b.x, a.y - b.y, a.z - b.z)
  }

  function ScaleBy(v: Vec3, k: real): Vec3 {
    Vec3(v.x * k, v.y * k, v.z * k)
  }

  function Dot(a: Vec3, b: Vec3): real {
    a.x * b.x + a.y * b.y + a.z * b.z
  }

  function Cross(a: Vec3, b: Vec3): Vec3 {
    Vec3(a.y * b.z - a.z * b.y, a.z * b.x - a.x * b.z, a.x * b.y - a.y * b.x)
  }

  /** The cross product is orthogonal to both of its factors. */
  lemma CrossOrthogonal(a: Vec3, b: Vec3)
    ensures Dot(Cross(a, b), a) == 0.0 && Dot(Cross(a, b), b) == 0.0
  {
  }

  lemma DotScale(v: Vec3, k: real, w: Vec3)
    ensures Dot(ScaleBy(v, k), w) == k * Dot(v, w)
  {
  }

  /** Dividing by a non-zero b and multiplying by it again, in either order, gives back a. */
  lemma DivMulCancel(a: real, b: real)
    ensures b != 0.0 ==> a / b * b == a && a * b / b == a
  {
  }

  /**
   * The normal of triangle v1-v2-v3: the cross product of the edges v1->v2 and v1->v3,
   * divided by its length, or the zero vector when that length is not above EPSILON.
   */
  function FaceNormal(m: MathLib, v1: Vec3, v2: Vec3, v3: Vec3): Vec3 {
    var c := Cross(Sub(v2, v1), Sub(v3, v1));
    var length := m.sqrt(Dot(c, c));
    if length > EPSILON then
      var lengthInv := 1.0 / length;
      ScaleBy(c, lengthInv)
    else
      Zero
  }

  /**
   * The face normal is orthogonal to both edges of the triangle, and it is either the
   * zero vector or the cross product scaled by the reciprocal of its (above-EPSILON) length.
   */
  lemma FaceNormalOrthogonal(m: MathLib, v1: Vec3, v2: Vec3, v3: Vec3)
    ensures var n := FaceNormal(m, v1, v2, v3);
            Dot(n, Sub(v2, v1)) == 0.0 && Dot(n, Sub(v3, v1)) == 0.0
    ensures var c := Cross(Sub(v2, v1), Sub(v3, v1));
            var n := FaceNormal(m, v1, v2, v3);
            n == Zero || (m.sqrt(Dot(c, c)) > EPSILON && n == ScaleBy(c, 1.0 / m.sqrt(Dot(c, c))))
  {
    var e1, e2 := Sub(v2, v1), Sub(v3, v1);
    var c := Cross(e1, e2);
    var length := m.sqrt(Dot(c, c));
    if length > EPSILON {
      CrossOrthogonal(e1, e2);
      DotScale(c, 1.0 / length, e1);
      DotScale(c, 1.0 / length, e2);
    }
  }

  /** When sqrt is exact at the squared cross-product length, a non-degenerate normal has unit length. */
  lemma FaceNormalIsUnit(m: MathLib, v1: Vec3, v2: Vec3, v3: Vec3)
    requires var c := Cross(Sub(v2, v1), Sub(v3, v1));
             m.sqrt(Dot(c, c)) * m.sqrt(Dot(c, c)) == Dot(c, c)
    requires FaceNormal(m, v1, v2, v3) != Zero
    ensures Dot(FaceNormal(m, v1, v2, v3), FaceNormal(m, v1, v2, v3)) == 1.0
  {
    var c := Cross(Sub(v2, v1), Sub(v3, v1));
    var len := m.sqrt(Dot(c, c));
    var inv := 1.0 / len;
    var n := FaceNormal(m, v1, v2, v3);
    assert len > EPSILON;
    assert n == ScaleBy(c, inv);
    DotScale(c, inv, n);
    DotScale(c, inv, c);
    calc {
      Dot(n, n);
      inv * Dot(c, n);
      inv * Dot(n, c);
      { assert Dot(n, c) == Dot(c, n); }
      inv * (inv * Dot(c, c));
      inv * inv * (len * len);
      (inv * len) * (inv * len);
      1.0;
    }
  }

  /**
   * A degenerate triangle (two equal corners, or all three on one line through v1) gets
   * the zero normal, as long as sqrt(0) is not above EPSILON.
   */
  lemma DegenerateFaceHasZeroNormal(m: MathLib, v1: Vec3, v2: Vec3, v3: Vec3, k: real)
    requires Sub(v2, v1) == Zero || Sub(v3, v1) == ScaleBy(Sub(v2, v1), k)
    requires m.sqrt(0.0) <= EPSILON
    ensures FaceNormal(m, v1, v2, v3) == Zero
  {
    var e1, e2 := Sub(v2, v1), Sub(v3, v1);
    if e1 != Zero {
      assert Cross(e1, e2) == Zero by {
        assert e2 == ScaleBy(e1, k);
        assert e1.y * (e1.z * k) - e1.z * (e1.y * k) == 0.0;
        assert e1.z * (e1.x * k) - e1.x * (e1.z * k) == 0.0;
        assert e1.x * (e1.y * k) - e1.y * (e1.x * k) == 0.0;
      }
    }
    assert Dot(Cross(e1, e2), Cross(e1, e2)) == 0.0;
  }
}
