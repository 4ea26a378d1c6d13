/**
  * World-space points and the object-to-world matrices that place them.
  * Coordinates are exact reals; floating-point rounding is not modelled.
  */
module Geometry {

  datatype Vec3 = Vec3(x: real, y: real, z: real)

  /** `(a + b) / 2` on two vectors, componentwise. */
  function Midpoint(a: Vec3, b: Vec3): Vec3 {
    Vec3((a.x + b.x) / 2.0, (a.y + b.y) / 2.0, (a.z + b.z) / 2.0)
  }

  /** One row of an object matrix. */
  datatype Row = Row(a: real, b: real, c: real, d: real)

  /**
    * The upper three rows of a 4x4 `matrix_world`. Multiplying such a matrix by a
    * 3D vector extends the vector with w = 1 and keeps three components, so the
    * fourth row takes no part in it.
    */
  datatype Matrix = Matrix(r0: Row, r1: Row, r2: Row)

  function Dot(r: Row, v: Vec3): real {
    r.a * v.x + r.b * v.y + r.c * v.z + r.d
  }

  /** `m @ v` for a point `v`. */
  function Transform(m: Matrix, v: Vec3): Vec3 {
    Vec3(Dot(m.r0, v), Dot(m.r1, v), Dot(m.r2, v))
  }

  /** `m.translation`: where the matrix sends the object's own origin. */
  function Translation(m: Matrix): (t: Vec3)
    ensures t == Transform(m, Vec3(0.0, 0.0, 0.0))
  {
    Vec3(m.r0.d, m.r1.d, m.r2.d)
  }

  lemma DotMidpoint(r: Row, a: Vec3, b: Vec3)
    ensures Dot(r, Midpoint(a, b)) == (Dot(r, a) + Dot(r, b)) / 2.0
  {
    calc {
      Dot(r, Midpoint(a, b));
      r.a * ((a.x + b.x) / 2.0) + r.b * ((a.y + b.y) / 2.0) + r.c * ((a.z + b.z) / 2.0) + r.d;
      { assert r.a * ((a.x + b.x) / 2.0) == (r.a * a.x + r.a * b.x) / 2.0;
        assert r.b * ((a.y + b.y) / 2.0) == (r.b * a.y + r.b * b.y) / 2.0;
        assert r.c * ((a.z + b.z) / 2.0) == (r.c * a.z + r.c * b.z) / 2.0; }
      (Dot(r, a) + Dot(r, b)) / 2.0;
    }
  }

  /** An object matrix maps the midpoint of two points to the midpoint of their images. */
  lemma TransformMidpoint(m: Matrix, a: Vec3, b: Vec3)
    ensures Transform(m, Midpoint(a, b)) == Midpoint(Transform(m, a), Transform(m, b))
  {
    DotMidpoint(m.r0, a, b);
    DotMidpoint(m.r1, a, b);
    DotMidpoint(m.r2, a, b);
  }
}
