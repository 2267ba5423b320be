/**
 * The numerics the engine borrows from glm and the C library.
 *
 * Vectors, quaternions and 4x4 matrices are kept symbolic: each glm operation
 * the animation code calls is a constructor of a free term algebra, so two
 * transforms are equal exactly when they are built by the same sequence of
 * operations from the same inputs. This is what lets the model say WHICH
 * product of WHICH factors ends up in a palette slot without interpreting
 * floating-point matrix arithmetic.
 */
module Maths {

  /** A 2-component vector (texture coordinates). */
  datatype Vec2 = Vec2(x: real, y: real)

  /** A 3-component vector; `Mix` is glm::mix (linear interpolation). */
  datatype Vec3 =
    | Vec3(x: real, y: real, z: real)
    | Mix(from: Vec3, to: Vec3, factor: real)

  /** A quaternion; `Slerp` is glm::slerp and `Normalize` glm::normalize. */
  datatype Quat =
    | Quat(w: real, x: real, y: real, z: real)
    | Slerp(from: Quat, to: Quat, factor: real)
    | Normalize(q: Quat)

  /**
   * A 4x4 matrix. `Imported` is a matrix read from the asset file (identified by
   * a tag), `Transpose` the row-major to column-major conversion applied to it,
   * `Mul` the matrix product, and `Translate`, `RotateQ`, `ScaleV` the results of
   * glm::translate(I, v), glm::toMat4(q) and glm::scale(I, v).
   */
  datatype Mat4 =
    | Identity
    | Imported(tag: int)
    | Transpose(m: Mat4)
    | Mul(left: Mat4, right: Mat4)
    | Translate(offset: Vec3)
    | RotateQ(rotation: Quat)
    | ScaleV(factors: Vec3)

  const ZeroVec2: Vec2 := Vec2(0.0, 0.0)
  const ZeroVec3: Vec3 := Vec3(0.0, 0.0, 0.0)

  /** glm::clamp on a scalar. */
  function Clamp(x: real, lo: real, hi: real): (r: real)
    requires lo <= hi
    ensures lo <= r <= hi
    ensures lo <= x <= hi ==> r == x
    ensures x < lo ==> r == lo
    ensures hi < x ==> r == hi
  {
    if x < lo then lo else if hi < x then hi else x
  }

  /** Truncation toward zero, the rounding C's fmod is defined by. */
  function Trunc(x: real): (r: int)
    ensures 0.0 <= x ==> r as real <= x < r as real + 1.0
    ensures x < 0.0 ==> r as real - 1.0 < x <= r as real
  {
    if 0.0 <= x then x.Floor else -((-x).Floor)
  }

  /**
   * C's fmod (ISO C, section 7.12.10.1): x - n*y where n is x/y truncated toward
   * zero. A zero divisor yields NaN in C, so it is excluded here.
   */
  function Fmod(x: real, y: real): (r: real)
    requires y != 0.0
  {
    x - (Trunc(x / y) as real) * y
  }

  /** Scaling both sides of a weak inequality by a positive factor. */
  lemma ScaleLe(a: real, b: real, y: real)
    requires 0.0 < y && a <= b
    ensures a * y <= b * y
  {
    assert (b - a) * y == b * y - a * y;
  }

  /** Scaling both sides of a strict inequality by a positive factor. */
  lemma ScaleLt(a: real, b: real, y: real)
    requires 0.0 < y && a < b
    ensures a * y < b * y
  {
    assert (b - a) * y == b * y - a * y;
    assert 0.0 < (b - a) * y;
  }

  /** A non-negative value below a positive divisor has a quotient below one. */
  lemma QuotientBelowOne(x: real, y: real)
    requires 0.0 < y && 0.0 <= x < y
    ensures x / y < 1.0
  {
    if 1.0 <= x / y {
      ScaleLe(1.0, x / y, y);
    }
  }

  /** A quotient bracketed by m and m + 1 brackets the dividend by m*y and m*y + y. */
  lemma QuotientBracket(x: real, y: real, m: real)
    requires 0.0 < y && m <= x / y < m + 1.0
    ensures m * y <= x
    ensures x < m * y + y
  {
    var q := x / y;
    assert q * y == x;
    ScaleLe(m, q, y);
    var m1 := m + 1.0;
    ScaleLt(q, m1, y);
    assert m1 * y == m * y + y;
    assert x < m1 * y;
  }

  /**
   * The range promised by section 7.12.10.1: the result has the sign of x and a
   * magnitude below that of y. For a positive period and a non-negative clock
   * (the looping case) this is 0 <= r < y.
   */
  lemma FmodRange(x: real, y: real)
    requires 0.0 < y && 0.0 <= x
    ensures 0.0 <= Fmod(x, y) < y
    ensures x < y ==> Fmod(x, y) == x
  {
    var q := x / y;
    assert q * y == x;
    if q < 0.0 {
      ScaleLt(q, 0.0, y);
    }
    var n := Trunc(q);
    QuotientBracket(x, y, n as real);
    if x < y {
      QuotientBelowOne(x, y);
      assert n == 0;
    }
  }

  /** fmod of a negative clock by a positive period stays in (-y, 0]. */
  lemma FmodNegative(x: real, y: real)
    requires 0.0 < y && x < 0.0
    ensures -y < Fmod(x, y) <= 0.0
  {
    var q := x / y;
    assert q * y == x;
    if 0.0 <= q {
      ScaleLe(0.0, q, y);
    }
    var m := Trunc(q) as real;
    ScaleLe(q, m, y);
    ScaleLt(m - 1.0, q, y);
    assert (m - 1.0) * y == m * y - y;
  }
}
