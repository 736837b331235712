/**
 * Vectors and 4x4 matrices as the engine uses them (glm conventions).
 *
 * A matrix is stored column-major: `m.Col(i)` is glm's `m[i]`, and
 * `m.At(i, j)` is glm's `m[i][j]` (column i, row j). Products are written out
 * over `real`, so world-transform composition is computed, not assumed.
 * Floating-point functions whose internals are out of scope (tan, inverse,
 * perspectiveFov, ...) are fields of the `Glm` record: any implementation
 * may be passed in, so nothing is proved about their values.
 */
module Linear {

  datatype Vec3 = Vec3(x: real, y: real, z: real)

  datatype Vec4 = Vec4(x: real, y: real, z: real, w: real) {
    /** Component `i`, as glm's `v[i]`. */
    function Get(i: nat): real
      requires i < 4
    {
      if i == 0 then x else if i == 1 then y else if i == 2 then z else w
    }

    /** The first three components, as `glm::vec3(v.x, v.y, v.z)`. */
    function Xyz(): Vec3 {
      Vec3(x, y, z)
    }
  }

  const Zero4: Vec4 := Vec4(0.0, 0.0, 0.0, 0.0)

  function Add(a: Vec4, b: Vec4): Vec4 {
    Vec4(a.x + b.x, a.y + b.y, a.z + b.z, a.w + b.w)
  }

  function Sub(a: Vec4, b: Vec4): Vec4 {
    Vec4(a.x - b.x, a.y - b.y, a.z - b.z, a.w - b.w)
  }

  function Scale(s: real, a: Vec4): Vec4 {
    Vec4(s * a.x, s * a.y, s * a.z, s * a.w)
  }

  function Dot(a: Vec4, b: Vec4): real {
    a.x * b.x + a.y * b.y + a.z * b.z + a.w * b.w
  }

  /** `a + t * (b - a)`, the interpolation used for frustum corners. */
  function Lerp(a: Vec4, b: Vec4, t: real): Vec4 {
    Add(a, Scale(t, Sub(b, a)))
  }

  function Add3(a: Vec3, b: Vec3): Vec3 {
    Vec3(a.x + b.x, a.y + b.y, a.z + b.z)
  }

  function Sub3(a: Vec3, b: Vec3): Vec3 {
    Vec3(a.x - b.x, a.y - b.y, a.z - b.z)
  }

  function Scale3(s: real, a: Vec3): Vec3 {
    Vec3(s * a.x, s * a.y, s * a.z)
  }

  function Dot3(a: Vec3, b: Vec3): real {
    a.x * b.x + a.y * b.y + a.z * b.z
  }

  function Cross(a: Vec3, b: Vec3): Vec3 {
    Vec3(a.y * b.z - a.z * b.y, a.z * b.x - a.x * b.z, a.x * b.y - a.y * b.x)
  }

  /** `glm::vec4(v, w)` */
  function Extend(v: Vec3, w: real): Vec4 {
    Vec4(v.x, v.y, v.z, w)
  }

  datatype Mat4 = Mat4(c0: Vec4, c1: Vec4, c2: Vec4, c3: Vec4) {
    /** Column `i`, as glm's `m[i]`. */
    function Col(i: nat): Vec4
      requires i < 4
    {
      if i == 0 then c0 else if i == 1 then c1 else if i == 2 then c2 else c3
    }

    /** Entry `m[i][j]`: column `i`, row `j`. */
    function At(i: nat, j: nat): real
      requires i < 4 && j < 4
    {
      Col(i).Get(j)
    }

    /** The matrix with column `i` replaced by `v` (`m[i] = v`). */
    function WithCol(i: nat, v: Vec4): (r: Mat4)
      requires i < 4
      ensures r.Col(i) == v
      ensures forall k :: 0 <= k < 4 && k != i ==> r.Col(k) == Col(k)
    {
      if i == 0 then Mat4(v, c1, c2, c3)
      else if i == 1 then Mat4(c0, v, c2, c3)
      else if i == 2 then Mat4(c0, c1, v, c3)
      else Mat4(c0, c1, c2, v)
    }
  }

  const Identity: Mat4 :=
    Mat4(Vec4(1.0, 0.0, 0.0, 0.0), Vec4(0.0, 1.0, 0.0, 0.0),
         Vec4(0.0, 0.0, 1.0, 0.0), Vec4(0.0, 0.0, 0.0, 1.0))

  /** `v[0] * m[0] + ... + v[k-1] * m[k-1]`: the first `k` columns of `m`, weighted by `v`. */
  function ColumnSum(m: Mat4, v: Vec4, k: nat): Vec4
    requires k <= 4
    decreases k
  {
    if k == 0 then Zero4 else Add(ColumnSum(m, v, k - 1), Scale(v.Get(k - 1), m.Col(k - 1)))
  }

  /** `m * v` */
  function MulVec(m: Mat4, v: Vec4): Vec4 {
    ColumnSum(m, v, 4)
  }

  /** `a * b`: column `i` of the product is `a * b[i]`. */
  function Mul(a: Mat4, b: Mat4): Mat4 {
    Mat4(MulVec(a, b.c0), MulVec(a, b.c1), MulVec(a, b.c2), MulVec(a, b.c3))
  }

  lemma MulVecIdentity(v: Vec4)
    ensures MulVec(Identity, v) == v
  {
    assert ColumnSum(Identity, v, 1) == Vec4(v.x, 0.0, 0.0, 0.0);
    assert ColumnSum(Identity, v, 2) == Vec4(v.x, v.y, 0.0, 0.0);
    assert ColumnSum(Identity, v, 3) == Vec4(v.x, v.y, v.z, 0.0);
    assert ColumnSum(Identity, v, 4) == v;
  }

  /** The identity is a left unit of the product. */
  lemma MulIdentityLeft(m: Mat4)
    ensures Mul(Identity, m) == m
  {
    MulVecIdentity(m.c0);
    MulVecIdentity(m.c1);
    MulVecIdentity(m.c2);
    MulVecIdentity(m.c3);
  }

  /** The matrix with entry `m[i][j]` multiplied by -1 (`m[i][j] *= -1.0f`). */
  function NegateAt(m: Mat4, i: nat, j: nat): Mat4
    requires i < 4 && j < 4
  {
    var c := m.Col(i);
    var v := if j == 0 then c.(x := -c.x) else if j == 1 then c.(y := -c.y)
             else if j == 2 then c.(z := -c.z) else c.(w := -c.w);
    m.WithCol(i, v)
  }

  /** Negating entry [i][j] changes that entry's sign and no other entry. */
  lemma NegateAtEntries(m: Mat4, i: nat, j: nat)
    requires i < 4 && j < 4
    ensures forall a, b :: 0 <= a < 4 && 0 <= b < 4 ==>
      NegateAt(m, i, j).At(a, b) == if a == i && b == j then -m.At(i, j) else m.At(a, b)
  {
  }

  /**
   * The floating-point library functions the engine calls and whose
   * internals are not modelled. Passing a record of them keeps them
   * uninterpreted: every property proved holds for any choice.
   */
  datatype Glm = Glm(
    radians: real -> real,                                   // glm::radians
    tan: real -> real,                                       // tan
    perspectiveFov: (real, real, real, real, real) -> Mat4,  // glm::perspectiveFov(fov, w, h, near, far)
    ortho: (real, real, real, real, real, real) -> Mat4,     // glm::ortho(l, r, b, t, near, far)
    inverse: Mat4 -> Mat4,                                   // glm::inverse
    transpose: Mat4 -> Mat4,                                 // glm::transpose
    normalize: Vec3 -> Vec3                                  // glm::normalize
  )
}
