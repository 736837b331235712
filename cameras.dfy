/**
 * Camera mathematics that does not depend on the scene graph: the projection
 * matrices of the two camera classes (glm's base matrix with the engine's
 * sign flips) and the eight frustum corners with their near/far
 * interpolation.
 */
module Cameras {
  import opened Linear
  import opened SceneTypes

  /** Entries flipped by the projective camera: [1][1], [2][2] and [2][3]. */
  predicate ProjectiveFlip(i: nat, j: nat) {
    (i == 1 && j == 1) || (i == 2 && j == 2) || (i == 2 && j == 3)
  }

  /** Entries flipped by the ortho camera's sized overload: [1][1] and [2][2]. */
  predicate OrthoSizedFlip(i: nat, j: nat) {
    (i == 1 && j == 1) || (i == 2 && j == 2)
  }

  /** Entries flipped by the ortho camera's parameterless overload: [2][2] only. */
  predicate OrthoDefaultFlip(i: nat, j: nat) {
    i == 2 && j == 2
  }

  /** `base` with exactly the entries selected by `flip` negated. */
  ghost predicate FlippedFrom(r: Mat4, base: Mat4, flip: (nat, nat) -> bool) {
    forall i, j :: 0 <= i < 4 && 0 <= j < 4 ==>
      r.At(i, j) == if flip(i, j) then -base.At(i, j) else base.At(i, j)
  }

  /** glm::perspectiveFov for a projective camera and a window of `width` by `height`. */
  function PerspectiveBase(glm: Glm, c: CameraData, width: real, height: real): Mat4
    requires c.lens.Projective?
  {
    glm.perspectiveFov(glm.radians(c.lens.fov), width, height, c.nearPlane, c.farPlane)
  }

  /** VECameraProjective::getProjectionMatrix(width, height), the returned matrix. */
  function ProjectiveMatrix(glm: Glm, c: CameraData, width: real, height: real): (r: Mat4)
    requires c.lens.Projective?
  {
    var pm := PerspectiveBase(glm, c, width, height);
    NegateAt(NegateAt(NegateAt(pm, 1, 1), 2, 2), 2, 3)
  }

  /**
   * The projective camera's matrix is glm's perspective matrix with exactly
   * [1][1], [2][2] and [2][3] negated (Vulkan's y and depth conventions).
   */
  lemma ProjectiveMatrixFlips(glm: Glm, c: CameraData, width: real, height: real)
    requires c.lens.Projective?
    ensures FlippedFrom(ProjectiveMatrix(glm, c, width, height), PerspectiveBase(glm, c, width, height), ProjectiveFlip)
  {
    var pm := PerspectiveBase(glm, c, width, height);
    NegateAtEntries(pm, 1, 1);
    NegateAtEntries(NegateAt(pm, 1, 1), 2, 2);
    NegateAtEntries(NegateAt(NegateAt(pm, 1, 1), 2, 2), 2, 3);
  }

  /** The aspect ratio VECameraProjective::getProjectionMatrix(width, height) stores. */
  function ResizedLens(c: CameraData, width: real, height: real): (d: CameraData)
    requires c.lens.Projective? && height != 0.0
    ensures d.lens == Projective(width / height, c.lens.fov)
    ensures d.(lens := c.lens) == c
  {
    c.(lens := Projective(width / height, c.lens.fov))
  }

  /** glm::ortho for the sized overload: the box scaled by the window extent. */
  function OrthoSizedBase(glm: Glm, c: CameraData, width: real, height: real): Mat4
    requires c.lens.Ortho?
  {
    glm.ortho(-width * c.lens.width / 2.0, width * c.lens.width / 2.0,
              -height * c.lens.height / 2.0, height * c.lens.height / 2.0,
              c.nearPlane, c.farPlane)
  }

  /** glm::ortho for the parameterless overload: the camera's own box. */
  function OrthoDefaultBase(glm: Glm, c: CameraData): Mat4
    requires c.lens.Ortho?
  {
    glm.ortho(-c.lens.width / 2.0, c.lens.width / 2.0,
              -c.lens.height / 2.0, c.lens.height / 2.0, c.nearPlane, c.farPlane)
  }

  /** VECameraOrtho::getProjectionMatrix(width, height) */
  function OrthoMatrix(glm: Glm, c: CameraData, width: real, height: real): (r: Mat4)
    requires c.lens.Ortho?
  {
    NegateAt(NegateAt(OrthoSizedBase(glm, c, width, height), 1, 1), 2, 2)
  }

  /** The sized ortho matrix is glm's ortho matrix with exactly [1][1] and [2][2] negated. */
  lemma OrthoMatrixFlips(glm: Glm, c: CameraData, width: real, height: real)
    requires c.lens.Ortho?
    ensures FlippedFrom(OrthoMatrix(glm, c, width, height), OrthoSizedBase(glm, c, width, height), OrthoSizedFlip)
  {
    var base := OrthoSizedBase(glm, c, width, height);
    NegateAtEntries(base, 1, 1);
    NegateAtEntries(NegateAt(base, 1, 1), 2, 2);
  }

  /** VECameraOrtho::getProjectionMatrix() */
  function OrthoDefaultMatrix(glm: Glm, c: CameraData): (r: Mat4)
    requires c.lens.Ortho?
  {
    NegateAt(OrthoDefaultBase(glm, c), 2, 2)
  }

  /** The parameterless ortho matrix is glm's ortho matrix with only [2][2] negated. */
  lemma OrthoDefaultMatrixFlips(glm: Glm, c: CameraData)
    requires c.lens.Ortho?
    ensures FlippedFrom(OrthoDefaultMatrix(glm, c), OrthoDefaultBase(glm, c), OrthoDefaultFlip)
  {
    NegateAtEntries(OrthoDefaultBase(glm, c), 2, 2);
  }

  /**
   * The two ortho overloads disagree in one entry only: the parameterless one
   * equals the sized one at a 1 by 1 window with row 1 of column 1 not flipped.
   */
  lemma OrthoOverloadsDifferInYFlip(glm: Glm, c: CameraData)
    requires c.lens.Ortho?
    ensures OrthoDefaultBase(glm, c) == OrthoSizedBase(glm, c, 1.0, 1.0)
    ensures OrthoMatrix(glm, c, 1.0, 1.0) == NegateAt(OrthoDefaultMatrix(glm, c), 1, 1)
  {
    var base := OrthoDefaultBase(glm, c);
    assert -1.0 * c.lens.width / 2.0 == -c.lens.width / 2.0;
    assert 1.0 * c.lens.width / 2.0 == c.lens.width / 2.0;
    assert -1.0 * c.lens.height / 2.0 == -c.lens.height / 2.0;
    assert 1.0 * c.lens.height / 2.0 == c.lens.height / 2.0;
    assert OrthoSizedBase(glm, c, 1.0, 1.0) == base;
  }

  /** getProjectionMatrix() of either camera class: what the camera UBO receives. */
  function ProjectionMatrix(glm: Glm, c: CameraData): (r: Mat4)
  {
    match c.lens
    case Projective(aspect, _) => ProjectiveMatrix(glm, c, aspect, 1.0)
    case Ortho(_, _) => OrthoDefaultMatrix(glm, c)
  }

  /**
   * The projective parameterless overload delegates with (aspect, 1), so the
   * aspect ratio it stores is the one it already had: it changes nothing.
   */
  lemma ProjectionKeepsAspect(c: CameraData)
    requires c.lens.Projective?
    ensures ResizedLens(c, c.lens.aspectRatio, 1.0) == c
  {
    assert c.lens.aspectRatio / 1.0 == c.lens.aspectRatio;
  }

  // ---------------------------------------------------------------------
  // Frustum points

  /** The four corners of a rectangle of half extents `hw`, `hh` at depth `d`, in corner order. */
  function Quad(hw: real, hh: real, d: real): seq<Vec4> {
    [Vec4(-hw, -hh, d, 1.0), Vec4(hw, -hh, d, 1.0), Vec4(-hw, hh, d, 1.0), Vec4(hw, hh, d, 1.0)]
  }

  /** Half height and half width of the projective camera's frustum at unit depth. */
  function TanHalfFov(glm: Glm, c: CameraData): real
    requires c.lens.Projective?
  {
    glm.tan(glm.radians(c.lens.fov / 2.0))
  }

  /**
   * The eight corners in camera space, near plane first: the projective
   * frustum grows with depth, the ortho box does not.
   */
  function LocalCorners(glm: Glm, c: CameraData): (r: seq<Vec4>)
    ensures |r| == 8
    ensures forall i :: 0 <= i < 8 ==> r[i].z == if i < 4 then c.nearPlane else c.farPlane
    ensures forall i :: 0 <= i < 8 ==> r[i].w == 1.0
  {
    match c.lens
    case Projective(aspect, _) =>
      var halfh := TanHalfFov(glm, c);
      var halfw := halfh * aspect;
      Quad(c.nearPlane * halfw, c.nearPlane * halfh, c.nearPlane) +
      Quad(c.farPlane * halfw, c.farPlane * halfh, c.farPlane)
    case Ortho(width, height) =>
      Quad(width / 2.0, height / 2.0, c.nearPlane) + Quad(width / 2.0, height / 2.0, c.farPlane)
  }

  /** The corners transformed into world space by `w`, in the order they are appended. */
  function WorldCorners(glm: Glm, c: CameraData, w: Mat4): (r: seq<Vec4>)
    ensures |r| == 8
    ensures forall i :: 0 <= i < 8 ==> r[i] == MulVec(w, LocalCorners(glm, c)[i])
  {
    var l := LocalCorners(glm, c);
    seq(8, i requires 0 <= i < 8 => MulVec(w, l[i]))
  }

  /**
   * The in-place interpolation loop: for i < 4, position i becomes the near
   * corner moved by z0 towards its far partner at i + 4, and position i + 4
   * the near corner moved by z1. Positions from 8 on are untouched.
   */
  function Interpolated(p: seq<Vec4>, z0: real, z1: real): (r: seq<Vec4>)
    requires |p| >= 8
    ensures |r| == |p|
    ensures forall i :: 0 <= i < 4 ==> r[i] == Lerp(p[i], p[i + 4], z0) && r[i + 4] == Lerp(p[i], p[i + 4], z1)
    ensures forall i :: 8 <= i < |p| ==> r[i] == p[i]
  {
    seq(|p|, i requires 0 <= i < |p| =>
      if i < 4 then Lerp(p[i], p[i + 4], z0)
      else if i < 8 then Lerp(p[i - 4], p[i], z1)
      else p[i])
  }

  /** Interpolating with (0, 1) leaves the raw near and far corners in place. */
  lemma InterpolatedFullRange(p: seq<Vec4>)
    requires |p| >= 8
    ensures Interpolated(p, 0.0, 1.0) == p
  {
    var r := Interpolated(p, 0.0, 1.0);
    forall i | 0 <= i < |p| ensures r[i] == p[i] {
      if i < 4 {
        assert r[i] == Lerp(p[i], p[i + 4], 0.0);
      } else if i < 8 {
        assert r[i] == Lerp(p[i - 4], p[i], 1.0);
      }
    }
  }

  /** The frustum points of a camera at world transform `w`, for an initially empty list. */
  function FrustumPoints(glm: Glm, c: CameraData, w: Mat4, z0: real, z1: real): (r: seq<Vec4>)
    ensures |r| == 8
  {
    Interpolated(WorldCorners(glm, c, w), z0, z1)
  }
}
