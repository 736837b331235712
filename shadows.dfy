/**
 * Shadow cameras: VECamera::createShadowCamera and its ortho and projective
 * variants. A shadow camera is a new root camera node of the scene; the
 * caller decides where to keep it.
 */
module Shadows {
  import opened Linear
  import opened SceneTypes
  import opened Cameras
  import opened SceneGraph
  import opened Seqs

  /** The field of view of every projective shadow camera: 45 * 2 / 360. */
  const ShadowFov: real := 45.0 * 2.0 / 360.0

  /** Near and far planes of the ortho shadow camera: 0.1 and five times the box depth. */
  function OrthoShadowCamera(obb: Obb, nearFraction: real, farFraction: real): CameraData {
    CameraData(0.1, obb.depth * 5.0, nearFraction, farFraction, Ortho(obb.width, obb.height))
  }

  /**
   * The ortho shadow camera's local transform: the light's world transform
   * with the position moved to 0.9 of the far-plane distance behind the box
   * centre, along the light's z axis.
   */
  function OrthoShadowTransform(lightWorld: Mat4, obb: Obb): Mat4 {
    lightWorld.WithCol(3, Extend(OrthoShadowPosition(lightWorld, obb), 1.0))
  }

  /** The ortho shadow camera's position: 0.9 of the far-plane distance behind the box centre. */
  function OrthoShadowPosition(lightWorld: Mat4, obb: Obb): Vec3 {
    Sub3(obb.center, Scale3(obb.depth * 5.0 * 0.9, lightWorld.c2.Xyz()))
  }

  /**
   * The ortho shadow camera looks along the light: it keeps the light's three
   * world axes, and along a unit z axis the box centre lies 4.5 box depths
   * in front of it. So the box's depth range [4d, 5d] lies between the near
   * plane 0.1 and the far plane 5d whenever the box depth d is at least 1/40.
   */
  lemma OrthoShadowCoversBox(lightWorld: Mat4, obb: Obb)
    requires Dot3(lightWorld.c2.Xyz(), lightWorld.c2.Xyz()) == 1.0
    ensures OrthoShadowTransform(lightWorld, obb).c0 == lightWorld.c0
    ensures OrthoShadowTransform(lightWorld, obb).c1 == lightWorld.c1
    ensures OrthoShadowTransform(lightWorld, obb).c2 == lightWorld.c2
    ensures Dot3(Sub3(obb.center, OrthoShadowTransform(lightWorld, obb).c3.Xyz()), lightWorld.c2.Xyz())
            == 4.5 * obb.depth
    ensures obb.depth >= 0.025 ==>
      OrthoShadowCamera(obb, 0.0, 0.0).nearPlane <= 4.5 * obb.depth - obb.depth / 2.0 &&
      4.5 * obb.depth + obb.depth / 2.0 <= OrthoShadowCamera(obb, 0.0, 0.0).farPlane
  {
    var z := lightWorld.c2.Xyz();
    var d := obb.depth * 5.0 * 0.9;
    var pos := OrthoShadowTransform(lightWorld, obb).c3.Xyz();
    assert pos == Sub3(obb.center, Scale3(d, z));
    assert Sub3(obb.center, pos) == Scale3(d, z);
    assert Dot3(Scale3(d, z), z) == d * Dot3(z, z);
  }

  /**
   * Near and far plane distances of the projective shadow camera, measured
   * along `z` from the light at `pos` to the two ends of the sphere; a
   * distance that is not positive becomes 0.1 (near) or 1.0 (far).
   */
  function ShadowPlanes(center: Vec3, radius: real, z: Vec3, pos: Vec3): (r: (real, real))
    ensures r.0 > 0.0 && r.1 > 0.0
    ensures Dot3(Sub3(center, Scale3(radius, z)), z) - Dot3(pos, z) > 0.0 ==>
      r.0 == Dot3(Sub3(center, Scale3(radius, z)), z) - Dot3(pos, z)
    ensures Dot3(Add3(center, Scale3(radius, z)), z) - Dot3(pos, z) > 0.0 ==>
      r.1 == Dot3(Add3(center, Scale3(radius, z)), z) - Dot3(pos, z)
  {
    var pz := Dot3(pos, z);
    var onear := Dot3(Sub3(center, Scale3(radius, z)), z) - pz;
    var ofar := Dot3(Add3(center, Scale3(radius, z)), z) - pz;
    (if onear <= 0.0 then 0.1 else onear, if ofar <= 0.0 then 1.0 else ofar)
  }

  /** The projective shadow camera: aspect ratio 1 and the fixed field of view. */
  function ProjectiveShadowCamera(planes: (real, real), nearFraction: real, farFraction: real): CameraData {
    CameraData(planes.0, planes.1, nearFraction, farFraction, Projective(1.0, ShadowFov))
  }

  /**
   * Whatever the sphere and the light position, the projective shadow camera
   * has positive near and far planes, aspect ratio 1 and the field of view
   * 45 * 2 / 360, because the angle computed inside the `pz < bz` branch is
   * stored in a fresh inner variable and never reaches the camera.
   */
  lemma ProjectiveShadowCameraShape(center: Vec3, radius: real, z: Vec3, pos: Vec3, nf: real, ff: real)
    ensures ProjectiveShadowCamera(ShadowPlanes(center, radius, z, pos), nf, ff).nearPlane > 0.0
    ensures ProjectiveShadowCamera(ShadowPlanes(center, radius, z, pos), nf, ff).farPlane > 0.0
    ensures ProjectiveShadowCamera(ShadowPlanes(center, radius, z, pos), nf, ff).lens == Projective(1.0, 0.25)
  {
    var p := ShadowPlanes(center, radius, z, pos);
    assert p.0 > 0.0 && p.1 > 0.0;
  }

  /** The light-space box of camera `cam`'s frustum points between z0 and z1, along light `light`'s local axes in world space. */
  function OrthoShadowBox(glm: Glm, nodes: seq<Node>, cam: nat, light: nat, z0: real, z1: real): Obb
    requires Ordered(nodes) && cam < |nodes| && light < |nodes| && nodes[cam].kind.CameraNode?
  {
    ObbOf(World(nodes, light), FrustumPoints(glm, nodes[cam].kind.camera, World(nodes, cam), z0, z1))
  }

  /** The projective shadow camera's view direction: camera `cam`'s normalised local z axis. */
  function ShadowDirection(glm: Glm, nodes: seq<Node>, cam: nat): Vec3
    requires cam < |nodes|
  {
    glm.normalize(GetZAxis(nodes[cam]))
  }

  /** The node createShadowCameraOrtho adds: a root ortho camera placed behind the light-space box. */
  function OrthoShadowNode(glm: Glm, nodes: seq<Node>, cam: nat, light: nat, z0: real, z1: real,
                           nearFraction: real, farFraction: real): Node
    requires Ordered(nodes) && cam < |nodes| && light < |nodes| && nodes[cam].kind.CameraNode?
  {
    var obb := OrthoShadowBox(glm, nodes, cam, light, z0, z1);
    Node(OrthoShadowTransform(World(nodes, light), obb), None, [],
         CameraNode(OrthoShadowCamera(obb, nearFraction, farFraction)))
  }

  /** The node createShadowCameraProjective adds: a root projective camera looking from the light along `cam`'s z axis. */
  function ProjectiveShadowNode(glm: Glm, nodes: seq<Node>, cam: nat, light: nat, center: Vec3, radius: real,
                                nearFraction: real, farFraction: real): Node
    requires cam < |nodes| && light < |nodes|
  {
    var z := ShadowDirection(glm, nodes, cam);
    var pos := GetPosition(nodes[light]);
    var planes := ShadowPlanes(center, radius, z, pos);
    Node(LookAtMatrix(glm, pos, Add3(pos, Scale3(planes.1, z)), Vec3(0.0, 1.0, 0.0)), None, [],
         CameraNode(ProjectiveShadowCamera(planes, nearFraction, farFraction)))
  }

  /**
   * createShadowCameraOrtho: take the frustum corners of camera `cam`
   * between z0 and z1, box them along the light's local axes in world space, and place an
   * ortho camera of the box's width and height behind the box.
   */
  method CreateShadowCameraOrtho(scene: Scene, cam: nat, light: nat, z0: real, z1: real,
                                 nearFraction: real, farFraction: real) returns (id: nat)
    requires scene.Valid() && cam < |scene.nodes| && light < |scene.nodes|
    requires scene.nodes[cam].kind.CameraNode? && scene.nodes[light].kind.LightNode?
    modifies scene
    ensures scene.Valid()
    ensures id == old(|scene.nodes|) && |scene.nodes| == id + 1
    ensures scene.nodes[..id] == old(scene.nodes)
    ensures scene.nodes[id].parent.None? && scene.nodes[id].children == []
    ensures scene.nodes[id].kind ==
      CameraNode(OrthoShadowCamera(OrthoShadowBox(scene.glm, old(scene.nodes), cam, light, z0, z1), nearFraction, farFraction))
    ensures scene.nodes[id].transform ==
      OrthoShadowTransform(old(World(scene.nodes, light)), OrthoShadowBox(scene.glm, old(scene.nodes), cam, light, z0, z1))
    ensures scene.buffers == old(scene.buffers) +
      [Fill(scene.swapChainNumber, CameraBlock(CameraUbo(scene.glm, scene.nodes[id].kind.camera, scene.nodes[id].transform)))]
    ensures scene.uboCalls == old(scene.uboCalls) +
      [(id, Identity), (id, old(World(scene.nodes, light))), (id, scene.nodes[id].transform)]
    ensures scene.released == old(scene.released) && scene.perObjectLayoutCreated
  {
    ghost var nodes0 := scene.nodes;
    var pointsW := scene.GetFrustumPoints(cam, [], z0, z1);
    var obb, box := scene.GetOBB(light, pointsW);
    assert obb == OrthoShadowBox(scene.glm, nodes0, cam, light, z0, z1);
    var lightWorld := World(scene.nodes, light);
    id := NewOrthoShadowCamera(scene, OrthoShadowCamera(obb, nearFraction, farFraction), lightWorld, obb);
  }

  /** The new ortho camera of createShadowCameraOrtho, a root, followed by its two setters. */
  method NewOrthoShadowCamera(scene: Scene, c: CameraData, lightWorld: Mat4, obb: Obb) returns (id: nat)
    requires scene.Valid()
    modifies scene
    ensures scene.Valid()
    ensures id == old(|scene.nodes|) && |scene.nodes| == id + 1 && scene.nodes[..id] == old(scene.nodes)
    ensures scene.nodes[id] == Node(OrthoShadowTransform(lightWorld, obb), None, [], CameraNode(c))
    ensures scene.buffers == old(scene.buffers) +
      [Fill(scene.swapChainNumber, CameraBlock(CameraUbo(scene.glm, c, OrthoShadowTransform(lightWorld, obb))))]
    ensures scene.uboCalls == old(scene.uboCalls) + [(id, Identity), (id, lightWorld), (id, OrthoShadowTransform(lightWorld, obb))]
    ensures scene.released == old(scene.released) && scene.perObjectLayoutCreated
  {
    ghost var nodes0, buffers0, calls0 := scene.nodes, scene.buffers, scene.uboCalls;
    id := NewRootCamera(scene, c);
    ghost var nodes1, buffers1 := scene.nodes, scene.buffers;
    PlaceOrtho(scene, id, lightWorld, obb);
    UpdateAppended(nodes0, nodes1[id], scene.nodes[id]);
    UpdateAppended(buffers0, buffers1[id], scene.buffers[id]);
    AppendOneThenTwo(calls0, (id, Identity), (id, lightWorld), (id, OrthoShadowTransform(lightWorld, obb)));
  }

  /** A camera with no parent and the identity transform, as both shadow-camera builders create it. */
  method NewRootCamera(scene: Scene, c: CameraData) returns (id: nat)
    requires scene.Valid()
    modifies scene
    ensures scene.Valid()
    ensures id == old(|scene.nodes|) && scene.nodes == old(scene.nodes) + [Node(Identity, None, [], CameraNode(c))]
    ensures scene.buffers == old(scene.buffers) + [Fill(scene.swapChainNumber, Unwritten)]
    ensures scene.uboCalls == old(scene.uboCalls) + [(id, Identity)]
    ensures scene.released == old(scene.released) && scene.perObjectLayoutCreated
  {
    ghost var nodes0 := scene.nodes;
    id := scene.NewCamera(c, Identity, None);
    MulIdentityLeft(Identity);
    PrefixThenLast(scene.nodes, nodes0);
  }

  /** The two setters that place a new ortho shadow camera. */
  method PlaceOrtho(scene: Scene, id: nat, lightWorld: Mat4, obb: Obb)
    requires scene.Valid() && id < |scene.nodes| && scene.nodes[id].parent.None?
    requires scene.nodes[id].children == [] && scene.nodes[id].kind.CameraNode?
    modifies scene`nodes, scene`buffers, scene`uboCalls
    ensures scene.Valid()
    ensures scene.nodes == old(scene.nodes)[id := old(scene.nodes[id]).(transform := OrthoShadowTransform(lightWorld, obb))]
    ensures scene.buffers == old(scene.buffers)[id := Fill(scene.swapChainNumber,
      CameraBlock(CameraUbo(scene.glm, scene.nodes[id].kind.camera, OrthoShadowTransform(lightWorld, obb))))]
    ensures scene.uboCalls == old(scene.uboCalls) + [(id, lightWorld), (id, OrthoShadowTransform(lightWorld, obb))]
  {
    ghost var before := scene.nodes;
    ghost var b0 := scene.buffers;
    scene.SetTransform(id, lightWorld);
    LeafCascade(scene.glm, scene.nodes, scene.swapChainNumber, b0, id, Identity);
    MulIdentityLeft(lightWorld);
    ghost var placed := scene.nodes[id];
    ghost var b1 := scene.buffers;
    scene.SetPosition(id, OrthoShadowPosition(lightWorld, obb));
    LeafCascade(scene.glm, scene.nodes, scene.swapChainNumber, b1, id, Identity);
    MulIdentityLeft(scene.nodes[id].transform);
    UpdateTwice(before, id, placed, scene.nodes[id]);
    UpdateTwice(b0, id, b1[id], scene.buffers[id]);
  }

  /**
   * createShadowCameraProjective: from the camera's bounding sphere (its
   * computation is floating-point work outside this model, so it is passed
   * in) and the camera's own local z axis, build a projective camera at the
   * light's local position looking along that axis.
   */
  method CreateShadowCameraProjective(scene: Scene, cam: nat, light: nat, center: Vec3, radius: real,
                                      nearFraction: real, farFraction: real) returns (id: nat)
    requires scene.Valid() && cam < |scene.nodes| && light < |scene.nodes|
    requires scene.nodes[cam].kind.CameraNode? && scene.nodes[light].kind.LightNode?
    modifies scene
    ensures scene.Valid()
    ensures id == old(|scene.nodes|) && |scene.nodes| == id + 1
    ensures scene.nodes[..id] == old(scene.nodes)
    ensures scene.nodes[id].parent.None? && scene.nodes[id].children == []
    ensures scene.nodes[id].kind == CameraNode(ProjectiveShadowCamera(
      ShadowPlanes(center, radius, ShadowDirection(scene.glm, old(scene.nodes), cam), GetPosition(old(scene.nodes[light]))),
      nearFraction, farFraction))
    ensures scene.nodes[id].transform == LookAtMatrix(scene.glm,
      GetPosition(old(scene.nodes[light])),
      Add3(GetPosition(old(scene.nodes[light])),
           Scale3(ShadowPlanes(center, radius, ShadowDirection(scene.glm, old(scene.nodes), cam),
                               GetPosition(old(scene.nodes[light]))).1,
                  ShadowDirection(scene.glm, old(scene.nodes), cam))),
      Vec3(0.0, 1.0, 0.0))
    ensures scene.buffers == old(scene.buffers) + [Fill(scene.swapChainNumber, Unwritten)]
    ensures scene.uboCalls == old(scene.uboCalls) + [(id, Identity)]
    ensures scene.released == old(scene.released) && scene.perObjectLayoutCreated
  {
    var z := ShadowDirection(scene.glm, scene.nodes, cam);
    var pos := GetPosition(scene.nodes[light]);
    var planes := ShadowPlanes(center, radius, z, pos);
    id := NewLookingCamera(scene, ProjectiveShadowCamera(planes, nearFraction, farFraction),
                           pos, Add3(pos, Scale3(planes.1, z)), Vec3(0.0, 1.0, 0.0));
  }

  /** The new projective camera of createShadowCameraProjective, a root, then lookAt: no buffer is written. */
  method NewLookingCamera(scene: Scene, c: CameraData, eye: Vec3, point: Vec3, up: Vec3) returns (id: nat)
    requires scene.Valid()
    modifies scene
    ensures scene.Valid()
    ensures id == old(|scene.nodes|) && |scene.nodes| == id + 1 && scene.nodes[..id] == old(scene.nodes)
    ensures scene.nodes[id] == Node(LookAtMatrix(scene.glm, eye, point, up), None, [], CameraNode(c))
    ensures scene.buffers == old(scene.buffers) + [Fill(scene.swapChainNumber, Unwritten)]
    ensures scene.uboCalls == old(scene.uboCalls) + [(id, Identity)]
    ensures scene.released == old(scene.released) && scene.perObjectLayoutCreated
  {
    ghost var nodes0 := scene.nodes;
    id := NewRootCamera(scene, c);
    ghost var placed := scene.nodes;
    scene.LookAt(id, eye, point, up);
    UpdateAppended(nodes0, placed[id], scene.nodes[id]);
  }

  /**
   * createShadowCamera: an ortho shadow camera for a directional light, a
   * projective one for every other light type.
   */
  method CreateShadowCamera(scene: Scene, cam: nat, light: nat, z0: real, z1: real, center: Vec3, radius: real,
                            nearFraction: real, farFraction: real) returns (id: nat)
    requires scene.Valid() && cam < |scene.nodes| && light < |scene.nodes|
    requires scene.nodes[cam].kind.CameraNode? && scene.nodes[light].kind.LightNode?
    modifies scene
    ensures scene.Valid()
    ensures id == old(|scene.nodes|) && |scene.nodes| == id + 1
    ensures scene.nodes[..id] == old(scene.nodes)
    ensures scene.nodes[id] == if old(scene.nodes[light].kind.light.lightType) == Directional
      then OrthoShadowNode(scene.glm, old(scene.nodes), cam, light, z0, z1, nearFraction, farFraction)
      else ProjectiveShadowNode(scene.glm, old(scene.nodes), cam, light, center, radius, nearFraction, farFraction)
    ensures scene.nodes[id].kind.camera.lens.Ortho? <==> old(scene.nodes[light].kind.light.lightType) == Directional
    ensures scene.nodes[id].kind.camera.nearPlane > 0.0
    ensures scene.buffers[..id] == old(scene.buffers) && scene.released == old(scene.released)
    ensures scene.buffers[id] == if old(scene.nodes[light].kind.light.lightType) == Directional
      then Fill(scene.swapChainNumber, CameraBlock(CameraUbo(scene.glm, scene.nodes[id].kind.camera, scene.nodes[id].transform)))
      else Fill(scene.swapChainNumber, Unwritten)
    ensures scene.uboCalls == old(scene.uboCalls) + if old(scene.nodes[light].kind.light.lightType) == Directional
      then [(id, Identity), (id, old(World(scene.nodes, light))), (id, scene.nodes[id].transform)]
      else [(id, Identity)]
    ensures scene.perObjectLayoutCreated
  {
    if scene.nodes[light].kind.light.lightType == Directional {
      id := CreateShadowCameraOrtho(scene, cam, light, z0, z1, nearFraction, farFraction);
    } else {
      id := CreateShadowCameraProjective(scene, cam, light, center, radius, nearFraction, farFraction);
    }
  }
}
