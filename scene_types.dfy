/**
 * The value types of the scene graph: node, entity, camera and light type
 * tags, the uniform-buffer (UBO) layouts written per object, the field
 * defaults of each node class, and the node record stored in the scene arena.
 */
module SceneTypes {
  import opened Linear

  datatype Option<T> = None | Some(value: T)

  /** A graphics-API object handle; `NullHandle` is VK_NULL_HANDLE. */
  datatype Handle = NullHandle | Handle(id: nat)

  /** veNodeType */
  datatype NodeType = ObjectTypeSceneNode | ObjectTypeEntity | ObjectTypeCamera | ObjectTypeLight

  /** veEntityType */
  datatype EntityType = EntityNormal | EntityCubeMap | EntityCubeMap2 | EntitySkyPlane | EntityTerrainHeightmap

  /** veCameraType */
  datatype CameraType = CameraProjective | CameraOrtho

  /** veLightType */
  datatype LightType = Directional | Point | Spot

  /** The integer value of each light type, as written into the light UBO. */
  function LightTypeTag(t: LightType): (r: int)
    ensures 0 <= r <= 2
    ensures r == 0 <==> t == Directional
    ensures r == 2 <==> t == Spot
  {
    match t
    case Directional => 0
    case Point => 1
    case Spot => 2
  }

  /** Distinct light types have distinct tags, so the shader can tell them apart. */
  lemma LightTypeTagInjective(a: LightType, b: LightType)
    requires LightTypeTag(a) == LightTypeTag(b)
    ensures a == b
  {
  }

  /** The read-only parts of a shared mesh that this core uses. */
  datatype Mesh = Mesh(indexCount: nat, vertexBuffer: Handle, indexBuffer: Handle,
                       sphereCenter: Vec3, sphereRadius: real)

  /** The read-only part of a shared material that this core uses. */
  datatype Material = Material(color: Vec4)

  datatype EntityData = EntityData(
    entityType: EntityType,
    texParam: Vec4,
    mesh: Option<Mesh>,          // m_pMesh, None for nullptr
    material: Option<Material>,  // m_pMaterial, None for nullptr
    drawEntity: bool,
    castsShadow: bool,
    resourceIdx: nat)            // slot in the subrenderer's resource table

  /** The variant part of a camera: projective or orthographic. */
  datatype Lens = Projective(aspectRatio: real, fov: real) | Ortho(width: real, height: real)

  datatype CameraData = CameraData(
    nearPlane: real,
    farPlane: real,
    nearPlaneFraction: real,
    farPlaneFraction: real,
    lens: Lens)

  datatype LightData = LightData(
    lightType: LightType,
    ambient: Vec4,
    diffuse: Vec4,
    specular: Vec4,
    param: Vec4,
    shadowCameras: seq<nat>)     // arena ids of the owned shadow cameras

  /** The class of a node and its class-specific fields. */
  datatype Kind =
    | PlainNode
    | EntityNode(entity: EntityData)
    | CameraNode(camera: CameraData)
    | LightNode(light: LightData)

  /** A scene node: local transform, parent link, ordered children, class data. */
  datatype Node = Node(transform: Mat4, parent: Option<nat>, children: seq<nat>, kind: Kind)

  /** getNodeType of each class. */
  function GetNodeType(k: Kind): (r: NodeType)
    ensures r == ObjectTypeSceneNode <==> k.PlainNode?
    ensures r == ObjectTypeEntity <==> k.EntityNode?
    ensures r == ObjectTypeCamera <==> k.CameraNode?
    ensures r == ObjectTypeLight <==> k.LightNode?
  {
    match k
    case PlainNode => ObjectTypeSceneNode
    case EntityNode(_) => ObjectTypeEntity
    case CameraNode(_) => ObjectTypeCamera
    case LightNode(_) => ObjectTypeLight
  }

  /** getCameraType of the two camera classes. */
  function GetCameraType(l: Lens): (r: CameraType)
    ensures r == CameraProjective <==> l.Projective?
    ensures r == CameraOrtho <==> l.Ortho?
  {
    if l.Projective? then CameraProjective else CameraOrtho
  }

  // ---------------------------------------------------------------------
  // UBO layouts

  /** veUBOPerObject_t */
  datatype PerObject = PerObject(model: Mat4, modelInvTrans: Mat4, color: Vec4, texParam: Vec4)

  /** veUBOPerCamera_t; param = (near, far, nearFraction, farFraction). */
  datatype PerCamera = PerCamera(model: Mat4, view: Mat4, proj: Mat4, param: Vec4)

  /** veUBOPerLight_t; `lightType` is the ivec4 `type`, `shadowCameras` the fixed array. */
  datatype PerLight = PerLight(lightType: seq<int>, model: Mat4, ambient: Vec4, diffuse: Vec4,
                               specular: Vec4, param: Vec4, shadowCameras: seq<PerCamera>)

  /** The content of one uniform buffer; `Unwritten` is a buffer never written since allocation. */
  datatype Block = Unwritten | ObjectBlock(obj: PerObject) | CameraBlock(cam: PerCamera) | LightBlock(light: PerLight)

  /** Number of camera blocks in a light UBO. */
  const ShadowCameraSlots: nat := 6

  const ZeroMat4: Mat4 := Mat4(Zero4, Zero4, Zero4, Zero4)

  /** A value-initialised (`= {}`) camera block. */
  const ZeroCameraBlock: PerCamera := PerCamera(ZeroMat4, ZeroMat4, ZeroMat4, Zero4)

  /** A value-initialised light block: every field zero, all six camera blocks zero. */
  function ZeroLightBlock(): PerLight {
    PerLight([0, 0, 0, 0], ZeroMat4, Zero4, Zero4, Zero4, Zero4,
             [ZeroCameraBlock, ZeroCameraBlock, ZeroCameraBlock, ZeroCameraBlock, ZeroCameraBlock, ZeroCameraBlock])
  }

  /** The zero light block has a four-entry type and six zero camera blocks. */
  lemma ZeroLightBlockShape()
    ensures |ZeroLightBlock().lightType| == 4 && |ZeroLightBlock().shadowCameras| == ShadowCameraSlots
    ensures forall i :: 0 <= i < 4 ==> ZeroLightBlock().lightType[i] == 0
    ensures forall i :: 0 <= i < ShadowCameraSlots ==> ZeroLightBlock().shadowCameras[i] == ZeroCameraBlock
  {
  }

  // ---------------------------------------------------------------------
  // Field defaults

  const DefaultNearPlane: real := 1.0
  const DefaultFarPlane: real := 200.0
  const DefaultAspectRatio: real := 16.0 / 9.0
  const DefaultFov: real := 45.0
  const DefaultOrthoExtent: real := 1.0 / 20.0

  /** An entity's fields before its constructor body runs. */
  function DefaultEntity(t: EntityType): (e: EntityData)
    ensures e.entityType == t && e.texParam == Vec4(1.0, 1.0, 0.0, 0.0)
    ensures e.mesh.None? && e.material.None?
    ensures !e.drawEntity && e.castsShadow
  {
    EntityData(t, Vec4(1.0, 1.0, 0.0, 0.0), None, None, false, true, 0)
  }

  /**
   * A camera built by the constructors that take no plane distances:
   * near 1, far 200, and the default lens of its class (aspect 16/9 and a
   * 45 degree field of view, or a 1/20 by 1/20 box).
   */
  function DefaultCamera(t: CameraType, nearFraction: real, farFraction: real): (c: CameraData)
    ensures c.nearPlane == 1.0 && c.farPlane == 200.0
    ensures GetCameraType(c.lens) == t
    ensures c.lens.Projective? ==> c.lens.aspectRatio == 16.0 / 9.0 && c.lens.fov == 45.0
    ensures c.lens.Ortho? ==> c.lens.width == 1.0 / 20.0 && c.lens.height == 1.0 / 20.0
    ensures c.nearPlaneFraction == nearFraction && c.farPlaneFraction == farFraction
  {
    var lens := if t == CameraProjective then Projective(DefaultAspectRatio, DefaultFov)
                else Ortho(DefaultOrthoExtent, DefaultOrthoExtent);
    CameraData(DefaultNearPlane, DefaultFarPlane, nearFraction, farFraction, lens)
  }

  /** A light's fields after construction: grey colours, unit parameters, no shadow cameras. */
  function DefaultLight(t: LightType): (l: LightData)
    ensures l.lightType == t && l.shadowCameras == []
    ensures l.ambient == Vec4(0.5, 0.5, 0.5, 0.5)
    ensures l.diffuse == Vec4(0.8, 0.8, 0.8, 0.8)
    ensures l.specular == Vec4(0.9, 0.9, 0.9, 0.9)
    ensures l.param == Vec4(1.0, 1.0, 1.0, 1.0)
  {
    var ones := Vec4(1.0, 1.0, 1.0, 1.0);
    LightData(t, Scale(0.5, ones), Scale(0.8, ones), Scale(0.9, ones), ones, [])
  }
}
