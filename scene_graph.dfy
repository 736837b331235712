/**
 * The scene-node hierarchy and the per-object uniform buffers.
 *
 * Nodes live in an arena (`Scene.nodes`) and refer to each other by index:
 * a node's parent link and its ordered child list are indices. A node is
 * always created after its parent, so parents have smaller indices and
 * children larger ones; this is what makes the world-transform recursion
 * and the update cascade terminate.
 *
 * Every scene object (entity, camera, light) owns one uniform buffer per
 * swapchain image (`swapChainNumber` of them); a plain scene node owns none.
 */
module SceneGraph {
  import opened Linear
  import opened SceneTypes
  import opened Cameras
  import opened Seqs

  // ---------------------------------------------------------------------
  // Structure of the arena

  /** Parents come before their children; child indices are in range. */
  predicate Ordered(nodes: seq<Node>) {
    (forall i :: 0 <= i < |nodes| && nodes[i].parent.Some? ==> nodes[i].parent.value < i) &&
    (forall i, k :: 0 <= i < |nodes| && 0 <= k < |nodes[i].children| ==> i < nodes[i].children[k] < |nodes|)
  }

  /** An entity is marked drawable only if it has both a mesh and a material. */
  predicate KindWellFormed(k: Kind) {
    k.EntityNode? && k.entity.drawEntity ==> k.entity.mesh.Some? && k.entity.material.Some?
  }

  predicate EntitiesWellFormed(nodes: seq<Node>) {
    forall i :: 0 <= i < |nodes| ==> KindWellFormed(nodes[i].kind)
  }

  /** Every child listed by a node names that node as its parent. */
  predicate Linked(nodes: seq<Node>) {
    forall i, k :: 0 <= i < |nodes| && 0 <= k < |nodes[i].children| && nodes[i].children[k] < |nodes| ==>
      nodes[nodes[i].children[k]].parent == Some(i)
  }

  /** Number of uniform buffers a node of this class owns. */
  function BufferCount(k: Kind, swapChainNumber: nat): nat {
    if k.PlainNode? then 0 else swapChainNumber
  }

  /** One buffer list per node, each of the length its class owns. */
  predicate Shaped(nodes: seq<Node>, swapChainNumber: nat, bufs: seq<seq<Block>>) {
    |bufs| == |nodes| &&
    forall i :: 0 <= i < |nodes| ==> |bufs[i]| == BufferCount(nodes[i].kind, swapChainNumber)
  }

  // ---------------------------------------------------------------------
  // Local transform accessors

  /** getPosition: column 3 of the local transform. */
  function GetPosition(n: Node): Vec3 {
    n.transform.c3.Xyz()
  }

  function GetXAxis(n: Node): Vec3 {
    n.transform.c0.Xyz()
  }

  function GetYAxis(n: Node): Vec3 {
    n.transform.c1.Xyz()
  }

  function GetZAxis(n: Node): Vec3 {
    n.transform.c2.Xyz()
  }

  // ---------------------------------------------------------------------
  // World transform

  /** getWorldTransform: the parent's world transform times the local one; the local one at a root. */
  function World(nodes: seq<Node>, n: nat): Mat4
    requires Ordered(nodes) && n < |nodes|
    decreases n
  {
    match nodes[n].parent
    case Some(p) => Mul(World(nodes, p), nodes[n].transform)
    case None => nodes[n].transform
  }

  /** The matrix update() starts from: the parent's world transform, or the identity at a root. */
  function ParentWorld(nodes: seq<Node>, n: nat): Mat4
    requires Ordered(nodes) && n < |nodes|
  {
    match nodes[n].parent
    case Some(p) => World(nodes, p)
    case None => Identity
  }

  /** World transform = parent world transform x local transform, at roots too. */
  lemma WorldComposesParent(nodes: seq<Node>, n: nat)
    requires Ordered(nodes) && n < |nodes|
    ensures World(nodes, n) == Mul(ParentWorld(nodes, n), nodes[n].transform)
  {
    if nodes[n].parent.None? {
      MulIdentityLeft(nodes[n].transform);
    }
  }

  // ---------------------------------------------------------------------
  // The update cascade, as the sequence of updateUBO calls it makes

  /**
   * update(parentWorldMatrix) on node `n`: the calls to updateUBO it makes, in
   * order, each with the matrix passed. The node comes first with
   * `pw x local`; then each child's cascade, in child-list order, from that matrix.
   */
  function Cascade(nodes: seq<Node>, n: nat, pw: Mat4): (t: seq<(nat, Mat4)>)
    requires Ordered(nodes) && n < |nodes|
    ensures |t| >= 1 && t[0] == (n, Mul(pw, nodes[n].transform))
    decreases |nodes| - n, 1, 0
  {
    var w := Mul(pw, nodes[n].transform);
    [(n, w)] + ChildrenCascade(nodes, n, 0, w)
  }

  /** updateChildren(w) on node `p`, from child position `k` on. */
  function ChildrenCascade(nodes: seq<Node>, p: nat, k: nat, w: Mat4): (t: seq<(nat, Mat4)>)
    requires Ordered(nodes) && p < |nodes| && k <= |nodes[p].children|
    decreases |nodes| - p, 0, |nodes[p].children| - k
  {
    if k == |nodes[p].children| then []
    else Cascade(nodes, nodes[p].children[k], w) + ChildrenCascade(nodes, p, k + 1, w)
  }

  /** update() on `n` reaches only `n` and nodes after it; updateChildren on `p` only nodes after `p`. */
  lemma {:induction false} CascadeRange(nodes: seq<Node>, n: nat, pw: Mat4)
    requires Ordered(nodes) && n < |nodes|
    ensures forall i :: 0 <= i < |Cascade(nodes, n, pw)| ==> n <= Cascade(nodes, n, pw)[i].0 < |nodes|
    decreases |nodes| - n, 1
  {
    var w := Mul(pw, nodes[n].transform);
    ChildrenCascadeRange(nodes, n, 0, w);
    assert Cascade(nodes, n, pw) == [(n, w)] + ChildrenCascade(nodes, n, 0, w);
  }

  lemma {:induction false} ChildrenCascadeRange(nodes: seq<Node>, p: nat, k: nat, w: Mat4)
    requires Ordered(nodes) && p < |nodes| && k <= |nodes[p].children|
    ensures forall i :: 0 <= i < |ChildrenCascade(nodes, p, k, w)| ==> p < ChildrenCascade(nodes, p, k, w)[i].0 < |nodes|
    decreases |nodes| - p, 0, |nodes[p].children| - k
  {
    if k < |nodes[p].children| {
      var c := nodes[p].children[k];
      CascadeRange(nodes, c, w);
      ChildrenCascadeRange(nodes, p, k + 1, w);
      assert ChildrenCascade(nodes, p, k, w) == Cascade(nodes, c, w) + ChildrenCascade(nodes, p, k + 1, w);
    }
  }

  /** The nodes a trace of updateUBO calls touches. */
  function TraceNodes(t: seq<(nat, Mat4)>): set<nat> {
    set i | 0 <= i < |t| :: t[i].0
  }

  /**
   * With linked child lists, update() started from a node's parent world
   * transform hands every node it reaches exactly that node's world transform.
   */
  lemma {:induction false} CascadeWorld(nodes: seq<Node>, n: nat)
    requires Ordered(nodes) && Linked(nodes) && n < |nodes|
    ensures forall i :: 0 <= i < |Cascade(nodes, n, ParentWorld(nodes, n))| ==>
      Cascade(nodes, n, ParentWorld(nodes, n))[i].0 < |nodes| &&
      Cascade(nodes, n, ParentWorld(nodes, n))[i].1 == World(nodes, Cascade(nodes, n, ParentWorld(nodes, n))[i].0)
    decreases |nodes| - n, 1
  {
    CascadeRange(nodes, n, ParentWorld(nodes, n));
    WorldComposesParent(nodes, n);
    ChildrenCascadeWorld(nodes, n, 0);
  }

  lemma {:induction false} ChildrenCascadeWorld(nodes: seq<Node>, p: nat, k: nat)
    requires Ordered(nodes) && Linked(nodes) && p < |nodes| && k <= |nodes[p].children|
    ensures forall i :: 0 <= i < |ChildrenCascade(nodes, p, k, World(nodes, p))| ==>
      ChildrenCascade(nodes, p, k, World(nodes, p))[i].0 < |nodes| &&
      ChildrenCascade(nodes, p, k, World(nodes, p))[i].1 == World(nodes, ChildrenCascade(nodes, p, k, World(nodes, p))[i].0)
    decreases |nodes| - p, 0, |nodes[p].children| - k
  {
    ChildrenCascadeRange(nodes, p, k, World(nodes, p));
    if k < |nodes[p].children| {
      var c := nodes[p].children[k];
      assert nodes[c].parent == Some(p);
      assert ParentWorld(nodes, c) == World(nodes, p);
      CascadeWorld(nodes, c);
      ChildrenCascadeWorld(nodes, p, k + 1);
    }
  }

  // ---------------------------------------------------------------------
  // The uniform blocks written by each class's updateUBO

  /** VEEntity::updateUBO's block: material colour, or zero without a material. */
  function EntityUbo(glm: Glm, e: EntityData, w: Mat4): (b: PerObject)
  {
    var color := match e.material case Some(m) => m.color case None => Zero4;
    PerObject(w, glm.transpose(glm.inverse(w)), color, e.texParam)
  }

  /** VECamera::updateUBO's block: param = (near, far, near fraction, far fraction). */
  function CameraUbo(glm: Glm, c: CameraData, w: Mat4): (b: PerCamera)
  {
    PerCamera(w, glm.inverse(w), ProjectionMatrix(glm, c),
              Vec4(c.nearPlane, c.farPlane, c.nearPlaneFraction, c.farPlaneFraction))
  }

  /**
   * The camera block carries the view matrix as the inverse of the world
   * transform, and the projection of the camera's own class: glm's
   * perspective matrix at (aspect, 1) with [1][1], [2][2], [2][3] negated,
   * or glm's ortho matrix of the camera box with only [2][2] negated.
   */
  lemma CameraUboProjection(glm: Glm, c: CameraData, w: Mat4)
    ensures CameraUbo(glm, c, w).model == w && CameraUbo(glm, c, w).view == glm.inverse(w)
    ensures CameraUbo(glm, c, w).param == Vec4(c.nearPlane, c.farPlane, c.nearPlaneFraction, c.farPlaneFraction)
    ensures c.lens.Projective? ==>
      FlippedFrom(CameraUbo(glm, c, w).proj, PerspectiveBase(glm, c, c.lens.aspectRatio, 1.0), ProjectiveFlip)
    ensures c.lens.Ortho? ==>
      FlippedFrom(CameraUbo(glm, c, w).proj, OrthoDefaultBase(glm, c), OrthoDefaultFlip)
  {
    if c.lens.Projective? {
      ProjectiveMatrixFlips(glm, c, c.lens.aspectRatio, 1.0);
    } else {
      OrthoDefaultMatrixFlips(glm, c);
    }
  }

  /**
   * VELight::updateUBO's block. The model matrix is the light's own world
   * transform, recomputed: the matrix argument of updateUBO is not used.
   */
  function LightUbo(l: LightData, world: Mat4): (b: PerLight)
  {
    ZeroLightBlock().(lightType := [LightTypeTag(l.lightType), 0, 0, 0], model := world,
                      ambient := l.ambient, diffuse := l.diffuse, specular := l.specular, param := l.param)
  }

  /** The block node `n`'s updateUBO(w) writes (scene objects only). */
  function UboBlock(glm: Glm, nodes: seq<Node>, n: nat, w: Mat4): Block
    requires Ordered(nodes) && n < |nodes|
  {
    match nodes[n].kind
    case PlainNode => Unwritten
    case EntityNode(e) => ObjectBlock(EntityUbo(glm, e, w))
    case CameraNode(c) => CameraBlock(CameraUbo(glm, c, w))
    case LightNode(l) => LightBlock(LightUbo(l, World(nodes, n)))
  }

  /** The buffers after one updateUBO call: a scene object's K buffers all receive its block. */
  function WriteEntry(glm: Glm, nodes: seq<Node>, k: nat, bufs: seq<seq<Block>>, e: (nat, Mat4)): seq<seq<Block>>
    requires Ordered(nodes)
  {
    if e.0 < |nodes| && e.0 < |bufs| && !nodes[e.0].kind.PlainNode?
    then bufs[e.0 := Fill(k, UboBlock(glm, nodes, e.0, e.1))]
    else bufs
  }

  /** The buffers after a sequence of updateUBO calls, applied in order. */
  function ApplyWrites(glm: Glm, nodes: seq<Node>, k: nat, bufs: seq<seq<Block>>, t: seq<(nat, Mat4)>): (r: seq<seq<Block>>)
    requires Ordered(nodes)
    ensures |r| == |bufs|
    decreases |t|
  {
    if t == [] then bufs
    else ApplyWrites(glm, nodes, k, WriteEntry(glm, nodes, k, bufs, t[0]), t[1..])
  }

  /** Updates keep the buffer shape: K buffers per scene object, none per plain node. */
  lemma {:induction false} ApplyWritesShaped(glm: Glm, nodes: seq<Node>, k: nat, bufs: seq<seq<Block>>, t: seq<(nat, Mat4)>)
    requires Ordered(nodes) && Shaped(nodes, k, bufs)
    ensures Shaped(nodes, k, ApplyWrites(glm, nodes, k, bufs, t))
    decreases |t|
  {
    if t != [] {
      ApplyWritesShaped(glm, nodes, k, WriteEntry(glm, nodes, k, bufs, t[0]), t[1..]);
    }
  }

  /** A trace that starts with call `e` applies `e` first. */
  lemma ApplyWritesCons(glm: Glm, nodes: seq<Node>, k: nat, bufs: seq<seq<Block>>, e: (nat, Mat4), t: seq<(nat, Mat4)>)
    requires Ordered(nodes)
    ensures ApplyWrites(glm, nodes, k, bufs, [e] + t) == ApplyWrites(glm, nodes, k, WriteEntry(glm, nodes, k, bufs, e), t)
  {
    assert ([e] + t)[0] == e;
    assert ([e] + t)[1..] == t;
  }

  /** Applying two traces one after the other is applying their concatenation. */
  lemma {:induction false} ApplyWritesAppend(glm: Glm, nodes: seq<Node>, k: nat, bufs: seq<seq<Block>>,
                                             t1: seq<(nat, Mat4)>, t2: seq<(nat, Mat4)>)
    requires Ordered(nodes)
    ensures ApplyWrites(glm, nodes, k, bufs, t1 + t2) == ApplyWrites(glm, nodes, k, ApplyWrites(glm, nodes, k, bufs, t1), t2)
    decreases |t1|
  {
    if t1 == [] {
      assert t1 + t2 == t2;
    } else {
      assert (t1 + t2)[0] == t1[0];
      assert (t1 + t2)[1..] == t1[1..] + t2;
      ApplyWritesAppend(glm, nodes, k, WriteEntry(glm, nodes, k, bufs, t1[0]), t1[1..], t2);
    }
  }

  /**
   * A trace whose every call carries the node's own world transform leaves
   * each scene object it touches with K copies of its up-to-date block, and
   * every other node's buffers as they were.
   */
  lemma {:induction false} ApplyWorldWrites(glm: Glm, nodes: seq<Node>, k: nat, bufs: seq<seq<Block>>, t: seq<(nat, Mat4)>)
    requires Ordered(nodes) && |bufs| == |nodes|
    requires forall i :: 0 <= i < |t| ==> t[i].0 < |nodes| && t[i].1 == World(nodes, t[i].0)
    ensures forall v :: 0 <= v < |nodes| ==>
      ApplyWrites(glm, nodes, k, bufs, t)[v] ==
        if v in TraceNodes(t) && !nodes[v].kind.PlainNode?
        then Fill(k, UboBlock(glm, nodes, v, World(nodes, v)))
        else bufs[v]
    decreases |t|
  {
    if t != [] {
      var b1 := WriteEntry(glm, nodes, k, bufs, t[0]);
      ApplyWorldWrites(glm, nodes, k, b1, t[1..]);
      assert TraceNodes(t) == {t[0].0} + TraceNodes(t[1..]) by {
        forall v | v in TraceNodes(t) ensures v in {t[0].0} + TraceNodes(t[1..]) {
          var i :| 0 <= i < |t| && t[i].0 == v;
          if i > 0 { assert t[1..][i - 1].0 == v; }
        }
        forall v | v in TraceNodes(t[1..]) ensures v in TraceNodes(t) {
          var i :| 0 <= i < |t[1..]| && t[1..][i].0 == v;
          assert t[i + 1].0 == v;
        }
      }
    }
  }

  /** update(pw) = this node's call followed by updateChildren's calls. */
  lemma CascadeSplit(nodes: seq<Node>, n: nat, pw: Mat4)
    requires Ordered(nodes) && n < |nodes|
    ensures Cascade(nodes, n, pw) == [(n, Mul(pw, nodes[n].transform))] + ChildrenCascade(nodes, n, 0, Mul(pw, nodes[n].transform))
  {
  }

  /** The buffers after update(pw): this node's write, then the children's writes. */
  lemma CascadeStepBuffers(glm: Glm, nodes: seq<Node>, k: nat, b0: seq<seq<Block>>, b2: seq<seq<Block>>, n: nat, pw: Mat4)
    requires Ordered(nodes) && n < |nodes|
    requires b2 == ApplyWrites(glm, nodes, k, WriteEntry(glm, nodes, k, b0, (n, Mul(pw, nodes[n].transform))),
                               ChildrenCascade(nodes, n, 0, Mul(pw, nodes[n].transform)))
    ensures b2 == ApplyWrites(glm, nodes, k, b0, Cascade(nodes, n, pw))
  {
    var w := Mul(pw, nodes[n].transform);
    CascadeSplit(nodes, n, pw);
    ApplyWritesCons(glm, nodes, k, b0, (n, w), ChildrenCascade(nodes, n, 0, w));
  }

  /** The calls update(pw) records: this node's call, then the children's calls. */
  lemma CascadeStepCalls(nodes: seq<Node>, u0: seq<(nat, Mat4)>, u2: seq<(nat, Mat4)>, n: nat, pw: Mat4)
    requires Ordered(nodes) && n < |nodes|
    requires u2 == u0 + [(n, Mul(pw, nodes[n].transform))] + ChildrenCascade(nodes, n, 0, Mul(pw, nodes[n].transform))
    ensures u2 == u0 + Cascade(nodes, n, pw)
  {
    var w := Mul(pw, nodes[n].transform);
    CascadeSplit(nodes, n, pw);
    AppendAssoc(u0, [(n, w)], ChildrenCascade(nodes, n, 0, w));
  }

  /** updateChildren from position `i` = child `i`'s cascade, then updateChildren from `i + 1`. */
  lemma ChildrenSplit(nodes: seq<Node>, n: nat, i: nat, w: Mat4)
    requires Ordered(nodes) && n < |nodes| && i < |nodes[n].children|
    ensures ChildrenCascade(nodes, n, i, w) == Cascade(nodes, nodes[n].children[i], w) + ChildrenCascade(nodes, n, i + 1, w)
  {
  }

  /** One iteration of updateChildren, on the buffers: child `i`'s cascade is the head of the remaining trace. */
  lemma ChildrenStepBuffers(glm: Glm, nodes: seq<Node>, k: nat, b0: seq<seq<Block>>, b1: seq<seq<Block>>, n: nat, i: nat, w: Mat4)
    requires Ordered(nodes) && n < |nodes| && i < |nodes[n].children|
    requires b1 == ApplyWrites(glm, nodes, k, b0, Cascade(nodes, nodes[n].children[i], w))
    ensures ApplyWrites(glm, nodes, k, b1, ChildrenCascade(nodes, n, i + 1, w))
         == ApplyWrites(glm, nodes, k, b0, ChildrenCascade(nodes, n, i, w))
  {
    ChildrenSplit(nodes, n, i, w);
    ApplyWritesAppend(glm, nodes, k, b0, Cascade(nodes, nodes[n].children[i], w), ChildrenCascade(nodes, n, i + 1, w));
  }

  /** One iteration of updateChildren, on the recorded calls. */
  lemma ChildrenStepCalls(nodes: seq<Node>, u0: seq<(nat, Mat4)>, u1: seq<(nat, Mat4)>, n: nat, i: nat, w: Mat4)
    requires Ordered(nodes) && n < |nodes| && i < |nodes[n].children|
    requires u1 == u0 + Cascade(nodes, nodes[n].children[i], w)
    ensures u1 + ChildrenCascade(nodes, n, i + 1, w) == u0 + ChildrenCascade(nodes, n, i, w)
  {
    ChildrenSplit(nodes, n, i, w);
    AppendAssoc(u0, Cascade(nodes, nodes[n].children[i], w), ChildrenCascade(nodes, n, i + 1, w));
  }

  /**
   * With linked child lists, update() on node `n` refreshes every scene object
   * in `n`'s subtree with its block for its own world transform, and nothing else.
   */
  lemma CascadeRefreshesSubtree(glm: Glm, nodes: seq<Node>, k: nat, bufs: seq<seq<Block>>, n: nat)
    requires Ordered(nodes) && Linked(nodes) && n < |nodes| && |bufs| == |nodes|
    ensures forall v :: 0 <= v < |nodes| ==>
      ApplyWrites(glm, nodes, k, bufs, Cascade(nodes, n, ParentWorld(nodes, n)))[v] ==
        if v in TraceNodes(Cascade(nodes, n, ParentWorld(nodes, n))) && !nodes[v].kind.PlainNode?
        then Fill(k, UboBlock(glm, nodes, v, World(nodes, v)))
        else bufs[v]
  {
    CascadeWorld(nodes, n);
    ApplyWorldWrites(glm, nodes, k, bufs, Cascade(nodes, n, ParentWorld(nodes, n)));
  }

  /** A trace that never names node `v` leaves `v`'s buffers as they were. */
  lemma {:induction false} ApplyWritesSkips(glm: Glm, nodes: seq<Node>, k: nat, bufs: seq<seq<Block>>,
                                            t: seq<(nat, Mat4)>, v: nat)
    requires Ordered(nodes) && v < |bufs|
    requires forall i :: 0 <= i < |t| ==> t[i].0 != v
    ensures ApplyWrites(glm, nodes, k, bufs, t)[v] == bufs[v]
    decreases |t|
  {
    if t != [] {
      ApplyWritesSkips(glm, nodes, k, WriteEntry(glm, nodes, k, bufs, t[0]), t[1..], v);
    }
  }

  /** update() on a node without children makes a single call, which writes only that node. */
  lemma LeafCascade(glm: Glm, nodes: seq<Node>, k: nat, bufs: seq<seq<Block>>, n: nat, pw: Mat4)
    requires Ordered(nodes) && n < |nodes| && n < |bufs| && nodes[n].children == [] && !nodes[n].kind.PlainNode?
    ensures Cascade(nodes, n, pw) == [(n, Mul(pw, nodes[n].transform))]
    ensures ApplyWrites(glm, nodes, k, bufs, Cascade(nodes, n, pw))
         == bufs[n := Fill(k, UboBlock(glm, nodes, n, Mul(pw, nodes[n].transform)))]
  {
    var w := Mul(pw, nodes[n].transform);
    assert ChildrenCascade(nodes, n, 0, w) == [];
    var t := Cascade(nodes, n, pw);
    assert t == [(n, w)];
    assert t[1..] == [];
  }

  /** A childless entity's update() leaves its own K buffers holding its block for its world transform. */
  lemma LeafEntityRefresh(glm: Glm, nodes: seq<Node>, k: nat, bufs: seq<seq<Block>>, n: nat)
    requires Ordered(nodes) && n < |nodes| && n < |bufs| && nodes[n].children == [] && nodes[n].kind.EntityNode?
    ensures Cascade(nodes, n, ParentWorld(nodes, n)) == [(n, Mul(ParentWorld(nodes, n), nodes[n].transform))]
    ensures ApplyWrites(glm, nodes, k, bufs, Cascade(nodes, n, ParentWorld(nodes, n)))
         == bufs[n := Fill(k, ObjectBlock(EntityUbo(glm, nodes[n].kind.entity, World(nodes, n))))]
  {
    LeafCascade(glm, nodes, k, bufs, n, ParentWorld(nodes, n));
    WorldComposesParent(nodes, n);
  }

  /** A freshly constructed entity has no material: its block carries colour zero and texParam (1, 1, 0, 0). */
  lemma DefaultEntityBlock(glm: Glm, t: EntityType, w: Mat4)
    ensures EntityUbo(glm, DefaultEntity(t), w) == PerObject(w, glm.transpose(glm.inverse(w)), Zero4, Vec4(1.0, 1.0, 0.0, 0.0))
  {
  }

  // ---------------------------------------------------------------------
  // lookAt

  function Abs(x: real): real {
    if x < 0.0 then -x else x
  }

  /**
   * The up vector lookAt uses: the normalised `up`, unless it is (nearly)
   * parallel to the viewing direction `z`, in which case the normalised
   * diagonal (s, s, s) with s the sum of z's components.
   */
  function LookAtUp(glm: Glm, z: Vec3, up: Vec3): (r: Vec3)
    ensures 1.0 - Abs(Dot3(z, glm.normalize(up))) >= 0.00001 ==> r == glm.normalize(up)
    ensures 1.0 - Abs(Dot3(z, glm.normalize(up))) < 0.00001 ==>
      r == glm.normalize(Vec3(z.x + z.y + z.z, z.x + z.y + z.z, z.x + z.y + z.z))
  {
    var upn := glm.normalize(up);
    if 1.0 - Abs(Dot3(z, upn)) < 0.00001 then
      var sc := z.x + z.y + z.z;
      glm.normalize(Vec3(sc, sc, sc))
    else upn
  }

  /**
   * The local transform lookAt builds: position `eye`, local z axis towards
   * `point`, x = up x z and y = z x x (each normalised); axis columns have w = 0.
   */
  function LookAtMatrix(glm: Glm, eye: Vec3, point: Vec3, up: Vec3): (r: Mat4)
    ensures r.c3 == Extend(eye, 1.0)
    ensures r.c2 == Extend(glm.normalize(Sub3(point, eye)), 0.0)
    ensures r.c0 == Extend(glm.normalize(Cross(LookAtUp(glm, r.c2.Xyz(), up), r.c2.Xyz())), 0.0)
    ensures r.c1 == Extend(glm.normalize(Cross(r.c2.Xyz(), r.c0.Xyz())), 0.0)
  {
    var z := glm.normalize(Sub3(point, eye));
    var x := glm.normalize(Cross(LookAtUp(glm, z, up), z));
    var y := glm.normalize(Cross(z, x));
    Mat4(Extend(x, 0.0), Extend(y, 0.0), Extend(z, 0.0), Extend(eye, 1.0))
  }

  // ---------------------------------------------------------------------
  // Bounding volumes

  /** VESceneNode::getBoundingSphere: unit sphere at the node's position. */
  function NodeBoundingSphere(n: Node): (s: (Vec3, real))
    ensures s.0 == GetPosition(n) && s.1 == 1.0
  {
    (GetPosition(n), 1.0)
  }

  /** VEEntity::getBoundingSphere: the mesh's sphere if there is a mesh, else the node default. */
  function EntityBoundingSphere(n: Node): (s: (Vec3, real))
    requires n.kind.EntityNode?
    ensures n.kind.entity.mesh.None? ==> s == NodeBoundingSphere(n)
    ensures n.kind.entity.mesh.Some? ==>
      s == (n.kind.entity.mesh.value.sphereCenter, n.kind.entity.mesh.value.sphereRadius)
  {
    match n.kind.entity.mesh
    case Some(m) => (m.sphereCenter, m.sphereRadius)
    case None => NodeBoundingSphere(n)
  }

  /** The six directions of getOBB: -X, +X, -Y, +Y, -Z, +Z of the world transform. */
  function Axes(w: Mat4): (r: seq<Vec4>)
    ensures |r| == 6
  {
    [Scale(-1.0, w.c0), w.c0, Scale(-1.0, w.c1), w.c1, Scale(-1.0, w.c2), w.c2]
  }

  /** The largest projection onto `a` among the first `k` points. */
  function MaxDot(a: Vec4, pts: seq<Vec4>, k: nat): real
    requires 1 <= k <= |pts|
    decreases k
  {
    if k == 1 then Dot(a, pts[0])
    else
      var m := MaxDot(a, pts, k - 1);
      var d := Dot(a, pts[k - 1]);
      if m < d then d else m
  }

  /** Index of the point the scan keeps for direction `a` after the first `k` points. */
  function ArgMaxDot(a: Vec4, pts: seq<Vec4>, k: nat): (r: nat)
    requires 1 <= k <= |pts|
    ensures r < k
    decreases k
  {
    if k == 1 then 0
    else if MaxDot(a, pts, k - 1) < Dot(a, pts[k - 1]) then k - 1
    else ArgMaxDot(a, pts, k - 1)
  }

  /** The scan finds the maximum projection and the first point attaining it. */
  lemma {:induction false} MaxDotIsFirstMaximum(a: Vec4, pts: seq<Vec4>, k: nat)
    requires 1 <= k <= |pts|
    ensures forall i :: 0 <= i < k ==> Dot(a, pts[i]) <= MaxDot(a, pts, k)
    ensures Dot(a, pts[ArgMaxDot(a, pts, k)]) == MaxDot(a, pts, k)
    ensures forall i :: 0 <= i < ArgMaxDot(a, pts, k) ==> Dot(a, pts[i]) < MaxDot(a, pts, k)
    decreases k
  {
    if k > 1 {
      MaxDotIsFirstMaximum(a, pts, k - 1);
    }
  }

  datatype Obb = Obb(center: Vec3, width: real, height: real, depth: real)

  /** The largest projection of the points onto each of the directions. */
  function MaxDots(ax: seq<Vec4>, pts: seq<Vec4>): (m: seq<real>)
    requires |pts| >= 1
    ensures |m| == |ax| && forall j :: 0 <= j < |ax| ==> m[j] == MaxDot(ax[j], pts, |pts|)
  {
    seq(|ax|, j requires 0 <= j < |ax| => MaxDot(ax[j], pts, |pts|))
  }

  /**
   * getOBB's box from the six maxima `m` (-x, x, -y, y, -z, z): the extents
   * are the sums of opposite maxima, the centre is the middle of each extent
   * mapped back by `w`.
   */
  function ObbFromMaxima(w: Mat4, m: seq<real>): Obb
    requires |m| == 6
  {
    var width := m[1] + m[0];
    var height := m[3] + m[2];
    var depth := m[5] + m[4];
    var center4 := MulVec(w, Vec4(-m[0] + width / 2.0, -m[2] + height / 2.0, -m[4] + depth / 2.0, 0.0));
    Obb(center4.Xyz(), width, height, depth)
  }

  /** getOBB's results for world transform `w`. */
  function ObbOf(w: Mat4, pts: seq<Vec4>): Obb
    requires |pts| >= 1
  {
    ObbFromMaxima(w, MaxDots(Axes(w), pts))
  }

  lemma DotNegated(a: Vec4, p: Vec4)
    ensures Dot(Scale(-1.0, a), p) == -Dot(a, p)
  {
  }

  /**
   * The box holds every point: along each axis of `w` every projection lies
   * between minus the maximum in the negative direction and the maximum in the
   * positive one, so width, height and depth are never negative.
   */
  lemma ObbEnclosesPoints(w: Mat4, pts: seq<Vec4>)
    requires |pts| >= 1
    ensures forall p :: p in pts ==>
      -MaxDot(Scale(-1.0, w.c0), pts, |pts|) <= Dot(w.c0, p) <= MaxDot(w.c0, pts, |pts|) &&
      -MaxDot(Scale(-1.0, w.c1), pts, |pts|) <= Dot(w.c1, p) <= MaxDot(w.c1, pts, |pts|) &&
      -MaxDot(Scale(-1.0, w.c2), pts, |pts|) <= Dot(w.c2, p) <= MaxDot(w.c2, pts, |pts|)
    ensures ObbOf(w, pts).width >= 0.0 && ObbOf(w, pts).height >= 0.0 && ObbOf(w, pts).depth >= 0.0
  {
    var n := |pts|;
    var nx, ny, nz := Scale(-1.0, w.c0), Scale(-1.0, w.c1), Scale(-1.0, w.c2);
    MaxDotIsFirstMaximum(nx, pts, n);
    MaxDotIsFirstMaximum(w.c0, pts, n);
    MaxDotIsFirstMaximum(ny, pts, n);
    MaxDotIsFirstMaximum(w.c1, pts, n);
    MaxDotIsFirstMaximum(nz, pts, n);
    MaxDotIsFirstMaximum(w.c2, pts, n);
    forall p | p in pts
      ensures -MaxDot(nx, pts, n) <= Dot(w.c0, p) <= MaxDot(w.c0, pts, n)
      ensures -MaxDot(ny, pts, n) <= Dot(w.c1, p) <= MaxDot(w.c1, pts, n)
      ensures -MaxDot(nz, pts, n) <= Dot(w.c2, p) <= MaxDot(w.c2, pts, n)
    {
      var i :| 0 <= i < n && pts[i] == p;
      DotNegated(w.c0, p);
      DotNegated(w.c1, p);
      DotNegated(w.c2, p);
      assert Dot(nx, pts[i]) <= MaxDot(nx, pts, n) && Dot(w.c0, pts[i]) <= MaxDot(w.c0, pts, n);
      assert Dot(ny, pts[i]) <= MaxDot(ny, pts, n) && Dot(w.c1, pts[i]) <= MaxDot(w.c1, pts, n);
      assert Dot(nz, pts[i]) <= MaxDot(nz, pts, n) && Dot(w.c2, pts[i]) <= MaxDot(w.c2, pts, n);
    }
    assert pts[0] in pts;
    var o := ObbOf(w, pts);
    var m := MaxDots(Axes(w), pts);
    assert o.width == MaxDot(w.c0, pts, n) + MaxDot(nx, pts, n);
    assert o.height == MaxDot(w.c1, pts, n) + MaxDot(ny, pts, n);
    assert o.depth == MaxDot(w.c2, pts, n) + MaxDot(nz, pts, n);
  }

  // ---------------------------------------------------------------------
  // Frame lemmas for updates that keep the links

  predicate SameLinks(a: seq<Node>, b: seq<Node>) {
    |a| == |b| &&
    forall i :: 0 <= i < |a| ==> a[i].parent == b[i].parent && a[i].children == b[i].children
  }

  /** Changing transforms or class data keeps the arena ordered and linked. */
  lemma SameLinksKeepOrder(a: seq<Node>, b: seq<Node>)
    requires SameLinks(a, b)
    ensures Ordered(a) ==> Ordered(b)
    ensures Linked(a) ==> Linked(b)
  {
    if Ordered(a) {
      forall i, k | 0 <= i < |b| && 0 <= k < |b[i].children| ensures i < b[i].children[k] < |b| {
        assert b[i].children[k] == a[i].children[k];
      }
    }
    if Linked(a) {
      forall i, k | 0 <= i < |b| && 0 <= k < |b[i].children| && b[i].children[k] < |b|
        ensures b[b[i].children[k]].parent == Some(i)
      {
        assert b[i].children[k] == a[i].children[k];
      }
    }
  }

  /** A node's world transform depends only on the nodes up to it. */
  lemma {:induction false} WorldFrame(a: seq<Node>, b: seq<Node>, n: nat)
    requires Ordered(a) && Ordered(b) && n < |a| && n < |b|
    requires forall i :: 0 <= i <= n ==> a[i].parent == b[i].parent && a[i].transform == b[i].transform
    ensures World(a, n) == World(b, n)
    decreases n
  {
    if a[n].parent.Some? {
      WorldFrame(a, b, a[n].parent.value);
    }
  }

  /** The arena after a node is created: appended, and registered with its parent. */
  function Attached(nodes: seq<Node>, node: Node): (r: seq<Node>)
    requires node.parent.Some? ==> node.parent.value < |nodes|
    ensures |r| == |nodes| + 1 && r[|nodes|] == node
    ensures forall i :: 0 <= i < |nodes| && node.parent != Some(i) ==> r[i] == nodes[i]
    ensures node.parent.Some? ==>
      r[node.parent.value] == nodes[node.parent.value].(children := nodes[node.parent.value].children + [|nodes|])
  {
    var r := nodes + [node];
    match node.parent
    case None => r
    case Some(p) => r[p := r[p].(children := r[p].children + [|nodes|])]
  }

  /** Creating a node keeps the arena ordered. */
  lemma AttachedOrdered(nodes: seq<Node>, node: Node)
    requires node.parent.Some? ==> node.parent.value < |nodes|
    requires Ordered(nodes) && node.children == []
    ensures Ordered(Attached(nodes, node))
  {
    var r := Attached(nodes, node);
    var id := |nodes|;
    forall i | 0 <= i < |r| && r[i].parent.Some? ensures r[i].parent.value < i {
      if i < id {
        assert r[i].parent == nodes[i].parent;
      }
    }
    forall i, k | 0 <= i < |r| && 0 <= k < |r[i].children| ensures i < r[i].children[k] < |r| {
      if i < id && !(Some(i) == node.parent && k == |r[i].children| - 1) {
        assert r[i].children[k] == nodes[i].children[k];
      }
    }
  }

  /** Creating a node keeps the child lists linked: the new child names its parent. */
  lemma AttachedLinked(nodes: seq<Node>, node: Node)
    requires node.parent.Some? ==> node.parent.value < |nodes|
    requires Ordered(nodes) && Linked(nodes) && node.children == []
    ensures Linked(Attached(nodes, node))
  {
    var r := Attached(nodes, node);
    var id := |nodes|;
    forall i, k | 0 <= i < |r| && 0 <= k < |r[i].children| && r[i].children[k] < |r|
      ensures r[r[i].children[k]].parent == Some(i)
    {
      if i < id && !(Some(i) == node.parent && k == |r[i].children| - 1) {
        var c := nodes[i].children[k];
        assert r[i].children[k] == c && c < id;
        assert r[c].parent == nodes[c].parent;
      }
    }
  }

  /** Creating a node changes no existing node's class or world transform. */
  lemma AttachedFrame(nodes: seq<Node>, node: Node)
    requires node.parent.Some? ==> node.parent.value < |nodes|
    requires Ordered(nodes) && node.children == []
    ensures Ordered(Attached(nodes, node))
    ensures EntitiesWellFormed(nodes) && KindWellFormed(node.kind) ==> EntitiesWellFormed(Attached(nodes, node))
    ensures forall i :: 0 <= i < |nodes| ==> Attached(nodes, node)[i].kind == nodes[i].kind
    ensures forall i :: 0 <= i < |nodes| ==> World(Attached(nodes, node), i) == World(nodes, i)
  {
    AttachedOrdered(nodes, node);
    var r := Attached(nodes, node);
    forall i | 0 <= i < |nodes| ensures World(r, i) == World(nodes, i) {
      WorldFrame(nodes, r, i);
    }
  }

  /**
   * Replacing a child list by one drawn from the same range keeps the arena
   * ordered, keeps every class (so the buffer shape) and, when every new entry
   * names the node as its parent, keeps it linked.
   */
  lemma ChildrenReplaced(nodes: seq<Node>, p: nat, ch: seq<nat>, k: nat, bufs: seq<seq<Block>>)
    requires Ordered(nodes) && p < |nodes|
    requires forall i :: 0 <= i < |ch| ==> p < ch[i] < |nodes|
    ensures Ordered(nodes[p := nodes[p].(children := ch)])
    ensures EntitiesWellFormed(nodes) ==> EntitiesWellFormed(nodes[p := nodes[p].(children := ch)])
    ensures Linked(nodes) && (forall i :: 0 <= i < |ch| ==> nodes[ch[i]].parent == Some(p)) ==>
      Linked(nodes[p := nodes[p].(children := ch)])
  {
    var r := nodes[p := nodes[p].(children := ch)];
    assert forall i :: 0 <= i < |r| ==> r[i].parent == nodes[i].parent && r[i].kind == nodes[i].kind;
    forall i, j | 0 <= i < |r| && 0 <= j < |r[i].children| ensures i < r[i].children[j] < |r| {
      if i != p {
        assert r[i].children[j] == nodes[i].children[j];
      }
    }
  }

  /** removeChild's new list: the first `c` replaced by the last entry, then the last dropped. */
  function RemovedChild(ch: seq<nat>, c: nat): (r: seq<nat>)
    ensures c !in ch ==> r == ch
    ensures c in ch ==> |r| == |ch| - 1
  {
    if c in ch then SwapPop(ch, FirstIndex(ch, c)) else ch
  }

  /**
   * removeChild removes one occurrence of `c` and keeps every other entry;
   * on a list without duplicates, `c` is gone afterwards.
   */
  lemma RemovedChildRemoves(ch: seq<nat>, c: nat)
    ensures multiset(RemovedChild(ch, c)) == multiset(ch) - multiset{c}
    ensures forall x :: x in RemovedChild(ch, c) ==> x in ch
    ensures Distinct(ch) ==>
      Distinct(RemovedChild(ch, c)) && c !in RemovedChild(ch, c) &&
      forall x :: x in ch && x != c ==> x in RemovedChild(ch, c)
  {
    if c in ch {
      var i := FirstIndex(ch, c);
      SwapPopMultiset(ch, i);
      if Distinct(ch) {
        SwapPopRemoves(ch, i);
      }
      forall x | x in RemovedChild(ch, c) ensures x in ch {
        assert x in multiset(RemovedChild(ch, c));
      }
    } else {
      assert multiset(ch)[c] == 0;
    }
  }

  /** removeChild keeps the arena's invariants. */
  lemma RemovedChildKeepsInvariants(nodes: seq<Node>, p: nat, c: nat, k: nat, bufs: seq<seq<Block>>)
    requires Ordered(nodes) && p < |nodes|
    ensures Ordered(nodes[p := nodes[p].(children := RemovedChild(nodes[p].children, c))])
    ensures EntitiesWellFormed(nodes) ==> EntitiesWellFormed(nodes[p := nodes[p].(children := RemovedChild(nodes[p].children, c))])
    ensures Linked(nodes) ==> Linked(nodes[p := nodes[p].(children := RemovedChild(nodes[p].children, c))])
  {
    var ch := nodes[p].children;
    var rest := RemovedChild(ch, c);
    RemovedChildRemoves(ch, c);
    forall i | 0 <= i < |rest| ensures p < rest[i] < |nodes| && (Linked(nodes) ==> nodes[rest[i]].parent == Some(p)) {
      assert rest[i] in ch;
      var j :| 0 <= j < |ch| && ch[j] == rest[i];
    }
    ChildrenReplaced(nodes, p, rest, k, bufs);
  }

  /** Replacing a node's class data by data owning as many buffers keeps every invariant and world transform. */
  lemma KindReplaced(nodes: seq<Node>, n: nat, kind: Kind, k: nat, bufs: seq<seq<Block>>)
    requires Ordered(nodes) && n < |nodes| && KindWellFormed(kind)
    requires BufferCount(kind, k) == BufferCount(nodes[n].kind, k)
    ensures Ordered(nodes[n := nodes[n].(kind := kind)])
    ensures EntitiesWellFormed(nodes) ==> EntitiesWellFormed(nodes[n := nodes[n].(kind := kind)])
    ensures Linked(nodes) ==> Linked(nodes[n := nodes[n].(kind := kind)])
    ensures forall v :: 0 <= v < |nodes| ==> World(nodes[n := nodes[n].(kind := kind)], v) == World(nodes, v)
  {
    var r := nodes[n := nodes[n].(kind := kind)];
    SameLinksKeepOrder(nodes, r);
    forall v | 0 <= v < |nodes| ensures World(r, v) == World(nodes, v) {
      WorldFrame(nodes, r, v);
    }
  }

  /** Replacing a node's local transform keeps every invariant. */
  lemma TransformReplaced(nodes: seq<Node>, n: nat, m: Mat4, k: nat, bufs: seq<seq<Block>>)
    requires Ordered(nodes) && n < |nodes|
    ensures Ordered(nodes[n := nodes[n].(transform := m)])
    ensures EntitiesWellFormed(nodes) ==> EntitiesWellFormed(nodes[n := nodes[n].(transform := m)])
    ensures Linked(nodes) ==> Linked(nodes[n := nodes[n].(transform := m)])
  {
    SameLinksKeepOrder(nodes, nodes[n := nodes[n].(transform := m)]);
  }

  // ---------------------------------------------------------------------
  // Construction helpers

  /** The entity constructor body: mesh and material are kept only when both are given. */
  function WithMeshAndMaterial(e: EntityData, mesh: Option<Mesh>, mat: Option<Material>): (r: EntityData)
    ensures r.drawEntity <==> (mesh.Some? && mat.Some?) || e.drawEntity
    ensures mesh.Some? && mat.Some? ==> r.mesh == mesh && r.material == mat && r.castsShadow
    ensures mesh.None? || mat.None? ==> r == e
    ensures r.texParam == e.texParam && r.entityType == e.entityType && r.resourceIdx == e.resourceIdx
  {
    if mesh.Some? && mat.Some? then e.(mesh := mesh, material := mat, drawEntity := true, castsShadow := true)
    else e
  }

  /**
   * The interpolation loop of getFrustumPoints: for i in 0..3 the pair
   * (i, i + 4) is read, then position i + 4 takes the z1 blend and position
   * i the z0 blend.
   */
  method InterpolateCorners(p0: seq<Vec4>, z0: real, z1: real) returns (r: seq<Vec4>)
    requires |p0| >= 8
    ensures r == Interpolated(p0, z0, z1)
  {
    r := p0;
    var i := 0;
    while i < 4
      invariant 0 <= i <= 4 && |r| == |p0|
      invariant forall j :: 0 <= j < i ==> r[j] == Lerp(p0[j], p0[j + 4], z0)
      invariant forall j :: 4 <= j < 4 + i ==> r[j] == Lerp(p0[j - 4], p0[j], z1)
      invariant forall j :: i <= j < 4 || 4 + i <= j < |r| ==> r[j] == p0[j]
    {
      var a, b := r[i], r[i + 4];
      r := r[i + 4 := Lerp(a, b, z1)][i := Lerp(a, b, z0)];
      i := i + 1;
    }
    ghost var q := Interpolated(p0, z0, z1);
    assert forall j :: 0 <= j < |r| ==> r[j] == q[j];
  }

  /**
   * The two scans of getOBB: every direction starts at the first point, then
   * each later point replaces the kept one when its projection is strictly
   * larger.
   */
  method ScanExtremes(axes: seq<Vec4>, points: seq<Vec4>) returns (box: seq<Vec4>, maxvalues: seq<real>)
    requires |axes| == 6 && |points| >= 1
    ensures |box| == 6 && |maxvalues| == 6
    ensures forall k :: 0 <= k < 6 ==>
      maxvalues[k] == MaxDot(axes[k], points, |points|) && box[k] == points[ArgMaxDot(axes[k], points, |points|)]
  {
    box := [];
    maxvalues := [];
    var j := 0;
    while j < 6
      invariant 0 <= j <= 6 && |box| == j && |maxvalues| == j
      invariant forall k :: 0 <= k < j ==> box[k] == points[0] && maxvalues[k] == Dot(axes[k], points[0])
    {
      box := box + [points[0]];
      maxvalues := maxvalues + [Dot(axes[j], points[0])];
      j := j + 1;
    }
    var i := 1;
    while i < |points|
      invariant 1 <= i <= |points| && |box| == 6 && |maxvalues| == 6
      invariant forall k :: 0 <= k < 6 ==>
        maxvalues[k] == MaxDot(axes[k], points, i) && box[k] == points[ArgMaxDot(axes[k], points, i)]
    {
      j := 0;
      while j < 6
        invariant 0 <= j <= 6 && |box| == 6 && |maxvalues| == 6
        invariant forall k :: 0 <= k < j ==>
          maxvalues[k] == MaxDot(axes[k], points, i + 1) && box[k] == points[ArgMaxDot(axes[k], points, i + 1)]
        invariant forall k :: j <= k < 6 ==>
          maxvalues[k] == MaxDot(axes[k], points, i) && box[k] == points[ArgMaxDot(axes[k], points, i)]
      {
        var tmp := Dot(axes[j], points[i]);
        if maxvalues[j] < tmp {
          box := box[j := points[i]];
          maxvalues := maxvalues[j := tmp];
        }
        j := j + 1;
      }
      i := i + 1;
    }
  }

  // ---------------------------------------------------------------------
  // The scene

  class Scene {
    /** The floating-point library the transforms and projections go through. */
    const glm: Glm
    /** getSwapChainNumber(): the number of uniform buffers per scene object. */
    const swapChainNumber: nat

    var nodes: seq<Node>
    /** buffers[n][i]: content of node n's uniform buffer for swapchain image i. */
    var buffers: seq<seq<Block>>
    /** Whether the shared per-object descriptor-set layout has been created. */
    var perObjectLayoutCreated: bool
    /** Objects whose uniform buffers were released, in destruction order. */
    var released: seq<nat>
    /** Every updateUBO call made so far, with its matrix argument. */
    ghost var uboCalls: seq<(nat, Mat4)>

    ghost predicate Valid()
      reads this
    {
      Ordered(nodes) && EntitiesWellFormed(nodes) && |buffers| == |nodes|
    }

    constructor(glm: Glm, swapChainNumber: nat)
      ensures Valid()
      ensures this.glm == glm && this.swapChainNumber == swapChainNumber
      ensures nodes == [] && buffers == [] && released == [] && !perObjectLayoutCreated
    {
      this.glm := glm;
      this.swapChainNumber := swapChainNumber;
      nodes := [];
      buffers := [];
      perObjectLayoutCreated := false;
      released := [];
      uboCalls := [];
    }

    /**
     * The shared part of every constructor: record the parent and register
     * with it, take the transform (the base-class update it triggers reaches
     * only the base updateUBO, which writes nothing), and for a scene object
     * create the shared layout if needed and allocate its buffers.
     */
    method Attach(kind: Kind, transf: Mat4, parent: Option<nat>) returns (id: nat)
      requires Valid() && KindWellFormed(kind)
      requires parent.Some? ==> parent.value < |nodes|
      modifies this
      ensures Valid()
      ensures id == old(|nodes|) && |nodes| == id + 1
      ensures nodes[id] == Node(transf, parent, [], kind)
      ensures forall i :: 0 <= i < id && parent != Some(i) ==> nodes[i] == old(nodes[i])
      ensures parent.Some? ==>
        nodes[parent.value] == old(nodes[parent.value]).(children := old(nodes[parent.value].children) + [id])
      ensures buffers == old(buffers) + [Fill(BufferCount(kind, swapChainNumber), Unwritten)]
      ensures perObjectLayoutCreated == (old(perObjectLayoutCreated) || !kind.PlainNode?)
      ensures uboCalls == old(uboCalls) + [(id, Mul(ParentWorld(nodes, id), transf))]
      ensures released == old(released)
      ensures old(Linked(nodes)) ==> Linked(nodes)
    {
      id := |nodes|;
      var node := Node(transf, parent, [], kind);
      AttachedFrame(nodes, node);
      if Linked(nodes) {
        AttachedLinked(nodes, node);
      }
      nodes := Attached(nodes, node);
      var pw := Identity;
      if parent.Some? {
        pw := World(nodes, parent.value);
      }
      uboCalls := uboCalls + [(id, Mul(pw, transf))];
      if !kind.PlainNode? {
        perObjectLayoutCreated := true;
      }
      buffers := buffers + [Fill(BufferCount(kind, swapChainNumber), Unwritten)];
    }

    /** VESceneNode constructor. */
    method NewSceneNode(transf: Mat4, parent: Option<nat>) returns (id: nat)
      requires Valid()
      requires parent.Some? ==> parent.value < |nodes|
      modifies this
      ensures Valid()
      ensures id == old(|nodes|) && |nodes| == id + 1 && nodes[id] == Node(transf, parent, [], PlainNode)
      ensures forall i :: 0 <= i < id && parent != Some(i) ==> nodes[i] == old(nodes[i])
      ensures parent.Some? ==>
        nodes[parent.value] == old(nodes[parent.value]).(children := old(nodes[parent.value].children) + [id])
      ensures buffers == old(buffers) + [[]]
      ensures perObjectLayoutCreated == old(perObjectLayoutCreated) && released == old(released)
      ensures uboCalls == old(uboCalls) + [(id, Mul(ParentWorld(nodes, id), transf))]
      ensures old(Linked(nodes)) ==> Linked(nodes)
    {
      id := Attach(PlainNode, transf, parent);
    }

    /**
     * VEEntity constructor. Its own setTransform runs while mesh and material
     * are still unset, so the buffers first receive the block without a
     * material colour; mesh and material are then kept only if both are given.
     */
    method NewEntity(t: EntityType, mesh: Option<Mesh>, mat: Option<Material>, transf: Mat4, parent: Option<nat>)
      returns (id: nat)
      requires Valid()
      requires parent.Some? ==> parent.value < |nodes|
      modifies this
      ensures Valid()
      ensures id == old(|nodes|) && |nodes| == id + 1
      ensures nodes[id] == Node(transf, parent, [], EntityNode(WithMeshAndMaterial(DefaultEntity(t), mesh, mat)))
      ensures nodes[id].kind.entity.drawEntity <==> mesh.Some? && mat.Some?
      ensures forall i :: 0 <= i < id && parent != Some(i) ==> nodes[i] == old(nodes[i])
      ensures parent.Some? ==>
        nodes[parent.value] == old(nodes[parent.value]).(children := old(nodes[parent.value].children) + [id])
      ensures buffers == old(buffers) + [Fill(swapChainNumber, ObjectBlock(
        PerObject(World(nodes, id), glm.transpose(glm.inverse(World(nodes, id))), Zero4, Vec4(1.0, 1.0, 0.0, 0.0))))]
      ensures perObjectLayoutCreated && released == old(released)
      ensures uboCalls == old(uboCalls) + [(id, Mul(ParentWorld(nodes, id), transf)), (id, Mul(ParentWorld(nodes, id), transf))]
      ensures old(Linked(nodes)) ==> Linked(nodes)
    {
      id := Attach(EntityNode(DefaultEntity(t)), transf, parent);
      ghost var pw := ParentWorld(nodes, id);
      InitEntity(id, t, mesh, mat);
      assert ParentWorld(nodes, id) == pw;
    }

    /** The VEEntity constructor body, run on the freshly linked entity node. */
    method InitEntity(id: nat, t: EntityType, mesh: Option<Mesh>, mat: Option<Material>)
      requires Valid() && id < |nodes| && nodes[id].kind == EntityNode(DefaultEntity(t)) && nodes[id].children == []
      modifies this`nodes, this`buffers, this`uboCalls
      ensures Valid()
      ensures nodes == old(nodes)[id := old(nodes[id]).(kind := EntityNode(WithMeshAndMaterial(DefaultEntity(t), mesh, mat)))]
      ensures ParentWorld(nodes, id) == ParentWorld(old(nodes), id)
      ensures uboCalls == old(uboCalls) + [(id, Mul(ParentWorld(nodes, id), nodes[id].transform))]
      ensures buffers == old(buffers)[id := Fill(swapChainNumber, ObjectBlock(
        PerObject(World(nodes, id), glm.transpose(glm.inverse(World(nodes, id))), Zero4, Vec4(1.0, 1.0, 0.0, 0.0))))]
      ensures old(Linked(nodes)) ==> Linked(nodes)
    {
      RefreshNewEntity(id);
      ghost var w := World(nodes, id);
      DefaultEntityBlock(glm, t, w);
      StoreMeshAndMaterial(id, mesh, mat);
      assert World(nodes, id) == w;
    }

    /**
     * The setTransform call inside the VEEntity constructor: the transform is
     * the one the node already has, and the node has no children yet, so only
     * the entity's own buffers are written.
     */
    method RefreshNewEntity(id: nat)
      requires Valid() && id < |nodes| && nodes[id].kind.EntityNode? && nodes[id].children == []
      modifies this`nodes, this`buffers, this`uboCalls
      ensures Valid() && nodes == old(nodes)
      ensures uboCalls == old(uboCalls) + [(id, Mul(ParentWorld(nodes, id), nodes[id].transform))]
      ensures buffers == old(buffers)[id := Fill(swapChainNumber, ObjectBlock(EntityUbo(glm, nodes[id].kind.entity, World(nodes, id))))]
    {
      SetTransform(id, nodes[id].transform);
      assert nodes == old(nodes);
      LeafEntityRefresh(glm, nodes, swapChainNumber, old(buffers), id);
    }

    /** The tail of the VEEntity constructor: keep mesh and material only if both are given. */
    method StoreMeshAndMaterial(id: nat, mesh: Option<Mesh>, mat: Option<Material>)
      requires Valid() && id < |nodes| && nodes[id].kind.EntityNode?
      modifies this`nodes
      ensures Valid()
      ensures nodes == old(nodes)[id := old(nodes[id]).(kind := EntityNode(WithMeshAndMaterial(old(nodes[id].kind.entity), mesh, mat)))]
      ensures forall v :: 0 <= v < |nodes| ==> World(nodes, v) == World(old(nodes), v)
      ensures old(Linked(nodes)) ==> Linked(nodes)
    {
      var e := WithMeshAndMaterial(nodes[id].kind.entity, mesh, mat);
      KindReplaced(nodes, id, EntityNode(e), swapChainNumber, buffers);
      nodes := nodes[id := nodes[id].(kind := EntityNode(e))];
    }

    /** setResourceIdx: record the entity's slot in its subrenderer's resource table. */
    method SetResourceIdx(id: nat, idx: nat)
      requires Valid() && id < |nodes| && nodes[id].kind.EntityNode?
      modifies this`nodes
      ensures Valid()
      ensures nodes == old(nodes)[id := old(nodes[id]).(kind := EntityNode(old(nodes[id].kind.entity).(resourceIdx := idx)))]
      ensures old(Linked(nodes)) ==> Linked(nodes)
    {
      var e := nodes[id].kind.entity.(resourceIdx := idx);
      KindReplaced(nodes, id, EntityNode(e), swapChainNumber, buffers);
      nodes := nodes[id := nodes[id].(kind := EntityNode(e))];
    }

    /** VECamera constructors (either class): buffers are allocated, not yet written. */
    method NewCamera(c: CameraData, transf: Mat4, parent: Option<nat>) returns (id: nat)
      requires Valid()
      requires parent.Some? ==> parent.value < |nodes|
      modifies this
      ensures Valid()
      ensures id == old(|nodes|) && |nodes| == id + 1 && nodes[id] == Node(transf, parent, [], CameraNode(c))
      ensures forall i :: 0 <= i < id && parent != Some(i) ==> nodes[i] == old(nodes[i])
      ensures parent.Some? ==>
        nodes[parent.value] == old(nodes[parent.value]).(children := old(nodes[parent.value].children) + [id])
      ensures parent.None? ==> nodes[..id] == old(nodes)
      ensures buffers == old(buffers) + [Fill(swapChainNumber, Unwritten)]
      ensures perObjectLayoutCreated && released == old(released)
      ensures uboCalls == old(uboCalls) + [(id, Mul(ParentWorld(nodes, id), transf))]
      ensures old(Linked(nodes)) ==> Linked(nodes)
    {
      id := Attach(CameraNode(c), transf, parent);
    }

    /** VELight constructors (each light class): default colours, buffers allocated, not yet written. */
    method NewLight(t: LightType, transf: Mat4, parent: Option<nat>) returns (id: nat)
      requires Valid()
      requires parent.Some? ==> parent.value < |nodes|
      modifies this
      ensures Valid()
      ensures id == old(|nodes|) && |nodes| == id + 1 && nodes[id] == Node(transf, parent, [], LightNode(DefaultLight(t)))
      ensures forall i :: 0 <= i < id && parent != Some(i) ==> nodes[i] == old(nodes[i])
      ensures parent.Some? ==>
        nodes[parent.value] == old(nodes[parent.value]).(children := old(nodes[parent.value].children) + [id])
      ensures buffers == old(buffers) + [Fill(swapChainNumber, Unwritten)]
      ensures perObjectLayoutCreated && released == old(released)
      ensures uboCalls == old(uboCalls) + [(id, Mul(ParentWorld(nodes, id), transf))]
      ensures old(Linked(nodes)) ==> Linked(nodes)
    {
      id := Attach(LightNode(DefaultLight(t)), transf, parent);
    }

    // -------------------------------------------------------------------
    // Update cascade

    /** VESceneObject::updateUBO: copy one block into each of the object's K buffers. */
    method WriteUboCopies(n: nat, block: Block)
      requires Valid() && n < |nodes| && !nodes[n].kind.PlainNode?
      modifies this`buffers
      ensures Valid()
      ensures buffers == old(buffers)[n := Fill(swapChainNumber, block)]
    {
      var copies: seq<Block> := [];
      var i := 0;
      while i < swapChainNumber
        invariant 0 <= i <= swapChainNumber && |copies| == i
        invariant forall j :: 0 <= j < i ==> copies[j] == block
      {
        copies := copies + [block];
        i := i + 1;
      }
      assert copies == Fill(swapChainNumber, block);
      buffers := buffers[n := copies];
    }

    /** updateUBO(w) of node `n`, dispatched on its class; a plain node writes nothing. */
    method UpdateUbo(n: nat, w: Mat4)
      requires Valid() && n < |nodes|
      modifies this`buffers, this`uboCalls
      ensures Valid()
      ensures uboCalls == old(uboCalls) + [(n, w)]
      ensures buffers == WriteEntry(glm, nodes, swapChainNumber, old(buffers), (n, w))
    {
      uboCalls := uboCalls + [(n, w)];
      if !nodes[n].kind.PlainNode? {
        WriteUboCopies(n, UboBlock(glm, nodes, n, w));
      }
    }

    /** update(): start the cascade from the parent's world transform, or the identity. */
    method Update(n: nat)
      requires Valid() && n < |nodes|
      modifies this`buffers, this`uboCalls
      ensures Valid()
      ensures uboCalls == old(uboCalls) + Cascade(nodes, n, ParentWorld(nodes, n))
      ensures buffers == ApplyWrites(glm, nodes, swapChainNumber, old(buffers), Cascade(nodes, n, ParentWorld(nodes, n)))
    {
      var pw := Identity;
      if nodes[n].parent.Some? {
        pw := World(nodes, nodes[n].parent.value);
      }
      UpdateFrom(n, pw);
    }

    /** update(parentWorldMatrix): write this node's block, then update the children. */
    method UpdateFrom(n: nat, pw: Mat4)
      requires Valid() && n < |nodes|
      modifies this`buffers, this`uboCalls
      ensures Valid()
      ensures uboCalls == old(uboCalls) + Cascade(nodes, n, pw)
      ensures buffers == ApplyWrites(glm, nodes, swapChainNumber, old(buffers), Cascade(nodes, n, pw))
      decreases |nodes| - n, 1, 0
    {
      var w := Mul(pw, nodes[n].transform);
      UpdateUbo(n, w);
      UpdateChildren(n, w);
      CascadeStepBuffers(glm, nodes, swapChainNumber, old(buffers), buffers, n, pw);
      CascadeStepCalls(nodes, old(uboCalls), uboCalls, n, pw);
    }

    /** updateChildren(w): update each child, in child-list order, from `w`. */
    method UpdateChildren(n: nat, w: Mat4)
      requires Valid() && n < |nodes|
      modifies this`buffers, this`uboCalls
      ensures Valid()
      ensures uboCalls == old(uboCalls) + ChildrenCascade(nodes, n, 0, w)
      ensures buffers == ApplyWrites(glm, nodes, swapChainNumber, old(buffers), ChildrenCascade(nodes, n, 0, w))
      decreases |nodes| - n, 0, 1
    {
      ghost var ns := nodes;
      var count := |nodes[n].children|;
      var k := 0;
      while k < count
        invariant 0 <= k <= count == |ns[n].children| && nodes == ns && Valid()
        invariant uboCalls + ChildrenCascade(ns, n, k, w) == old(uboCalls) + ChildrenCascade(ns, n, 0, w)
        invariant ApplyWrites(glm, ns, swapChainNumber, buffers, ChildrenCascade(ns, n, k, w))
               == ApplyWrites(glm, ns, swapChainNumber, old(buffers), ChildrenCascade(ns, n, 0, w))
        decreases count - k
      {
        UpdateChild(n, k, w);
        k := k + 1;
      }
      assert ChildrenCascade(ns, n, k, w) == [];
    }

    /** One iteration of updateChildren: update child `k` and its subtree from `w`. */
    method UpdateChild(n: nat, k: nat, w: Mat4)
      requires Valid() && n < |nodes| && k < |nodes[n].children|
      modifies this`buffers, this`uboCalls
      ensures Valid()
      ensures uboCalls + ChildrenCascade(nodes, n, k + 1, w) == old(uboCalls) + ChildrenCascade(nodes, n, k, w)
      ensures ApplyWrites(glm, nodes, swapChainNumber, buffers, ChildrenCascade(nodes, n, k + 1, w))
           == ApplyWrites(glm, nodes, swapChainNumber, old(buffers), ChildrenCascade(nodes, n, k, w))
      decreases |nodes| - n, 0, 0
    {
      UpdateFrom(nodes[n].children[k], w);
      ChildrenStepBuffers(glm, nodes, swapChainNumber, old(buffers), buffers, n, k, w);
      ChildrenStepCalls(nodes, old(uboCalls), uboCalls, n, k, w);
    }

    // -------------------------------------------------------------------
    // Transform setters

    /** setTransform: replace the local transform and update the subtree. */
    method SetTransform(n: nat, m: Mat4)
      requires Valid() && n < |nodes|
      modifies this`nodes, this`buffers, this`uboCalls
      ensures Valid()
      ensures nodes == old(nodes)[n := old(nodes[n]).(transform := m)]
      ensures uboCalls == old(uboCalls) + Cascade(nodes, n, ParentWorld(nodes, n))
      ensures buffers == ApplyWrites(glm, nodes, swapChainNumber, old(buffers), Cascade(nodes, n, ParentWorld(nodes, n)))
      ensures old(Linked(nodes)) ==> Linked(nodes)
    {
      TransformReplaced(nodes, n, m, swapChainNumber, buffers);
      nodes := nodes[n := nodes[n].(transform := m)];
      Update(n);
    }

    /** setPosition: replace column 3 of the local transform and update the subtree. */
    method SetPosition(n: nat, pos: Vec3)
      requires Valid() && n < |nodes|
      modifies this`nodes, this`buffers, this`uboCalls
      ensures Valid()
      ensures nodes == old(nodes)[n := old(nodes[n]).(transform := old(nodes[n].transform).WithCol(3, Extend(pos, 1.0)))]
      ensures GetPosition(nodes[n]) == pos
      ensures GetXAxis(nodes[n]) == GetXAxis(old(nodes[n])) && GetYAxis(nodes[n]) == GetYAxis(old(nodes[n]))
      ensures GetZAxis(nodes[n]) == GetZAxis(old(nodes[n]))
      ensures uboCalls == old(uboCalls) + Cascade(nodes, n, ParentWorld(nodes, n))
      ensures buffers == ApplyWrites(glm, nodes, swapChainNumber, old(buffers), Cascade(nodes, n, ParentWorld(nodes, n)))
      ensures old(Linked(nodes)) ==> Linked(nodes)
    {
      var t := nodes[n].transform.WithCol(3, Extend(pos, 1.0));
      assert t.Col(0) == nodes[n].transform.Col(0) && t.Col(1) == nodes[n].transform.Col(1);
      assert t.Col(2) == nodes[n].transform.Col(2) && t.Col(3) == Extend(pos, 1.0);
      TransformReplaced(nodes, n, t, swapChainNumber, buffers);
      nodes := nodes[n := nodes[n].(transform := t)];
      Update(n);
    }

    /** multiplyTransform: the new local transform is `m` times the old one. */
    method MultiplyTransform(n: nat, m: Mat4)
      requires Valid() && n < |nodes|
      modifies this`nodes, this`buffers, this`uboCalls
      ensures Valid()
      ensures nodes == old(nodes)[n := old(nodes[n]).(transform := Mul(m, old(nodes[n].transform)))]
      ensures uboCalls == old(uboCalls) + Cascade(nodes, n, ParentWorld(nodes, n))
      ensures buffers == ApplyWrites(glm, nodes, swapChainNumber, old(buffers), Cascade(nodes, n, ParentWorld(nodes, n)))
      ensures old(Linked(nodes)) ==> Linked(nodes)
    {
      SetTransform(n, Mul(m, nodes[n].transform));
    }

    /** VEEntity::setTexParam: store the parameter and update the subtree. */
    method SetTexParam(n: nat, param: Vec4)
      requires Valid() && n < |nodes| && nodes[n].kind.EntityNode?
      modifies this`nodes, this`buffers, this`uboCalls
      ensures Valid()
      ensures nodes == old(nodes)[n := old(nodes[n]).(kind := EntityNode(old(nodes[n].kind.entity).(texParam := param)))]
      ensures uboCalls == old(uboCalls) + Cascade(nodes, n, ParentWorld(nodes, n))
      ensures buffers == ApplyWrites(glm, nodes, swapChainNumber, old(buffers), Cascade(nodes, n, ParentWorld(nodes, n)))
      ensures buffers[n] == Fill(swapChainNumber, ObjectBlock(EntityUbo(glm, nodes[n].kind.entity, Mul(ParentWorld(nodes, n), nodes[n].transform))))
      ensures forall i :: 0 <= i < |buffers[n]| ==> buffers[n][i].ObjectBlock? && buffers[n][i].obj.texParam == param
      ensures old(Linked(nodes)) ==> Linked(nodes)
    {
      KindReplaced(nodes, n, EntityNode(nodes[n].kind.entity.(texParam := param)), swapChainNumber, buffers);
      nodes := nodes[n := nodes[n].(kind := EntityNode(nodes[n].kind.entity.(texParam := param)))];
      Update(n);
      ghost var w := Mul(ParentWorld(nodes, n), nodes[n].transform);
      ghost var t := Cascade(nodes, n, ParentWorld(nodes, n));
      ghost var b1 := WriteEntry(glm, nodes, swapChainNumber, old(buffers), t[0]);
      assert t == [t[0]] + t[1..];
      assert t[1..] == ChildrenCascade(nodes, n, 0, w);
      ChildrenCascadeRange(nodes, n, 0, w);
      ApplyWritesAppend(glm, nodes, swapChainNumber, old(buffers), [t[0]], t[1..]);
      ApplyWritesSkips(glm, nodes, swapChainNumber, b1, t[1..], n);
    }

    /**
     * lookAt: place the node at `eye` looking towards `point`. Only the local
     * transform changes; no update is triggered.
     */
    method LookAt(n: nat, eye: Vec3, point: Vec3, up: Vec3)
      requires Valid() && n < |nodes|
      modifies this`nodes
      ensures Valid()
      ensures nodes == old(nodes)[n := old(nodes[n]).(transform := LookAtMatrix(glm, eye, point, up))]
      ensures old(Linked(nodes)) ==> Linked(nodes)
    {
      TransformReplaced(nodes, n, LookAtMatrix(glm, eye, point, up), swapChainNumber, buffers);
      nodes := nodes[n := nodes[n].(transform := LookAtMatrix(glm, eye, point, up))];
    }

    // -------------------------------------------------------------------
    // Children

    /**
     * addChild: append `c` to `p`'s child list. The parent link of `c` is not
     * touched, so the lists stay linked only if `c` already names `p`.
     */
    method AddChild(p: nat, c: nat)
      requires Valid() && p < c < |nodes|
      modifies this`nodes
      ensures Valid()
      ensures nodes == old(nodes)[p := old(nodes[p]).(children := old(nodes[p].children) + [c])]
      ensures old(Linked(nodes)) && nodes[c].parent == Some(p) ==> Linked(nodes)
    {
      ChildrenReplaced(nodes, p, nodes[p].children + [c], swapChainNumber, buffers);
      nodes := nodes[p := nodes[p].(children := nodes[p].children + [c])];
    }

    /**
     * removeChild: the first entry equal to `c` is overwritten by the last
     * entry and the list shrinks by one; the child itself is kept.
     */
    method RemoveChild(p: nat, c: nat)
      requires Valid() && p < |nodes|
      modifies this`nodes
      ensures Valid()
      ensures nodes == old(nodes)[p := old(nodes[p]).(children := RemovedChild(old(nodes[p].children), c))]
      ensures old(Linked(nodes)) ==> Linked(nodes)
    {
      RemovedChildKeepsInvariants(nodes, p, c, swapChainNumber, buffers);
      var ch := nodes[p].children;
      var i := 0;
      while i < |ch|
        invariant 0 <= i <= |ch|
        invariant forall j :: 0 <= j < i ==> ch[j] != c
      {
        if ch[i] == c {
          assert FirstIndex(ch, c) == i;
          nodes := nodes[p := nodes[p].(children := SwapPop(ch, i))];
          return;
        }
        i := i + 1;
      }
    }

    // -------------------------------------------------------------------
    // Cameras

    /**
     * getProjectionMatrix(width, height) of either camera class. The projective
     * camera stores width / height as its aspect ratio first.
     */
    method GetProjectionMatrixSized(n: nat, width: real, height: real) returns (pm: Mat4)
      requires Valid() && n < |nodes| && nodes[n].kind.CameraNode?
      requires nodes[n].kind.camera.lens.Projective? ==> height != 0.0
      modifies this`nodes
      ensures Valid()
      ensures old(nodes[n].kind.camera.lens).Projective? ==>
        pm == ProjectiveMatrix(glm, old(nodes[n].kind.camera), width, height) &&
        nodes == old(nodes)[n := old(nodes[n]).(kind := CameraNode(ResizedLens(old(nodes[n].kind.camera), width, height)))]
      ensures old(nodes[n].kind.camera.lens).Ortho? ==>
        pm == OrthoMatrix(glm, old(nodes[n].kind.camera), width, height) && nodes == old(nodes)
      ensures old(Linked(nodes)) ==> Linked(nodes)
    {
      var c := nodes[n].kind.camera;
      if c.lens.Projective? {
        KindReplaced(nodes, n, CameraNode(ResizedLens(c, width, height)), swapChainNumber, buffers);
        nodes := nodes[n := nodes[n].(kind := CameraNode(ResizedLens(c, width, height)))];
        pm := ProjectiveMatrix(glm, nodes[n].kind.camera, width, height);
      } else {
        pm := OrthoMatrix(glm, c, width, height);
      }
    }

    /**
     * getFrustumPoints(points, z0, z1) of either camera class: append the
     * eight world-space corners, then interpolate positions 0 to 7 of the
     * list in place. The result is the frustum only for an empty input list.
     */
    method GetFrustumPoints(n: nat, points: seq<Vec4>, z0: real, z1: real) returns (r: seq<Vec4>)
      requires Valid() && n < |nodes| && nodes[n].kind.CameraNode?
      ensures r == Interpolated(points + WorldCorners(glm, nodes[n].kind.camera, World(nodes, n)), z0, z1)
      ensures points == [] ==> r == FrustumPoints(glm, nodes[n].kind.camera, World(nodes, n), z0, z1)
    {
      var w := World(nodes, n);
      var p0 := points + WorldCorners(glm, nodes[n].kind.camera, w);
      r := InterpolateCorners(p0, z0, z1);
      if points == [] {
        assert p0 == WorldCorners(glm, nodes[n].kind.camera, w);
      }
    }

    // -------------------------------------------------------------------
    // Bounding box

    /**
     * getOBB: the box along the node's local axes, taken in world space (the
     * first three columns of its world transform), that holds `points`, from
     * the largest projection in each of the six axis directions; `box` holds, for
     * each direction, the first point attaining that maximum.
     */
    method GetOBB(n: nat, points: seq<Vec4>) returns (obb: Obb, box: seq<Vec4>)
      requires Valid() && n < |nodes| && |points| >= 1
      ensures obb == ObbOf(World(nodes, n), points)
      ensures |box| == 6
      ensures forall j :: 0 <= j < 6 ==> box[j] == points[ArgMaxDot(Axes(World(nodes, n))[j], points, |points|)]
    {
      var w := World(nodes, n);
      var axes := Axes(w);
      var maxvalues;
      box, maxvalues := ScanExtremes(axes, points);
      assert maxvalues == MaxDots(axes, points);
      obb := ObbFromMaxima(w, maxvalues);
    }

    // -------------------------------------------------------------------
    // Destruction

    /** VESceneObject destructor: the object's uniform buffers are released. */
    method DestroyObject(n: nat)
      requires Valid() && n < |nodes| && !nodes[n].kind.PlainNode?
      modifies this`released
      ensures released == old(released) + [n]
    {
      released := released + [n];
    }

    /**
     * VELight destructor: delete every shadow camera, in list order, then
     * clear the list; the light's own buffers are released last.
     */
    method DestroyLight(l: nat)
      requires Valid() && l < |nodes| && nodes[l].kind.LightNode?
      modifies this`released, this`nodes
      ensures Valid()
      ensures released == old(released) + old(nodes[l].kind.light.shadowCameras) + [l]
      ensures nodes == old(nodes)[l := old(nodes[l]).(kind := LightNode(old(nodes[l].kind.light).(shadowCameras := [])))]
      ensures old(Linked(nodes)) ==> Linked(nodes)
    {
      var cams := nodes[l].kind.light.shadowCameras;
      var i := 0;
      while i < |cams|
        invariant 0 <= i <= |cams|
        invariant released == old(released) + cams[..i]
        invariant nodes == old(nodes)
      {
        released := released + [cams[i]];
        i := i + 1;
      }
      assert cams[..i] == cams;
      KindReplaced(nodes, l, LightNode(nodes[l].kind.light.(shadowCameras := [])), swapChainNumber, buffers);
      nodes := nodes[l := nodes[l].(kind := LightNode(nodes[l].kind.light.(shadowCameras := [])))];
      released := released + [l];
    }
  }
}
