/**
 * VESubrenderFW: the forward subrenderer. It keeps its entities in a list,
 * each entity's resource index equal to its position; the entities' image
 * descriptors in a paged table whose pages are bound through one descriptor
 * set each; and it records the commands that draw its entities.
 */
module Subrender {
  import opened Linear
  import opened SceneTypes
  import opened SceneGraph
  import opened Seqs
  import opened Paging

  /** getClass(): only object-class subrenderers take part in the later light passes. */
  datatype SubrenderClass = ObjectClass | OtherClass

  /** A descriptor set handed to vkCmdBindDescriptorSets. */
  datatype DescriptorSet =
    | CameraSet(camera: nat, imageIndex: nat)   // the camera's uniform-buffer set for one swapchain image
    | LightSet(light: nat, imageIndex: nat)     // the light's uniform-buffer set
    | ShadowSet(shadowSet: Handle)                 // the shadow maps
    | ObjectSet(entity: nat, imageIndex: nat)   // the entity's uniform-buffer set
    | ResourceSet(page: nat)                    // a page of the resource table

  /**
   * A recorded command. A draw also names the entity it belongs to, so that
   * properties can speak about which entity was drawn with which bindings.
   */
  datatype Command =
    | BindPipeline(pipeline: Handle)
    | BindSets(firstSet: nat, sets: seq<DescriptorSet>)
    | BindVertexBuffer(buffer: Handle)
    | BindIndexBuffer(buffer: Handle)
    | DrawIndexed(entity: nat, indexCount: nat)

  /** The set number through which a page of the resource table is bound. */
  const ResourceSetNumber: nat := 4

  // ---------------------------------------------------------------------
  // Binding state

  /** The page bound through set 4 after `c`, given the page bound before. */
  function ResourceAfter(c: Command, bound: Option<nat>): Option<nat> {
    if c.BindSets? && c.firstSet <= ResourceSetNumber < c.firstSet + |c.sets|
       && c.sets[ResourceSetNumber - c.firstSet].ResourceSet?
    then Some(c.sets[ResourceSetNumber - c.firstSet].page)
    else bound
  }

  /** The page bound through set 4 after a whole command sequence. */
  function ResourceAfterAll(cmds: seq<Command>, bound: Option<nat>): Option<nat>
    decreases |cmds|
  {
    if cmds == [] then bound else ResourceAfterAll(cmds[1..], ResourceAfter(cmds[0], bound))
  }

  /** For every draw, in order: the entity drawn and the page bound through set 4 at that moment. */
  function DrawBindings(cmds: seq<Command>, bound: Option<nat>): seq<(nat, Option<nat>)>
    decreases |cmds|
  {
    if cmds == [] then []
    else if cmds[0].DrawIndexed? then [(cmds[0].entity, bound)] + DrawBindings(cmds[1..], bound)
    else DrawBindings(cmds[1..], ResourceAfter(cmds[0], bound))
  }

  /** Draw bindings of a concatenation: the second part starts from the state the first leaves. */
  lemma {:induction false} DrawBindingsAppend(a: seq<Command>, b: seq<Command>, bound: Option<nat>)
    ensures DrawBindings(a + b, bound) == DrawBindings(a, bound) + DrawBindings(b, ResourceAfterAll(a, bound))
    ensures ResourceAfterAll(a + b, bound) == ResourceAfterAll(b, ResourceAfterAll(a, bound))
    decreases |a|
  {
    if a != [] {
      assert (a + b)[0] == a[0] && (a + b)[1..] == a[1..] + b;
      DrawBindingsAppend(a[1..], b, ResourceAfter(a[0], bound));
    } else {
      assert a + b == b;
    }
  }

  // ---------------------------------------------------------------------
  // Per-frame and per-entity bindings

  /**
   * bindDescriptorSetsPerFrame: sets 0 and 1 are the camera's and the light's
   * sets for this swapchain image; set 2 the shadow maps, if any are given.
   */
  function PerFrameBinding(imageIndex: nat, camera: nat, light: nat, shadow: seq<Handle>): (c: Command)
    requires |shadow| > 0 ==> imageIndex < |shadow|
    ensures c.BindSets? && c.firstSet == 0
    ensures |c.sets| == if |shadow| > 0 then 3 else 2
    ensures c.sets[0] == CameraSet(camera, imageIndex) && c.sets[1] == LightSet(light, imageIndex)
    ensures |shadow| > 0 ==> c.sets[2] == ShadowSet(shadow[imageIndex])
  {
    BindSets(0, [CameraSet(camera, imageIndex), LightSet(light, imageIndex)]
                + (if |shadow| > 0 then [ShadowSet(shadow[imageIndex])] else []))
  }

  /** The per-frame binding never reaches set 4, so the bound page survives it. */
  lemma PerFrameKeepsResource(imageIndex: nat, camera: nat, light: nat, shadow: seq<Handle>, bound: Option<nat>)
    requires |shadow| > 0 ==> imageIndex < |shadow|
    ensures ResourceAfter(PerFrameBinding(imageIndex, camera, light, shadow), bound) == bound
  {
  }

  /**
   * bindDescriptorSetsPerEntity as written: set 3 is the entity's own set;
   * a resource page is bound only for an entity whose index starts a page.
   */
  function PerEntityBindingAsWritten(imageIndex: nat, e: nat, resourceIdx: nat, pageCount: nat, len: nat): Command
    requires len > 0
  {
    BindSets(3, [ObjectSet(e, imageIndex)]
                + (if pageCount > 0 && resourceIdx % len == 0 then [ResourceSet(resourceIdx / len)] else []))
  }

  /**
   * bindDescriptorSetsPerEntity, corrected: the entity's page is bound
   * whenever it is not the page already bound.
   */
  function PerEntityBinding(imageIndex: nat, e: nat, resourceIdx: nat, pageCount: nat, len: nat, bound: Option<nat>): Command
    requires len > 0
  {
    BindSets(3, [ObjectSet(e, imageIndex)]
                + (if pageCount > 0 && bound != Some(resourceIdx / len) then [ResourceSet(resourceIdx / len)] else []))
  }

  /** drawEntity: bind the mesh's vertex and index buffers and draw its indices. */
  function DrawEntityCommands(e: nat, m: Mesh): seq<Command> {
    [BindVertexBuffer(m.vertexBuffer), BindIndexBuffer(m.indexBuffer), DrawIndexed(e, m.indexCount)]
  }

  /** Every drawable entity has a mesh to draw. */
  predicate Drawable(ents: seq<(nat, EntityData)>) {
    forall k :: 0 <= k < |ents| && ents[k].1.drawEntity ==> ents[k].1.mesh.Some?
  }

  /** Every suffix of a drawable list is drawable. */
  lemma DrawableSuffix(ents: seq<(nat, EntityData)>, k: nat)
    requires Drawable(ents) && k <= |ents|
    ensures Drawable(ents[k..])
  {
    forall i | 0 <= i < |ents[k..]| && ents[k..][i].1.drawEntity ensures ents[k..][i].1.mesh.Some? {
      assert ents[k..][i] == ents[k + i];
    }
  }

  /** The entity loop of draw as written. */
  function EntityLoopAsWritten(ents: seq<(nat, EntityData)>, imageIndex: nat, pageCount: nat, len: nat): seq<Command>
    requires len > 0 && Drawable(ents)
    decreases |ents|
  {
    if ents == [] then []
    else
      var rest := EntityLoopAsWritten(ents[1..], imageIndex, pageCount, len);
      var d := ents[0].1;
      if d.drawEntity then
        [PerEntityBindingAsWritten(imageIndex, ents[0].0, d.resourceIdx, pageCount, len)]
        + DrawEntityCommands(ents[0].0, d.mesh.value) + rest
      else rest
  }

  /** The entity loop of draw with the corrected per-entity binding; `bound` is the page bound so far. */
  function EntityLoop(ents: seq<(nat, EntityData)>, imageIndex: nat, pageCount: nat, len: nat, bound: Option<nat>): seq<Command>
    requires len > 0 && Drawable(ents)
    decreases |ents|
  {
    if ents == [] then []
    else
      var d := ents[0].1;
      if d.drawEntity then
        var next: Option<nat> := if pageCount > 0 then Some(d.resourceIdx / len) else bound;
        [PerEntityBinding(imageIndex, ents[0].0, d.resourceIdx, pageCount, len, bound)]
        + DrawEntityCommands(ents[0].0, d.mesh.value)
        + EntityLoop(ents[1..], imageIndex, pageCount, len, next)
      else EntityLoop(ents[1..], imageIndex, pageCount, len, bound)
  }

  /** The page an entity's draw should see: its own, or none when the table has no pages. */
  function PageOf(resourceIdx: nat, pageCount: nat, len: nat): Option<nat>
    requires len > 0
  {
    if pageCount > 0 then Some(resourceIdx / len) else None
  }

  /**
   * What every draw should see: the drawable entities in list order, each
   * with its own page bound (nothing when the table has no pages).
   */
  function OwnPages(ents: seq<(nat, EntityData)>, pageCount: nat, len: nat): seq<(nat, Option<nat>)>
    requires len > 0
    decreases |ents|
  {
    if ents == [] then []
    else
      (if ents[0].1.drawEntity
       then [(ents[0].0, PageOf(ents[0].1.resourceIdx, pageCount, len))]
       else [])
      + OwnPages(ents[1..], pageCount, len)
  }

  /** Drawing a mesh draws its entity once and leaves the bound page alone. */
  lemma MeshCommandsKeep(e: nat, m: Mesh, bound: Option<nat>)
    ensures DrawBindings(DrawEntityCommands(e, m), bound) == [(e, bound)]
    ensures ResourceAfterAll(DrawEntityCommands(e, m), bound) == bound
  {
    var cmds := DrawEntityCommands(e, m);
    var last := [DrawIndexed(e, m.indexCount)];
    assert cmds[1..][1..] == last && last[1..] == [];
    assert DrawBindings(last, bound) == [(e, bound)];
    assert ResourceAfterAll(last, bound) == bound;
  }

  /** One drawn entity under the corrected binding: it is drawn with its own page bound, and that page stays bound. */
  lemma DrawnWithOwnPage(imageIndex: nat, e: nat, d: EntityData, pageCount: nat, len: nat, bound: Option<nat>)
    requires len > 0 && d.mesh.Some?
    requires pageCount == 0 ==> bound == None
    ensures DrawBindings([PerEntityBinding(imageIndex, e, d.resourceIdx, pageCount, len, bound)]
                         + DrawEntityCommands(e, d.mesh.value), bound)
            == [(e, PageOf(d.resourceIdx, pageCount, len))]
    ensures ResourceAfterAll([PerEntityBinding(imageIndex, e, d.resourceIdx, pageCount, len, bound)]
                             + DrawEntityCommands(e, d.mesh.value), bound)
            == PageOf(d.resourceIdx, pageCount, len)
  {
    var c := PerEntityBinding(imageIndex, e, d.resourceIdx, pageCount, len, bound);
    var cmds := [c] + DrawEntityCommands(e, d.mesh.value);
    var after := PageOf(d.resourceIdx, pageCount, len);
    assert ResourceAfter(c, bound) == after;
    assert cmds[0] == c && cmds[1..] == DrawEntityCommands(e, d.mesh.value);
    MeshCommandsKeep(e, d.mesh.value, after);
  }

  /**
   * With the corrected binding, every draw of the entity loop sees its own
   * entity's page bound, and exactly the drawable entities are drawn, in order.
   */
  lemma {:induction false} EntityLoopBindsOwnPages(ents: seq<(nat, EntityData)>, imageIndex: nat, pageCount: nat,
                                                   len: nat, bound: Option<nat>)
    requires len > 0 && Drawable(ents)
    requires pageCount == 0 ==> bound == None
    ensures DrawBindings(EntityLoop(ents, imageIndex, pageCount, len, bound), bound) == OwnPages(ents, pageCount, len)
    decreases |ents|
  {
    if ents != [] {
      var d := ents[0].1;
      DrawableSuffix(ents, 1);
      if d.drawEntity {
        var next: Option<nat> := if pageCount > 0 then Some(d.resourceIdx / len) else bound;
        var head := [PerEntityBinding(imageIndex, ents[0].0, d.resourceIdx, pageCount, len, bound)]
                    + DrawEntityCommands(ents[0].0, d.mesh.value);
        DrawnWithOwnPage(imageIndex, ents[0].0, d, pageCount, len, bound);
        DrawBindingsAppend(head, EntityLoop(ents[1..], imageIndex, pageCount, len, next), bound);
        EntityLoopBindsOwnPages(ents[1..], imageIndex, pageCount, len, next);
      } else {
        EntityLoopBindsOwnPages(ents[1..], imageIndex, pageCount, len, bound);
      }
    }
  }

  /** The page bound after an entity's binding as written. */
  function AsWrittenAfter(resourceIdx: nat, pageCount: nat, len: nat, bound: Option<nat>): Option<nat>
    requires len > 0
  {
    if pageCount > 0 && resourceIdx % len == 0 then Some(resourceIdx / len) else bound
  }

  /** One drawn entity under the binding as written: its page is bound only if its index starts a page. */
  lemma DrawnAsWritten(imageIndex: nat, e: nat, d: EntityData, pageCount: nat, len: nat, bound: Option<nat>)
    requires len > 0 && d.mesh.Some?
    ensures DrawBindings([PerEntityBindingAsWritten(imageIndex, e, d.resourceIdx, pageCount, len)]
                         + DrawEntityCommands(e, d.mesh.value), bound)
            == [(e, AsWrittenAfter(d.resourceIdx, pageCount, len, bound))]
    ensures ResourceAfterAll([PerEntityBindingAsWritten(imageIndex, e, d.resourceIdx, pageCount, len)]
                             + DrawEntityCommands(e, d.mesh.value), bound)
            == AsWrittenAfter(d.resourceIdx, pageCount, len, bound)
  {
    var c := PerEntityBindingAsWritten(imageIndex, e, d.resourceIdx, pageCount, len);
    var cmds := [c] + DrawEntityCommands(e, d.mesh.value);
    var after := AsWrittenAfter(d.resourceIdx, pageCount, len, bound);
    assert ResourceAfter(c, bound) == after;
    assert cmds[0] == c && cmds[1..] == DrawEntityCommands(e, d.mesh.value);
    MeshCommandsKeep(e, d.mesh.value, after);
  }

  /**
   * The binding as written agrees with the corrected one whenever every
   * entity that starts a page is drawn. The entities' indices run on from
   * `start`, and on entry the bound page is the first entity's own unless
   * that entity starts a page (so any state will do for a list starting at 0).
   */
  lemma {:induction false} AsWrittenBindsOwnPages(ents: seq<(nat, EntityData)>, imageIndex: nat, pageCount: nat,
                                                  len: nat, start: nat, bound: Option<nat>)
    requires len > 0 && Drawable(ents)
    requires forall k :: 0 <= k < |ents| ==> ents[k].1.resourceIdx == start + k
    requires forall k :: 0 <= k < |ents| && ents[k].1.resourceIdx % len == 0 ==> ents[k].1.drawEntity
    requires pageCount == 0 ==> bound == None
    requires start % len != 0 ==> bound == PageOf(start, pageCount, len)
    ensures DrawBindings(EntityLoopAsWritten(ents, imageIndex, pageCount, len), bound) == OwnPages(ents, pageCount, len)
    decreases |ents|
  {
    if ents != [] {
      var d := ents[0].1;
      assert d.resourceIdx == start;
      DrawableSuffix(ents, 1);
      var rest := ents[1..];
      forall k | 0 <= k < |rest| ensures rest[k].1.resourceIdx == start + 1 + k {
        assert rest[k] == ents[k + 1];
      }
      forall k | 0 <= k < |rest| && rest[k].1.resourceIdx % len == 0 ensures rest[k].1.drawEntity {
        assert rest[k] == ents[k + 1];
      }
      var after := if d.drawEntity then AsWrittenAfter(start, pageCount, len, bound) else bound;
      assert after == PageOf(start, pageCount, len);
      if (start + 1) % len != 0 {
        NextInSamePage(start, len);
      }
      if d.drawEntity {
        var head := [PerEntityBindingAsWritten(imageIndex, ents[0].0, d.resourceIdx, pageCount, len)]
                    + DrawEntityCommands(ents[0].0, d.mesh.value);
        DrawnAsWritten(imageIndex, ents[0].0, d, pageCount, len, bound);
        DrawBindingsAppend(head, EntityLoopAsWritten(rest, imageIndex, pageCount, len), bound);
        AsWrittenBindsOwnPages(rest, imageIndex, pageCount, len, start + 1, after);
      } else {
        AsWrittenBindsOwnPages(rest, imageIndex, pageCount, len, start + 1, bound);
      }
    }
  }

  /** An entity of the counterexample below: a three-index mesh, with the given id, position and visibility. */
  function Listed(id: nat, idx: nat, shown: bool): (nat, EntityData) {
    (id, DefaultEntity(EntityNormal).(mesh := Some(Mesh(3, Handle(1), Handle(2), Vec3(0.0, 0.0, 0.0), 1.0)),
                                      drawEntity := shown, resourceIdx := idx))
  }

  /** Four entities, two per page, the third hidden. */
  function CounterexampleEntities(): seq<(nat, EntityData)> {
    [Listed(10, 0, true), Listed(11, 1, true), Listed(12, 2, false), Listed(13, 3, true)]
  }

  /** The commands the entity loop as written records for one shown entity of the counterexample. */
  function ShownCommands(id: nat, idx: nat): seq<Command> {
    [PerEntityBindingAsWritten(0, id, idx, 2, 2)] + DrawEntityCommands(id, Listed(id, idx, true).1.mesh.value)
  }

  /** The counterexample's entity loop as written, entity by entity. */
  lemma CounterexampleLoop()
    ensures EntityLoopAsWritten(CounterexampleEntities(), 0, 2, 2)
            == ShownCommands(10, 0) + (ShownCommands(11, 1) + ShownCommands(13, 3))
  {
    var ents := CounterexampleEntities();
    var bcd, cd, dd, none: seq<(nat, EntityData)> := ents[1..], ents[2..], ents[3..], [];
    assert bcd[1..] == cd && cd[1..] == dd && dd[1..] == none;
    assert EntityLoopAsWritten(dd, 0, 2, 2) == ShownCommands(13, 3) + [];
    assert EntityLoopAsWritten(cd, 0, 2, 2) == ShownCommands(13, 3);
    assert EntityLoopAsWritten(bcd, 0, 2, 2) == ShownCommands(11, 1) + ShownCommands(13, 3);
  }

  /** What the counterexample's draws should see: page 0 for the first two, page 1 for the last. */
  lemma CounterexampleOwnPages()
    ensures OwnPages(CounterexampleEntities(), 2, 2) == [(10, Some(0)), (11, Some(0)), (13, Some(1))]
  {
    var ents := CounterexampleEntities();
    var bcd, cd, dd, none: seq<(nat, EntityData)> := ents[1..], ents[2..], ents[3..], [];
    assert bcd[1..] == cd && cd[1..] == dd && dd[1..] == none;
    assert OwnPages(dd, 2, 2) == [(13, Some(1))] + [];
    assert OwnPages(cd, 2, 2) == [(13, Some(1))];
    assert OwnPages(bcd, 2, 2) == [(11, Some(0)), (13, Some(1))];
  }

  /**
   * With the binding as written, the fourth entity of the counterexample is
   * drawn while page 0 is still bound, though its descriptors are in page 1.
   */
  lemma DrawBindingCounterexample()
    ensures DrawBindings(EntityLoopAsWritten(CounterexampleEntities(), 0, 2, 2), None)
            == [(10, Some(0)), (11, Some(0)), (13, Some(0))]
    ensures OwnPages(CounterexampleEntities(), 2, 2) == [(10, Some(0)), (11, Some(0)), (13, Some(1))]
  {
    CounterexampleLoop();
    CounterexampleOwnPages();
    var la, lb, ld := ShownCommands(10, 0), ShownCommands(11, 1), ShownCommands(13, 3);
    DrawnAsWritten(0, 10, Listed(10, 0, true).1, 2, 2, None);
    DrawnAsWritten(0, 11, Listed(11, 1, true).1, 2, 2, Some(0));
    DrawnAsWritten(0, 13, Listed(13, 3, true).1, 2, 2, Some(0));
    DrawBindingsAppend(la, lb + ld, None);
    DrawBindingsAppend(lb, ld, Some(0));
  }

  /**
   * draw: nothing when there are no entities, or in a later light pass for a
   * subrenderer that is not of the object class; otherwise bind the
   * pipeline, set the dynamic state, bind the per-frame sets and run the
   * entity loop.
   */
  function DrawCommands(ents: seq<(nat, EntityData)>, cls: SubrenderClass, pipelines: seq<Handle>, imageIndex: nat,
                        numPass: nat, camera: nat, light: nat, shadow: seq<Handle>, pageCount: nat, len: nat)
    : seq<Command>
    requires len > 0 && Drawable(ents)
    requires |shadow| > 0 ==> imageIndex < |shadow|
    requires |ents| > 0 && (numPass == 0 || cls == ObjectClass) ==> |pipelines| > 0
  {
    if |ents| == 0 || (numPass > 0 && cls != ObjectClass) then []
    else [BindPipeline(pipelines[0])] + DynamicStateCommands(numPass)
         + [PerFrameBinding(imageIndex, camera, light, shadow)]
         + EntityLoop(ents, imageIndex, pageCount, len, None)
  }

  /** setDynamicPipelineState: nothing in this class. */
  function DynamicStateCommands(numPass: nat): (r: seq<Command>)
    ensures r == []
  {
    []
  }

  /**
   * A draw binds, for each drawable entity in list order, that entity's own
   * resource page; a draw that is skipped draws nothing.
   */
  lemma DrawBindsOwnPages(ents: seq<(nat, EntityData)>, cls: SubrenderClass, pipelines: seq<Handle>, imageIndex: nat,
                          numPass: nat, camera: nat, light: nat, shadow: seq<Handle>, pageCount: nat, len: nat)
    requires len > 0 && Drawable(ents)
    requires |shadow| > 0 ==> imageIndex < |shadow|
    requires |ents| > 0 && (numPass == 0 || cls == ObjectClass) ==> |pipelines| > 0
    ensures DrawBindings(DrawCommands(ents, cls, pipelines, imageIndex, numPass, camera, light, shadow, pageCount, len), None)
            == if |ents| == 0 || (numPass > 0 && cls != ObjectClass) then [] else OwnPages(ents, pageCount, len)
  {
    if !(|ents| == 0 || (numPass > 0 && cls != ObjectClass)) {
      var pro := [BindPipeline(pipelines[0]), PerFrameBinding(imageIndex, camera, light, shadow)];
      assert DrawCommands(ents, cls, pipelines, imageIndex, numPass, camera, light, shadow, pageCount, len)
          == pro + EntityLoop(ents, imageIndex, pageCount, len, None);
      DrawBindingsAppend(pro, EntityLoop(ents, imageIndex, pageCount, len, None), None);
      assert pro[1..][1..] == [];
      PerFrameKeepsResource(imageIndex, camera, light, shadow, None);
      EntityLoopBindsOwnPages(ents, imageIndex, pageCount, len, None);
    }
  }

  /** The entity loop of draw, keeping track of the page bound so far. */
  method RecordEntities(ents: seq<(nat, EntityData)>, imageIndex: nat, pageCount: nat, len: nat)
    returns (cmds: seq<Command>)
    requires len > 0 && Drawable(ents)
    ensures cmds == EntityLoop(ents, imageIndex, pageCount, len, None)
  {
    cmds := [];
    var bound: Option<nat> := None;
    var k := 0;
    while k < |ents|
      invariant 0 <= k <= |ents| && Drawable(ents[k..])
      invariant cmds + EntityLoop(ents[k..], imageIndex, pageCount, len, bound)
             == EntityLoop(ents, imageIndex, pageCount, len, None)
    {
      var (e, d) := ents[k];
      assert ents[k..][0] == (e, d) && ents[k..][1..] == ents[k + 1..];
      DrawableSuffix(ents, k + 1);
      if d.drawEntity {
        var step := [PerEntityBinding(imageIndex, e, d.resourceIdx, pageCount, len, bound)] + DrawEntityCommands(e, d.mesh.value);
        var next: Option<nat> := if pageCount > 0 then Some(d.resourceIdx / len) else bound;
        assert cmds + EntityLoop(ents[k..], imageIndex, pageCount, len, bound)
            == (cmds + step) + EntityLoop(ents[k + 1..], imageIndex, pageCount, len, next);
        cmds := cmds + step;
        bound := next;
      }
      k := k + 1;
    }
  }

  // ---------------------------------------------------------------------
  // Entity list and scene

  /** Every listed entity is an entity node whose resource index is its position in the list. */
  predicate Indexed(nodes: seq<Node>, entities: seq<nat>) {
    forall k :: 0 <= k < |entities| ==>
      entities[k] < |nodes| && nodes[entities[k]].kind.EntityNode? && nodes[entities[k]].kind.entity.resourceIdx == k
  }

  /** Resource indices equal to positions make the list free of duplicates. */
  lemma IndexedDistinct(nodes: seq<Node>, entities: seq<nat>)
    requires Indexed(nodes, entities)
    ensures Distinct(entities)
  {
    forall i, j | 0 <= i < j < |entities| ensures entities[i] != entities[j] {
      assert nodes[entities[i]].kind.entity.resourceIdx == i;
      assert nodes[entities[j]].kind.entity.resourceIdx == j;
    }
  }

  /** The listed entities with their current data, as the draw loop reads them. */
  function Snapshot(nodes: seq<Node>, entities: seq<nat>): (r: seq<(nat, EntityData)>)
    requires forall k :: 0 <= k < |entities| ==> entities[k] < |nodes| && nodes[entities[k]].kind.EntityNode?
    ensures |r| == |entities|
    ensures forall k :: 0 <= k < |entities| ==> r[k] == (entities[k], nodes[entities[k]].kind.entity)
  {
    seq(|entities|, k requires 0 <= k < |entities| => (entities[k], nodes[entities[k]].kind.entity))
  }

  /** The scene after setResourceIdx(idx) on entity `id`. */
  function WithResourceIdx(nodes: seq<Node>, id: nat, idx: nat): seq<Node>
    requires id < |nodes| && nodes[id].kind.EntityNode?
  {
    nodes[id := nodes[id].(kind := EntityNode(nodes[id].kind.entity.(resourceIdx := idx)))]
  }

  /**
   * The table after removeEntity takes slot `i` out of `size` entries: the
   * last slot is copied into slot `i`, and when the new count `size - 1`
   * is a page boundary every column is cut to it; otherwise the columns keep
   * their length and every other slot.
   */
  function RemovedMaps(maps: Maps, size: nat, i: nat, len: nat): Maps
    requires len > 0 && size > 0
  {
    var moved := Moved(maps, size - 1, i);
    if (size - 1) % len == 0 then Truncated(moved, size - 1) else moved
  }

  // ---------------------------------------------------------------------
  // Column loops

  /** The page-start branch of addMaps: each column is resized by `len` and the new slots all filled. */
  method GrowColumns(maps: Maps, offset: nat, newMaps: seq<ImageInfo>, len: nat) returns (r: Maps)
    requires |newMaps| == |maps| && Columns(maps, offset)
    ensures r == Grown(maps, newMaps, len)
  {
    r := maps;
    var i := 0;
    while i < |maps|
      invariant 0 <= i <= |maps| && |r| == |maps|
      invariant forall j :: 0 <= j < i ==> r[j] == maps[j] + Fill(len, newMaps[j])
      invariant forall j :: i <= j < |maps| ==> r[j] == maps[j]
    {
      var col := r[i] + Fill(len, EmptyInfo);
      var k := offset;
      while k < offset + len
        invariant offset <= k <= offset + len && |col| == offset + len
        invariant col[..offset] == maps[i]
        invariant forall m :: offset <= m < k ==> col[m] == newMaps[i]
      {
        col := col[k := newMaps[i]];
        k := k + 1;
      }
      assert col == maps[i] + Fill(len, newMaps[i]);
      r := r[i := col];
      i := i + 1;
    }
  }

  /** The in-page branch of addMaps: slot `s` of each column receives the new descriptor. */
  method WriteSlot(maps: Maps, s: nat, newMaps: seq<ImageInfo>) returns (r: Maps)
    requires |newMaps| == |maps| && forall j :: 0 <= j < |maps| ==> s < |maps[j]|
    ensures r == WithSlot(maps, s, newMaps)
  {
    r := maps;
    var i := 0;
    while i < |maps|
      invariant 0 <= i <= |maps| && |r| == |maps|
      invariant forall j :: 0 <= j < i ==> r[j] == maps[j][s := newMaps[j]]
      invariant forall j :: i <= j < |maps| ==> r[j] == maps[j]
    {
      r := r[i := r[i][s := newMaps[i]]];
      i := i + 1;
    }
  }

  /** removeEntity's move: slot `from` of each column is copied into slot `to`. */
  method MoveSlot(maps: Maps, from: nat, to: nat) returns (r: Maps)
    requires forall j :: 0 <= j < |maps| ==> from < |maps[j]| && to < |maps[j]|
    ensures r == Moved(maps, from, to)
  {
    r := maps;
    var i := 0;
    while i < |maps|
      invariant 0 <= i <= |maps| && |r| == |maps|
      invariant forall j :: 0 <= j < i ==> r[j] == maps[j][to := maps[j][from]]
      invariant forall j :: i <= j < |maps| ==> r[j] == maps[j]
    {
      r := r[i := r[i][to := r[i][from]]];
      i := i + 1;
    }
  }

  /** removeEntity's shrink: every column is resized down to `size`. */
  method TruncateColumns(maps: Maps, size: nat) returns (r: Maps)
    requires forall j :: 0 <= j < |maps| ==> size <= |maps[j]|
    ensures r == Truncated(maps, size)
  {
    r := maps;
    var i := 0;
    while i < |maps|
      invariant 0 <= i <= |maps| && |r| == |maps|
      invariant forall j :: 0 <= j < i ==> r[j] == maps[j][..size]
      invariant forall j :: i <= j < |maps| ==> r[j] == maps[j]
    {
      r := r[i := r[i][..size]];
      i := i + 1;
    }
  }

  // ---------------------------------------------------------------------
  // The subrenderer

  class SubrenderFW {
    /** getClass() */
    const cls: SubrenderClass
    /** m_resourceArrayLength: slots per page */
    const resourceArrayLength: nat
    /** m_descriptorSetLayoutResources */
    var descriptorSetLayoutResources: Handle
    /** m_descriptorSetsResources: one set per page, each given by what was last written to it */
    var pages: seq<Page>
    /** m_maps */
    var maps: Maps
    /** m_pipelineLayout */
    var pipelineLayout: Handle
    /** m_pipelines */
    var pipelines: seq<Handle>
    /** m_entities: the scene's entity nodes that this subrenderer draws */
    var entities: seq<nat>
    /** Handles passed to vkDestroy* so far. */
    var destroyed: seq<Handle>

    /**
     * The subrenderer's invariant: the entity list is indexed by resource
     * index, there are exactly enough pages for the entities, and every
     * page's descriptor set mirrors its window of the table.
     */
    ghost predicate Valid(nodes: seq<Node>)
      reads this
    {
      resourceArrayLength > 0 && |maps| >= 1 && Indexed(nodes, entities)
      && |pages| == PageCount(|entities|, resourceArrayLength)
      && |entities| <= |pages| * resourceArrayLength
      && Mirrors(maps, pages, resourceArrayLength)
    }

    /**
     * Construction: the member initialisers leave the layouts null, the
     * page list, the table, the pipelines and the entity list empty, and
     * the page length at 512.
     */
    constructor(cls: SubrenderClass)
      ensures this.cls == cls && resourceArrayLength == 512
      ensures descriptorSetLayoutResources == NullHandle && pipelineLayout == NullHandle
      ensures entities == [] && pages == [] && maps == [] && pipelines == [] && destroyed == []
    {
      this.cls := cls;
      resourceArrayLength := 512;
      descriptorSetLayoutResources := NullHandle;
      pages := [];
      maps := [];
      pipelineLayout := NullHandle;
      pipelines := [];
      entities := [];
      destroyed := [];
    }

    /**
     * What a concrete subrenderer's own initSubrenderer does before any
     * entity is added (those subclasses are not part of this model): create
     * the resource set layout, the pipeline layout and the pipelines, and one
     * empty column per kind of map its entities carry.
     */
    method Configure(mapKinds: nat, layoutResources: Handle, layout: Handle, psos: seq<Handle>, ghost nodes: seq<Node>)
      requires resourceArrayLength > 0 && entities == [] && pages == [] && mapKinds >= 1
      modifies this`maps, this`descriptorSetLayoutResources, this`pipelineLayout, this`pipelines
      ensures Valid(nodes)
      ensures |maps| == mapKinds && entities == [] && pages == []
      ensures descriptorSetLayoutResources == layoutResources && pipelineLayout == layout && pipelines == psos
    {
      maps := Fill(mapKinds, []);
      descriptorSetLayoutResources := layoutResources;
      pipelineLayout := layout;
      pipelines := psos;
    }

    /** getNumberEntities: the list length as a uint32_t. */
    function NumberEntities(): (r: nat)
      reads this
      ensures r < Two32
      ensures |entities| < Two32 ==> r == |entities|
    {
      Uint32(|entities|)
    }

    /** getPipelineLayout */
    function PipelineLayout(): Handle
      reads this
    {
      pipelineLayout
    }

    /** draw(imageIndex, waitSemaphore): this class performs no such operation and returns a null semaphore. */
    function DrawSemaphore(imageIndex: nat, waitSemaphore: Handle): (r: Handle)
      ensures r.NullHandle?
    {
      NullHandle
    }

    /** initSubrenderer: nothing in this class. */
    method InitSubrenderer() {
    }

    /** prepareDraw: nothing in this class. */
    method PrepareDraw() {
    }

    /**
     * closeSubrenderer: destroy every pipeline, then the pipeline layout and
     * the resource set layout where they are not null.
     */
    method CloseSubrenderer()
      modifies this`destroyed
      ensures destroyed == old(destroyed) + pipelines
        + (if pipelineLayout != NullHandle then [pipelineLayout] else [])
        + (if descriptorSetLayoutResources != NullHandle then [descriptorSetLayoutResources] else [])
    {
      var i := 0;
      while i < |pipelines|
        invariant 0 <= i <= |pipelines|
        invariant destroyed == old(destroyed) + pipelines[..i]
      {
        destroyed := destroyed + [pipelines[i]];
        i := i + 1;
      }
      assert pipelines[..i] == pipelines;
      destroyed := destroyed + (if pipelineLayout != NullHandle then [pipelineLayout] else []);
      destroyed := destroyed + (if descriptorSetLayoutResources != NullHandle then [descriptorSetLayoutResources] else []);
    }

    /**
     * recreateResources: close and re-initialise, then replace the resource
     * sets by as many fresh ones and write page i from slot i * len. Whatever
     * the sets held before, afterwards they mirror the table.
     */
    method RecreateResources()
      requires Columns(maps, |pages| * resourceArrayLength)
      modifies this`pages, this`destroyed
      ensures destroyed == old(destroyed) + pipelines
        + (if pipelineLayout != NullHandle then [pipelineLayout] else [])
        + (if descriptorSetLayoutResources != NullHandle then [descriptorSetLayoutResources] else [])
      ensures |pages| == old(|pages|)
      ensures Mirrors(maps, pages, resourceArrayLength)
    {
      CloseSubrenderer();
      InitSubrenderer();
      var size := |pages|;
      if size > 0 {
        pages := Fill(size, []);
        ghost var closed := destroyed;
        var i := 0;
        while i < size
          invariant 0 <= i <= size && |pages| == size && destroyed == closed
          invariant forall p :: 0 <= p < i ==> pages[p] == Window(maps, p * resourceArrayLength, resourceArrayLength)
        {
          pages := pages[i := Window(maps, i * resourceArrayLength, resourceArrayLength)];
          i := i + 1;
        }
      }
    }

    /**
     * addMaps: give entity `e` the resource index equal to the list length,
     * store its descriptors in that slot (starting a new page, pre-filled
     * with them, when the slot is the first of a page) and rewrite the last
     * page's set.
     */
    method AddMaps(scene: Scene, e: nat, newMaps: seq<ImageInfo>)
      requires scene.Valid() && Valid(scene.nodes)
      requires e < |scene.nodes| && scene.nodes[e].kind.EntityNode? && e !in entities
      requires |newMaps| == |maps|
      modifies this`maps, this`pages, scene`nodes
      ensures scene.Valid()
      ensures scene.nodes == WithResourceIdx(old(scene.nodes), e, |entities|)
      ensures |maps| == old(|maps|)
      ensures |pages| == PageCount(|entities| + 1, resourceArrayLength) && Mirrors(maps, pages, resourceArrayLength)
      ensures |entities| + 1 <= |pages| * resourceArrayLength
      ensures forall j :: 0 <= j < |maps| ==> maps[j][|entities|] == newMaps[j]
      ensures forall j, k :: 0 <= j < |maps| && 0 <= k < |entities| ==> maps[j][k] == old(maps[j][k])
      ensures maps == if |entities| % resourceArrayLength == 0 then Grown(old(maps), newMaps, resourceArrayLength)
                      else WithSlot(old(maps), |entities|, newMaps)
    {
      scene.SetResourceIdx(e, |entities|);
      StoreMaps(newMaps);
    }

    /**
     * The table part of addMaps: on a page boundary a new page is added and
     * every column grows by a page, all of it holding the new descriptors;
     * otherwise only slot |entities| is written. Either way the last page's
     * set is rewritten.
     */
    method StoreMaps(newMaps: seq<ImageInfo>)
      requires resourceArrayLength > 0 && |maps| >= 1 && |newMaps| == |maps|
      requires |pages| == PageCount(|entities|, resourceArrayLength) && |entities| <= |pages| * resourceArrayLength
      requires Mirrors(maps, pages, resourceArrayLength)
      modifies this`maps, this`pages
      ensures |maps| == old(|maps|)
      ensures |pages| == PageCount(|entities| + 1, resourceArrayLength) && Mirrors(maps, pages, resourceArrayLength)
      ensures |entities| + 1 <= |pages| * resourceArrayLength
      ensures forall j :: 0 <= j < |maps| ==> maps[j][|entities|] == newMaps[j]
      ensures forall j, k :: 0 <= j < |maps| && 0 <= k < |entities| ==> maps[j][k] == old(maps[j][k])
      ensures maps == if |entities| % resourceArrayLength == 0 then Grown(old(maps), newMaps, resourceArrayLength)
                      else WithSlot(old(maps), |entities|, newMaps)
    {
      if |entities| % resourceArrayLength == 0 {
        StartPage(newMaps);
      } else {
        WriteInPage(newMaps);
      }
    }

    /** addMaps on a page boundary: one new page, pre-filled with the new descriptors. */
    method StartPage(newMaps: seq<ImageInfo>)
      requires resourceArrayLength > 0 && |maps| >= 1 && |newMaps| == |maps|
      requires |entities| % resourceArrayLength == 0
      requires |pages| == PageCount(|entities|, resourceArrayLength) && |entities| <= |pages| * resourceArrayLength
      requires Mirrors(maps, pages, resourceArrayLength)
      modifies this`maps, this`pages
      ensures |maps| == old(|maps|)
      ensures |pages| == PageCount(|entities| + 1, resourceArrayLength) && Mirrors(maps, pages, resourceArrayLength)
      ensures |entities| + 1 <= |pages| * resourceArrayLength
      ensures forall j :: 0 <= j < |maps| ==> maps[j][|entities|] == newMaps[j]
      ensures forall j, k :: 0 <= j < |maps| && 0 <= k < |entities| ==> maps[j][k] == old(maps[j][k])
      ensures maps == Grown(old(maps), newMaps, resourceArrayLength)
    {
      var n := |entities|;
      var len := resourceArrayLength;
      PageCountAppend(n, len);
      GrownMirrors(maps, pages, newMaps, len);
      var offset := |maps[0]|;
      pages := pages + [[]];
      maps := GrowColumns(maps, offset, newMaps, len);
      assert offset == (|pages| - 1) * len;
      pages := pages[|pages| - 1 := Window(maps, offset, len)];
      PageCountBounds(n + 1, len);
    }

    /** addMaps inside a page: slot |entities| is written and the last page rewritten. */
    method WriteInPage(newMaps: seq<ImageInfo>)
      requires resourceArrayLength > 0 && |maps| >= 1 && |newMaps| == |maps|
      requires |entities| % resourceArrayLength != 0
      requires |pages| == PageCount(|entities|, resourceArrayLength) && |entities| <= |pages| * resourceArrayLength
      requires Mirrors(maps, pages, resourceArrayLength)
      modifies this`maps, this`pages
      ensures |maps| == old(|maps|)
      ensures |pages| == PageCount(|entities| + 1, resourceArrayLength) && Mirrors(maps, pages, resourceArrayLength)
      ensures |entities| + 1 <= |pages| * resourceArrayLength
      ensures forall j :: 0 <= j < |maps| ==> maps[j][|entities|] == newMaps[j]
      ensures forall j, k :: 0 <= j < |maps| && 0 <= k < |entities| ==> maps[j][k] == old(maps[j][k])
      ensures maps == WithSlot(old(maps), |entities|, newMaps)
    {
      var n := |entities|;
      var len := resourceArrayLength;
      PageCountAppend(n, len);
      ColumnPages(|pages|, len);
      SlotInPage(n, n + 1, len);
      var offset := (|maps[0]| / len - 1) * len;
      var m2 := WriteSlot(maps, n, newMaps);
      SlotChangeMirrors(maps, m2, pages, n, len);
      maps := m2;
      pages := pages[|pages| - 1 := Window(maps, offset, len)];
      PageCountBounds(n + 1, len);
    }

    /**
     * addEntity: VESubrender::addEntity appends the entity to the list. The
     * forward subrenderers register an entity by addMaps followed by this.
     */
    method Register(scene: Scene, e: nat, newMaps: seq<ImageInfo>)
      requires scene.Valid() && Valid(scene.nodes)
      requires e < |scene.nodes| && scene.nodes[e].kind.EntityNode? && e !in entities
      requires |newMaps| == |maps|
      modifies this`maps, this`pages, this`entities, scene`nodes
      ensures scene.Valid() && Valid(scene.nodes)
      ensures entities == old(entities) + [e]
      ensures scene.nodes == WithResourceIdx(old(scene.nodes), e, old(|entities|))
      ensures |maps| == old(|maps|)
      ensures forall j :: 0 <= j < |maps| ==> maps[j][old(|entities|)] == newMaps[j]
      ensures forall j, k :: 0 <= j < |maps| && 0 <= k < old(|entities|) ==> maps[j][k] == old(maps[j][k])
      ensures maps == if old(|entities|) % resourceArrayLength == 0 then Grown(old(maps), newMaps, resourceArrayLength)
                      else WithSlot(old(maps), old(|entities|), newMaps)
    {
      AddMaps(scene, e, newMaps);
      entities := entities + [e];
    }

    /**
     * removeEntity: find the entity; move the last entity and its
     * descriptors into its slot, rewrite that slot's page, drop the last
     * slot, and drop the last page when the count reaches a page boundary.
     * An entity that is not listed changes nothing.
     */
    method RemoveEntity(scene: Scene, e: nat)
      requires scene.Valid() && Valid(scene.nodes)
      modifies this`entities, this`maps, this`pages, scene`nodes
      ensures scene.Valid() && Valid(scene.nodes)
      ensures e !in old(entities) ==>
        entities == old(entities) && maps == old(maps) && pages == old(pages) && scene.nodes == old(scene.nodes)
      ensures e in old(entities) ==> entities == SwapPop(old(entities), FirstIndex(old(entities), e))
      ensures e !in entities && forall x :: x in old(entities) && x != e ==> x in entities
      ensures |maps| == old(|maps|)
      ensures e in old(entities) ==>
        scene.nodes == WithResourceIdx(old(scene.nodes), old(entities[|entities| - 1]), FirstIndex(old(entities), e))
      ensures e in old(entities) ==> forall j, k :: 0 <= j < |maps| && 0 <= k < |entities| ==>
        maps[j][k] == old(maps[j][if k == FirstIndex(entities, e) then |entities| - 1 else k])
      ensures e in old(entities) ==>
        maps == RemovedMaps(old(maps), old(|entities|), FirstIndex(old(entities), e), resourceArrayLength)
    {
      IndexedDistinct(scene.nodes, entities);
      var size := |entities|;
      if size == 0 {
        return;
      }
      var i := 0;
      while i < size
        invariant 0 <= i <= size
        invariant forall k :: 0 <= k < i ==> entities[k] != e
        invariant entities == old(entities) && maps == old(maps) && pages == old(pages)
        invariant scene.nodes == old(scene.nodes)
      {
        if entities[i] == e {
          assert FirstIndex(entities, e) == i;
          SwapPopRemoves(entities, i);
          RemoveAt(scene, i);
          return;
        }
        i := i + 1;
      }
    }

    /**
     * The body of removeEntity once the entity is found at `i`, with the
     * page of slot `i` rewritten from that page's first slot.
     */
    method RemoveAt(scene: Scene, i: nat)
      requires scene.Valid() && Valid(scene.nodes) && i < |entities|
      modifies this`entities, this`maps, this`pages, scene`nodes
      ensures scene.Valid() && Valid(scene.nodes)
      ensures entities == SwapPop(old(entities), i)
      ensures |maps| == old(|maps|)
      ensures scene.nodes == WithResourceIdx(old(scene.nodes), old(entities[|entities| - 1]), i)
      ensures forall j, k :: 0 <= j < |maps| && 0 <= k < |entities| ==>
        maps[j][k] == old(maps[j][if k == i then |entities| - 1 else k])
      ensures maps == RemovedMaps(old(maps), old(|entities|), i, resourceArrayLength)
    {
      MoveLastInto(scene, i);
      DropLast(scene.nodes);
    }

    /**
     * removeEntity's move: the last entity takes slot `i`, with its resource
     * index and its descriptors, and the page of slot `i` is rewritten.
     * Afterwards all but the last list entry are indexed.
     */
    method MoveLastInto(scene: Scene, i: nat)
      requires scene.Valid() && Valid(scene.nodes) && i < |entities|
      modifies this`entities, this`maps, scene`nodes, this`pages
      ensures scene.Valid()
      ensures entities == old(entities)[i := old(entities[|entities| - 1])]
      ensures scene.nodes == WithResourceIdx(old(scene.nodes), old(entities[|entities| - 1]), i)
      ensures Indexed(scene.nodes, entities[..|entities| - 1])
      ensures |maps| == old(|maps|) && |maps| >= 1
      ensures |pages| == PageCount(|entities|, resourceArrayLength) && |entities| <= |pages| * resourceArrayLength
      ensures Mirrors(maps, pages, resourceArrayLength)
      ensures forall j, k :: 0 <= j < |maps| && 0 <= k < |entities| ==>
        maps[j][k] == old(maps[j][if k == i then |entities| - 1 else k])
      ensures maps == Moved(old(maps), old(|entities|) - 1, i)
    {
      var size := |entities|;
      var len := resourceArrayLength;
      var last := entities[size - 1];
      assert scene.nodes[last].kind.entity.resourceIdx == size - 1;
      scene.SetResourceIdx(last, i);
      entities := entities[i := last];
      var m2 := MoveSlot(maps, size - 1, i);
      SlotChangeMirrors(maps, m2, pages, i, len);
      maps := m2;
      pages := pages[i / len := Window(maps, PageBase(i, len), len)];
    }

    /**
     * removeEntity's pop: drop the last list entry, and the last slot and
     * page when the new count is a page boundary.
     */
    method DropLast(ghost nodes: seq<Node>)
      requires resourceArrayLength > 0 && |entities| > 0 && |maps| >= 1
      requires Indexed(nodes, entities[..|entities| - 1])
      requires |pages| == PageCount(|entities|, resourceArrayLength) && |entities| <= |pages| * resourceArrayLength
      requires Mirrors(maps, pages, resourceArrayLength)
      modifies this`entities, this`maps, this`pages
      ensures Valid(nodes)
      ensures entities == old(entities[..|entities| - 1])
      ensures |maps| == old(|maps|)
      ensures forall j, k :: 0 <= j < |maps| && 0 <= k < |entities| ==> maps[j][k] == old(maps[j][k])
      ensures maps == if |entities| % resourceArrayLength == 0 then Truncated(old(maps), |entities|) else old(maps)
      ensures pages == if |entities| % resourceArrayLength == 0 then old(pages)[..|old(pages)| - 1] else old(pages)
    {
      var len := resourceArrayLength;
      var size := |entities|;
      entities := entities[..size - 1];
      PageCountRemove(size, len);
      if |entities| % len == 0 {
        TruncatedMirrors(maps, pages, len);
        maps := TruncateColumns(maps, |entities|);
        pages := pages[..|pages| - 1];
      } else {
        PageCountBounds(size - 1, len);
      }
    }

    /**
     * draw: record the commands that draw every drawable entity, in list
     * order, each with its own resource page bound.
     */
    method Draw(scene: Scene, imageIndex: nat, numPass: nat, camera: nat, light: nat, shadow: seq<Handle>)
      returns (cmds: seq<Command>)
      requires scene.Valid() && Valid(scene.nodes)
      requires |shadow| > 0 ==> imageIndex < |shadow|
      requires |entities| > 0 && (numPass == 0 || cls == ObjectClass) ==> |pipelines| > 0
      ensures Drawable(Snapshot(scene.nodes, entities))
      ensures cmds == DrawCommands(Snapshot(scene.nodes, entities), cls, pipelines, imageIndex, numPass, camera, light,
                                   shadow, |pages|, resourceArrayLength)
    {
      var ents := Snapshot(scene.nodes, entities);
      assert Drawable(ents) by {
        forall k | 0 <= k < |ents| && ents[k].1.drawEntity ensures ents[k].1.mesh.Some? {
          assert KindWellFormed(scene.nodes[entities[k]].kind);
        }
      }
      if |entities| == 0 || (numPass > 0 && cls != ObjectClass) {
        return [];
      }
      var loop := RecordEntities(ents, imageIndex, |pages|, resourceArrayLength);
      cmds := [BindPipeline(pipelines[0])] + DynamicStateCommands(numPass)
              + [PerFrameBinding(imageIndex, camera, light, shadow)] + loop;
    }
  }
}
