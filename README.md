# Scene nodes and the forward subrenderer of a Vulkan engine

This project models two parts of a small Vulkan rendering engine.

- **The scene graph** (`VEEntity.cpp`). It covers:
  - scene nodes and their local transforms;
  - the parent/child hierarchy and world transforms;
  - the `update` cascade that writes each object's uniform buffers (UBOs);
  - entities, cameras and lights, with their UBO layouts and field defaults;
  - the projection matrices, the frustum points and the oriented bounding box (`getOBB`);
  - the shadow cameras a camera builds for a light;
  - the light destructor.
- **The forward subrenderer** `VESubrenderFW` (`VESubrenderFW.cpp`). It covers:
  - its entity list;
  - the paged resource table (`m_maps`, one column per map kind, split into pages of 512 slots, each page bound through its own descriptor set);
  - `addMaps`, `removeEntity` and `recreateResources`;
  - the descriptor-set bindings;
  - the command sequence `draw` records.

Modules:

- `Linear` (linear.dfy): vectors, 4x4 matrices (column-major, like glm) and exact matrix products. glm's floating-point routines (`inverse`, `transpose`, `normalize`, `perspectiveFov`, `ortho`, `radians`, `tan`) are fields of a `Glm` record. So they are arbitrary functions, and nothing is assumed about their values.
- `Seqs` (seqs.dfy): swap-and-pop removal and first index. The engine removes list entries this way.
- `SceneTypes` (scene_types.dfy): the enums, the UBO layouts and the field defaults of each node class.
- `Cameras` (cameras.dfy): the projection matrices and the frustum corners.
- `SceneGraph` (scene_graph.dfy): the class `Scene`.
  - Nodes live in an arena (`nodes`) and refer to each other by index. A parent always has a smaller index than its children.
  - `buffers[n]` holds the content of node n's uniform buffer for each swapchain image.
  - Every method that changes a transform runs the update cascade, except `LookAt`: the source's `lookAt` only rewrites the local transform. The cascade's effect is stated through the functions `Cascade` and `ApplyWrites`.
  - `CascadeWorld` and `CascadeRefreshesSubtree` prove that the cascade hands each node of the subtree exactly its world transform.
- `Shadows` (shadows.dfy): `createShadowCamera` and its ortho and projective variants.
- `Paging` (paging.dfy): the page arithmetic of the resource table and what each page's descriptor set holds.
  - The invariant `Mirrors(maps, pages, len)` says that page p's set holds slots `p*len .. p*len+len` of every column.
- `Subrender` (subrender.dfy): the class `SubrenderFW`.
  - Its invariant `Valid` says four things. Each entity's resource index is its position in the list. There are exactly enough pages for the entities. The table mirrors the pages. The entity list has no duplicates (`IndexedDistinct`).
  - `draw` records a list of `Command`s. `DrawBindings` folds that list into the page bound through set 4 at each draw call.

Some members of `VESubrenderFW` do nothing in this class:

- `initSubrenderer` and `prepareDraw` are empty (`SubrenderFW.InitSubrenderer`, `SubrenderFW.PrepareDraw`).
- `setDynamicPipelineState` records nothing (`Subrender.DynamicStateCommands`).
- `getPipelineLayout` is a getter (`SubrenderFW.PipelineLayout`).

The renderer calls that create or destroy Vulkan objects appear as follows:

- Handles passed to `vkDestroy*` are appended to the trace `destroyed`.
- Buffers released by a destructor are appended to `Scene.released`.
- A descriptor-set write is the new content of that page (`Window`).
- Every `updateUBO` call is recorded, with its matrix, in the ghost trace `Scene.uboCalls`.

## Model

| member | source | states |
|---|---|---|
| SceneTypes.LightTypeTag | VulkanEngine/VEEntity.h:408-412 | the light type tags are 0, 1, 2; tag 0 is exactly the directional light and tag 2 exactly the spot light |
| SceneTypes.LightTypeTagInjective | VulkanEngine/VEEntity.h:408-412 | distinct light types get distinct tags in the light UBO |
| SceneTypes.GetNodeType | VulkanEngine/VEEntity.h:118 | each node class reports its own node type and no other: the base node, entities (236), cameras (305), lights (444) |
| SceneTypes.GetCameraType | VulkanEngine/VEEntity.h:357 | a projective camera reports the projective type and an ortho camera (384) the ortho type |
| SceneTypes.ZeroLightBlockShape | VulkanEngine/VEEntity.h:421-429 | a value-initialised light UBO has a four-entry zero type and six zero shadow-camera blocks |
| SceneTypes.DefaultEntity | VulkanEngine/VEEntity.h:217-226 | a new entity has texture parameters (1,1,0,0), no mesh, no material, is not drawn and casts shadows |
| SceneTypes.DefaultCamera | VulkanEngine/VEEntity.h:288-289 | cameras built without plane distances have near 1, far 200 and the default lens of their class: aspect 16/9 and fov 45 (349-350), or a 1/20 by 1/20 box (376-377) |
| SceneTypes.DefaultLight | VulkanEngine/VEEntity.h:435-438 | a new light has ambient 0.5, diffuse 0.8, specular 0.9, unit parameters, and no shadow cameras |
| Linear.Mat4.WithCol | VulkanEngine/VEEntity.cpp:59-62 | replacing one column of a matrix changes that column only |
| Linear.MulIdentityLeft | VulkanEngine/VEEntity.cpp:186-192 | a root's parent matrix, the identity, leaves the local transform unchanged |
| Linear.NegateAtEntries | VulkanEngine/VEEntity.cpp:698-700 | negating entry [i][j] changes that entry only |
| Cameras.ProjectiveMatrixFlips | VulkanEngine/VEEntity.cpp:695-702 | the projective matrix is glm's perspective matrix with exactly [1][1], [2][2] and [2][3] negated |
| Cameras.ResizedLens | VulkanEngine/VEEntity.cpp:696 | the sized projective overload stores width/height as the aspect ratio and changes nothing else |
| Cameras.ProjectionKeepsAspect | VulkanEngine/VEEntity.cpp:708-710 | the parameterless projective overload delegates with (aspect, 1), so the stored aspect ratio is unchanged |
| Cameras.OrthoMatrixFlips | VulkanEngine/VEEntity.cpp:790-795 | the sized ortho matrix is glm's ortho matrix with exactly [1][1] and [2][2] negated |
| Cameras.OrthoDefaultMatrixFlips | VulkanEngine/VEEntity.cpp:801-805 | the parameterless ortho matrix is glm's ortho matrix of the camera box with only [2][2] negated |
| Cameras.OrthoOverloadsDifferInYFlip | VulkanEngine/VEEntity.cpp:790-805 | the two ortho overloads agree at a 1 by 1 window except in the y flip [1][1] |
| Cameras.LocalCorners | VulkanEngine/VEEntity.cpp:722-736 | eight camera-space corners, the four near ones at the near-plane depth and the four far ones at the far-plane depth, all with w = 1; the ortho box has the same shape (824-832) |
| Cameras.WorldCorners | VulkanEngine/VEEntity.cpp:726-736 | each corner is transformed by the camera's world matrix, in the order appended |
| Cameras.Interpolated | VulkanEngine/VEEntity.cpp:738-742 | for i < 4, point i moves by z0 and point i+4 by z1 along the near-to-far edge i; points from 8 on are untouched |
| Cameras.InterpolatedFullRange | VulkanEngine/VEEntity.cpp:738-742 | interpolating with the default (0, 1) leaves the raw near and far corners |
| SceneGraph.WorldComposesParent | VulkanEngine/VEEntity.cpp:115-118 | a node's world transform is its parent's world transform times its local transform |
| SceneGraph.Cascade | VulkanEngine/VEEntity.cpp:204-208 | update(parentWorld) first calls updateUBO on the node itself with parentWorld times its local transform |
| SceneGraph.CascadeRange | VulkanEngine/VEEntity.cpp:204-218 | update(parentWorld) only reaches the node and its descendants, all of larger index |
| SceneGraph.CascadeWorld | VulkanEngine/VEEntity.cpp:186-218 | when child lists agree with parent links, update() hands every node it reaches that node's own world transform |
| SceneGraph.ChildrenCascadeWorld | VulkanEngine/VEEntity.cpp:214-218 | updateChildren(world) hands each node of the children's subtrees its own world transform |
| SceneGraph.CameraUboProjection | VulkanEngine/VEEntity.cpp:478-490 | the camera UBO holds the world matrix, its inverse as the view, (near, far, near fraction, far fraction), and the class's projection with its sign flips |
| SceneGraph.ApplyWorldWrites | VulkanEngine/VEEntity.cpp:333-342 | writing a trace of world transforms leaves every object the trace names holding one copy per swapchain image of its class's UBO block, and every other node's buffers unchanged |
| SceneGraph.CascadeRefreshesSubtree | VulkanEngine/VEEntity.cpp:186-218 | after update() on a node, exactly the scene objects of its subtree hold their current UBO block; every other buffer is unchanged |
| SceneGraph.ApplyWritesSkips | VulkanEngine/VEEntity.cpp:204-218 | a node the cascade does not reach keeps its buffers |
| SceneGraph.LeafEntityRefresh | VulkanEngine/VEEntity.cpp:411-422 | update() on a childless entity writes the entity block for its world transform into each of its buffers |
| SceneGraph.DefaultEntityBlock | VulkanEngine/VEEntity.cpp:411-422 | an entity without a material writes a zero colour, its texture parameters, the world matrix and its inverse transpose |
| SceneGraph.LookAtUp | VulkanEngine/VEEntity.cpp:133-138 | lookAt uses the normalised up vector, unless it is within 0.00001 of parallel to the view direction, in which case it uses the normalised diagonal (s, s, s) |
| SceneGraph.LookAtMatrix | VulkanEngine/VEEntity.cpp:130-146 | the lookAt transform has position eye, z towards the target, x = up x z and y = z x x (each normalised), and w = 0 on the axes |
| SceneGraph.NodeBoundingSphere | VulkanEngine/VEEntity.cpp:225-228 | a plain node's bounding sphere is the unit sphere at its position |
| SceneGraph.EntityBoundingSphere | VulkanEngine/VEEntity.cpp:434-441 | an entity with a mesh reports the mesh's sphere; one without reports the node default |
| SceneGraph.MaxDotIsFirstMaximum | VulkanEngine/VEEntity.cpp:263-276 | the scan keeps the largest projection on each axis, and the first point that attains it (strict `<` comparison) |
| SceneGraph.ObbEnclosesPoints | VulkanEngine/VEEntity.cpp:277-283 | every point lies between the box's minimum and maximum along each of the node's local axes in world space (the first three columns of its world transform), and width, height and depth are non-negative |
| SceneGraph.SameLinksKeepOrder | VulkanEngine/VEEntity.cpp:51-62 | changing transforms or class data keeps the hierarchy ordered and linked |
| SceneGraph.WorldFrame | VulkanEngine/VEEntity.cpp:115-118 | a world transform depends only on the node's ancestors' transforms and links |
| SceneGraph.Attached | VulkanEngine/VEEntity.cpp:29-33 | a new node is appended, and its parent, if any, gets it at the end of its child list; no other node changes |
| SceneGraph.AttachedLinked | VulkanEngine/VEEntity.cpp:29-33 | linking a new node keeps every child list in agreement with the parent links |
| SceneGraph.AttachedFrame | VulkanEngine/VEEntity.cpp:29-33 | adding a node keeps every existing node's class and world transform |
| SceneGraph.RemovedChild | VulkanEngine/VEEntity.cpp:167-176 | removing an absent child changes nothing; removing a present one shortens the list by one |
| SceneGraph.RemovedChildRemoves | VulkanEngine/VEEntity.cpp:167-176 | removeChild removes exactly one occurrence; from a duplicate-free list it removes the child entirely and keeps every other child |
| SceneGraph.RemovedChildKeepsInvariants | VulkanEngine/VEEntity.cpp:167-176 | removing a child keeps the hierarchy ordered and linked |
| SceneGraph.WithMeshAndMaterial | VulkanEngine/VEEntity.cpp:372-377 | mesh and material are stored, and the entity becomes drawn and shadow-casting, only when both are given; otherwise the entity is unchanged |
| SceneGraph.InterpolateCorners | VulkanEngine/VEEntity.cpp:738-742 | the in-place interpolation loop computes `Interpolated` |
| SceneGraph.ScanExtremes | VulkanEngine/VEEntity.cpp:259-276 | the scan returns, for each of the six directions, the maximal projection and the first point attaining it |
| SceneGraph.Scene.constructor | VulkanEngine/VEEntity.cpp:15 | an empty scene: no nodes, no buffers, per-object layout not yet created |
| SceneGraph.Scene.Attach | VulkanEngine/VEEntity.cpp:29-35 | the node constructor links the node under its parent, creates one buffer per swapchain image for a scene object (291-323), creates the shared layout once (294-300), and makes one updateUBO call |
| SceneGraph.Scene.NewSceneNode | VulkanEngine/VEEntity.cpp:29-35 | a plain node is appended with its transform and parent link and owns no buffers; only the parent's child list changes among earlier nodes, and earlier buffers and released buffers are kept |
| SceneGraph.Scene.NewEntity | VulkanEngine/VEEntity.cpp:365-378 | a new entity is drawn exactly when both mesh and material are given; its buffers hold the block written before they are stored, with zero colour; only the parent's child list changes among earlier nodes, and earlier buffers and released buffers are kept |
| SceneGraph.Scene.InitEntity | VulkanEngine/VEEntity.cpp:370-377 | the constructor body writes the zero-colour block for the entity's world transform into that entity's buffers only, then stores mesh and material only if both are given |
| SceneGraph.Scene.RefreshNewEntity | VulkanEngine/VEEntity.cpp:370 | the constructor's setTransform leaves the nodes as they are and writes the entity's block into its buffers, and no other buffer |
| SceneGraph.Scene.StoreMeshAndMaterial | VulkanEngine/VEEntity.cpp:372-377 | storing mesh and material changes only that entity and no world transform |
| SceneGraph.Scene.SetResourceIdx | VulkanEngine/VESubrenderFW.cpp:214 | setting an entity's resource index changes only that field |
| SceneGraph.Scene.NewCamera | VulkanEngine/VEEntity.cpp:468-475 | a camera node is appended with its planes, fractions and lens and unwritten buffers; only the parent's child list changes among earlier nodes, and earlier buffers and released buffers are kept |
| SceneGraph.Scene.NewLight | VulkanEngine/VEEntity.cpp:851-853 | a light of the given type (897-910) with the default colours and no shadow cameras is appended with unwritten buffers; only the parent's child list changes among earlier nodes, and earlier buffers and released buffers are kept |
| SceneGraph.Scene.WriteUboCopies | VulkanEngine/VEEntity.cpp:333-342 | the same block is copied into every swapchain buffer of the object |
| SceneGraph.Scene.UpdateUbo | VulkanEngine/VEEntity.cpp:411-422 | each class writes its own block: entity, camera (478-490) or light (872-883); a plain node writes nothing |
| SceneGraph.Scene.Update | VulkanEngine/VEEntity.cpp:186-192 | update() starts the cascade from the parent's world transform, or the identity at a root |
| SceneGraph.Scene.UpdateFrom | VulkanEngine/VEEntity.cpp:204-208 | update(parentWorld) writes the buffers `Cascade` describes |
| SceneGraph.Scene.UpdateChildren | VulkanEngine/VEEntity.cpp:214-218 | updateChildren updates each child subtree in child-list order |
| SceneGraph.Scene.UpdateChild | VulkanEngine/VEEntity.cpp:215-217 | one iteration of updateChildren performs exactly the next child's part of the cascade |
| SceneGraph.Scene.SetTransform | VulkanEngine/VEEntity.cpp:51-54 | the local transform is replaced and the subtree's buffers are refreshed |
| SceneGraph.Scene.SetPosition | VulkanEngine/VEEntity.cpp:59-62 | the position becomes `pos`, the three axes are unchanged, and the subtree is refreshed |
| SceneGraph.Scene.MultiplyTransform | VulkanEngine/VEEntity.cpp:104-106 | the transform is left-multiplied and the subtree refreshed |
| SceneGraph.Scene.SetTexParam | VulkanEngine/VEEntity.cpp:398-401 | the texture parameters are replaced and update() refreshes the entity's whole subtree as `Cascade` describes; every buffer of the entity carries the new parameters |
| SceneGraph.Scene.LookAt | VulkanEngine/VEEntity.cpp:130-146 | lookAt replaces the local transform and writes no buffer |
| SceneGraph.Scene.AddChild | VulkanEngine/VEEntity.cpp:156-158 | the child is appended to the parent's child list |
| SceneGraph.Scene.RemoveChild | VulkanEngine/VEEntity.cpp:167-176 | the child is removed by swap-and-pop from the parent's list and the hierarchy stays linked |
| SceneGraph.Scene.GetProjectionMatrixSized | VulkanEngine/VEEntity.cpp:695-702 | the projective camera stores the new aspect ratio and returns its flipped matrix; the ortho camera (790-795) changes nothing |
| SceneGraph.Scene.GetFrustumPoints | VulkanEngine/VEEntity.cpp:722-743 | the eight world corners are appended and interpolated; for an empty list the result is the camera's frustum points (818-839) |
| SceneGraph.Scene.GetOBB | VulkanEngine/VEEntity.cpp:246-284 | the box is built from the maxima along the six directions ± the node's local axes in world space (the columns of its world transform), and each extreme point is the first maximum |
| SceneGraph.Scene.DestroyObject | VulkanEngine/VEEntity.cpp:326-330 | destroying a scene object releases its buffers |
| SceneGraph.Scene.DestroyLight | VulkanEngine/VEEntity.cpp:886-891 | the light destructor deletes its shadow cameras in order, clears the list, then releases its own buffers |
| Shadows.OrthoShadowCoversBox | VulkanEngine/VEEntity.cpp:598-602 | the ortho shadow camera keeps the light's axes; along a unit z the box centre is 4.5 depths ahead, so the box lies between near and far planes once the depth is at least 1/40 |
| Shadows.ShadowPlanes | VulkanEngine/VEEntity.cpp:627-637 | near and far are the distances along z from the light to the sphere's ends, replaced by 0.1 or 1.0 when not positive; both are positive |
| Shadows.ProjectiveShadowCameraShape | VulkanEngine/VEEntity.cpp:639-645 | the projective shadow camera always gets aspect 1 and fov 45*2/360, because the angle computed in the branch never leaves it |
| Shadows.CreateShadowCameraOrtho | VulkanEngine/VEEntity.cpp:590-605 | a new root ortho camera sized by the light-space box of the frustum points, placed behind the box; its buffers hold its camera block for that placement, and no other buffer or node changes |
| Shadows.PlaceOrtho | VulkanEngine/VEEntity.cpp:600-602 | the two setters leave the camera with the light's world transform moved to the shadow position, and write its camera block into its buffers only |
| Shadows.CreateShadowCameraProjective | VulkanEngine/VEEntity.cpp:617-649 | a new root projective camera with the computed planes, looking from the light's position along the camera's normalised z axis; lookAt writes no buffer, so its buffers stay unwritten and no other buffer or node changes |
| Shadows.CreateShadowCamera | VulkanEngine/VEEntity.cpp:571-577 | a directional light gets exactly the ortho variant's node and every other light the projective variant's (aspect 1, fov 45*2/360); the camera is ortho exactly for a directional light and its near plane is positive; its buffers hold its camera block (ortho) or stay unwritten (projective), with the matching updateUBO calls of each branch; earlier nodes and buffers are kept |
| Shadows.NewOrthoShadowCamera | VulkanEngine/VEEntity.cpp:599-602 | the ortho shadow camera is created as a root with the identity, then placed by its two setters; its buffers end with its camera block |
| Shadows.NewLookingCamera | VulkanEngine/VEEntity.cpp:645-646 | the projective shadow camera is created as a root, then lookAt sets its transform; its buffers stay unwritten |
| Shadows.NewRootCamera | VulkanEngine/VEEntity.cpp:468-475 | a camera created without a parent is appended with the identity transform and unwritten buffers, and nothing earlier changes |
| Seqs.SwapPop | VulkanEngine/VESubrenderFW.cpp:261-272 | swap-and-pop moves the last element into position i and shortens the list by one |
| Seqs.SwapPopMultiset | VulkanEngine/VESubrenderFW.cpp:261-272 | swap-and-pop removes exactly one occurrence of the element |
| Seqs.SwapPopRemoves | VulkanEngine/VESubrenderFW.cpp:261-272 | from a duplicate-free list it removes the element entirely and keeps every other one |
| Seqs.FirstIndex | VulkanEngine/VESubrenderFW.cpp:259-260 | the first position holding the element |
| Paging.PageCountBounds | VulkanEngine/VESubrenderFW.cpp:217-229 | pages are created one per `len` entries: page count is n/len rounded up |
| Paging.PageCountAppend | VulkanEngine/VESubrenderFW.cpp:217-236 | adding an entity adds a page exactly when the count was a multiple of the page length |
| Paging.PageCountRemove | VulkanEngine/VESubrenderFW.cpp:272-278 | removing an entity drops a page exactly when the new count is a multiple of the page length |
| Paging.SlotInPage | VulkanEngine/VESubrenderFW.cpp:269 | slot i lies in page i/len, which exists |
| Paging.RewriteBaseAsWrittenMisses | VulkanEngine/VESubrenderFW.cpp:266-267 | the rewrite base as written is never the base of the rewritten page: it is one page short, or wraps to 2^32 - len in the first page |
| Paging.RewriteBaseCounterexample | VulkanEngine/VESubrenderFW.cpp:266-267 | with 512-slot pages, slot 0 gives 4294966784 instead of 0 and slot 600 gives 0 instead of 512 |
| Paging.WindowFrame | VulkanEngine/VESubrenderFW.cpp:238-240 | a descriptor set's content depends only on the slots in its window |
| Paging.GrownMirrors | VulkanEngine/VESubrenderFW.cpp:217-229 | a new page filled with the new maps keeps every set mirroring its window |
| Paging.SlotChangeMirrors | VulkanEngine/VESubrenderFW.cpp:263-270 | after one slot changes, rewriting its page from the page base restores the mirror invariant |
| Paging.TruncatedMirrors | VulkanEngine/VESubrenderFW.cpp:273-278 | dropping the last page and its slots keeps the mirror invariant |
| Paging.ColumnPages | VulkanEngine/VESubrenderFW.cpp:29-41 | a table of p full pages has exactly p pages |
| Subrender.DrawBindingsAppend | VulkanEngine/VESubrenderFW.cpp:157-179 | the bindings of recorded commands compose over concatenation |
| Subrender.PerFrameBinding | VulkanEngine/VESubrenderFW.cpp:84-109 | the per-frame binding starts at set 0 with the camera and light sets, plus the shadow set when there are shadow sets (102-104) |
| Subrender.PerFrameKeepsResource | VulkanEngine/VESubrenderFW.cpp:84-109 | the per-frame binding does not touch set 4 |
| Subrender.DrawableSuffix | VulkanEngine/VESubrenderFW.cpp:173-178 | the loop only meets entities with a mesh when they are drawn |
| Subrender.MeshCommandsKeep | VulkanEngine/VESubrenderFW.cpp:192-201 | drawEntity binds buffers and draws once, without changing set 4 |
| Subrender.DrawnWithOwnPage | VulkanEngine/VESubrenderFW.cpp:123-140 | with the corrected binding, each drawn entity is drawn with its own page bound |
| Subrender.EntityLoopBindsOwnPages | VulkanEngine/VESubrenderFW.cpp:173-178 | with the corrected binding, every drawn entity is drawn, in list order, with the page holding its resources |
| Subrender.DrawnAsWritten | VulkanEngine/VESubrenderFW.cpp:132-133 | as written, an entity binds its page only at a page's first slot, otherwise it inherits the page bound before |
| Subrender.DrawBindingCounterexample | VulkanEngine/VESubrenderFW.cpp:132-133 | with a hidden entity at the start of page 1, the next entity is drawn with page 0 instead of page 1 |
| Subrender.AsWrittenBindsOwnPages | VulkanEngine/VESubrenderFW.cpp:132-133 | the binding as written draws every entity with its own page whenever every entity that starts a page is drawn, which bounds the second Findings row to hidden page-start entities |
| Subrender.DynamicStateCommands | VulkanEngine/VESubrenderFW.h:58 | setDynamicPipelineState records nothing in this class |
| Subrender.DrawBindsOwnPages | VulkanEngine/VESubrenderFW.cpp:157-179 | draw records nothing for an empty list or a non-object subrenderer in a later pass, and otherwise draws every drawn entity with its own page |
| Subrender.RecordEntities | VulkanEngine/VESubrenderFW.cpp:173-178 | the entity loop records the commands `EntityLoop` describes |
| Subrender.IndexedDistinct | VulkanEngine/VESubrenderFW.cpp:214 | resource indices equal to positions make the entity list duplicate-free |
| Subrender.Snapshot | VulkanEngine/VESubrenderFW.cpp:173 | the entity list in order, each with its current data |
| Subrender.GrowColumns | VulkanEngine/VESubrenderFW.cpp:225-228 | each column grows by one page filled with that kind's new map |
| Subrender.WriteSlot | VulkanEngine/VESubrenderFW.cpp:233-235 | each column's slot receives that kind's new map |
| Subrender.MoveSlot | VulkanEngine/VESubrenderFW.cpp:263-265 | each column's last slot is copied into slot i |
| Subrender.TruncateColumns | VulkanEngine/VESubrenderFW.cpp:274-276 | each column is cut to the new size |
| Subrender.SubrenderFW.constructor | VulkanEngine/VESubrenderFW.h:28-37 | page length 512, null layouts, and empty sets, table, pipelines and entity list |
| Subrender.SubrenderFW.Configure | VulkanEngine/VESubrenderFW.h:46 | a subclass's initialisation installs the layouts and pipelines and one empty column per map kind, establishing the invariant |
| Subrender.SubrenderFW.NumberEntities | VulkanEngine/VESubrenderFW.h:80 | the entity count as a uint32_t: the list length whenever it fits |
| Subrender.SubrenderFW.DrawSemaphore | VulkanEngine/VESubrenderFW.h:71 | the arbitrary draw overload returns a null semaphore |
| Subrender.SubrenderFW.CloseSubrenderer | VulkanEngine/VESubrenderFW.cpp:48-60 | every pipeline is destroyed, then the pipeline layout and the resource set layout where not null |
| Subrender.SubrenderFW.RecreateResources | VulkanEngine/VESubrenderFW.cpp:25-43 | after closing, the same number of sets is recreated, each rewritten from its own page base, so every set mirrors its window |
| Subrender.SubrenderFW.AddMaps | VulkanEngine/VESubrenderFW.cpp:213-242 | the entity's resource index becomes the list length; on a page boundary every column grows by one page whose slots all hold the new maps, otherwise only that slot of each column is written and everything else is kept; the pages still mirror the table |
| Subrender.SubrenderFW.StartPage | VulkanEngine/VESubrenderFW.cpp:217-229 | at a page boundary a new set is created and every column grows by exactly one page, all of whose slots hold that kind's new map; older slots are kept |
| Subrender.SubrenderFW.WriteInPage | VulkanEngine/VESubrenderFW.cpp:230-240 | inside a page only slot `m_entities.size()` of each column is written, column lengths and every other slot are kept, and the last set is rewritten from the last page base |
| Subrender.SubrenderFW.Register | VulkanEngine/VESubrenderFW.h:76-77 | adding an entity with its maps appends it to the list, changes the table exactly as addMaps does (a pre-filled new page, or one slot), and keeps the subrenderer invariant |
| Subrender.SubrenderFW.RemoveEntity | VulkanEngine/VESubrenderFW.cpp:254-281 | an absent entity changes nothing; otherwise the entity is removed by swap-and-pop at its first position i, the former last entity gets resource index i, slot i of every column receives the last slot's maps, every other slot is kept, and the columns are cut by a whole page exactly when the new count is a page boundary (`RemovedMaps`); every other entity stays and the invariant holds; the page rewrite is the corrected one of the first Findings row |
| Subrender.SubrenderFW.RemoveAt | VulkanEngine/VESubrenderFW.cpp:261-278 | the last entity and its maps move into slot i and it gets resource index i; the list shrinks by one, and the table is cut by one whole page when the new count is a page boundary and otherwise keeps its length and every slot but i (`RemovedMaps`) |
| Subrender.SubrenderFW.MoveLastInto | VulkanEngine/VESubrenderFW.cpp:261-270 | the last slot of every column is copied into slot i and nothing else in the table changes; the move and the rewrite of page i/len from its own base keep every set mirroring its window |
| Subrender.SubrenderFW.DropLast | VulkanEngine/VESubrenderFW.cpp:272-278 | the pop; when the new count is a page boundary every column is cut to it and the last set is dropped, otherwise the table and sets are unchanged; the invariant is restored |
| Subrender.SubrenderFW.Draw | VulkanEngine/VESubrenderFW.cpp:157-179 | draw records the pipeline, the per-frame sets and, for each drawn entity, its sets and draw call, as `DrawCommands` describes; the per-entity page binding is the corrected one of the second Findings row (`PerEntityBinding`), the as-written loop being `EntityLoopAsWritten` |

## Left out

- Floating point: vectors and matrices are over exact reals. glm's routines are arbitrary functions, so no property depends on them (such as normalised vectors having length 1 or `inverse` being an inverse).
- `VECamera::getBoundingSphere` (VEEntity.cpp:539-558) averages the frustum points in floating point. The projective shadow camera takes its centre and radius as parameters instead.
- The memory handles and dynamic offsets (`m_memoryHandle`) used in the descriptor-set bindings are not modelled. A bound set is named by its owner and swapchain image.
- The size passed for each UBO descriptor (`sizeof(sizeUBO)`, VEEntity.cpp:317) is not modelled.
- The Vulkan device, the allocator and the command buffer are left out. Creation and destruction of Vulkan objects appears only as the traces `destroyed` and `released`. Descriptor-set allocation appears as a fresh page whose content is what was last written to it.
- Node names (`VENamedClass`) are left out.
- The static per-object layout is a boolean, `perObjectLayoutCreated`.
- Nodes are never removed from the arena. The destructors release buffers but keep the node.
- SceneGraph.Scene.AddChild: requires the child to be newer than the parent. The arena keeps parents before children, which is what guarantees that world transforms and the cascade terminate.
- SceneGraph.LookAtMatrix: no orthonormality of the result is stated, because it rests on `normalize`.
- Subrender.SubrenderFW.RemoveEntity: removes the first match and stops. The source keeps looping up to the old size after the pop, which reads past the end of the shortened list. An entity is never listed twice (`IndexedDistinct`), so no second match exists.
- Subrender.SubrenderFW.Valid: requires at least one map kind. `addMaps` reads `m_maps[0]`, so a subrenderer with no map kinds cannot add entities.
- The subclasses' `initSubrenderer` is not part of this model: the pipelines, layouts and map kinds they create are passed to `Configure`.
- Subrender.SubrenderFW.Register: requires the entity not to be listed yet, and so does `AddMaps`. The source does not check this; a second registration would list the entity twice with its resource index at the later position.
- `VESubrender::addEntity` is not part of this model. `Register` assumes it appends the entity to `m_entities`, after `addMaps` is called.
- Subrender.SubrenderFW.NumberEntities: other uint32_t counts (entity count, slot offsets) are unbounded naturals. Wrap-around is modelled only where it decides the result: the rewrite base and `getNumberEntities`.
- The plane fractions of `VECamera` are parameters of the camera constructors. The header's two constructors without them (VEEntity.h:291-298) are not modelled separately.
- Cameras.FrustumPoints: positions are absolute indices into the list, so points already in the list before the call shift which entries are interpolated. `GetFrustumPoints` states this case, and the shadow cameras always pass an empty list.
- Shadows.CreateShadowCameraProjective: follows the code. It uses the shadow-taking camera's own local z axis and the light's local position, not their world values.
- Cameras.ResizedLens: requires a non-zero height, because the division by zero is a floating-point infinity.

## Findings

| source | as written | input that shows it | evidently intended | confidence | as-written member | corrected member |
|---|---|---|---|---|---|---|
| VulkanEngine/VESubrenderFW.cpp:266-267 | removeEntity rewrites page i/len from base `((uint32_t)(i/len) - 1) * len` | with 512-slot pages, removing the entity in slot 0 rewrites from 4294966784 (an offset past the end of every column); slot 600 rewrites page 1 from slot 0 | rewrite page i/len from its own first slot `(i/len)*len`, keeping every set equal to its window | high, not executed | Paging.RewriteBaseAsWrittenMisses | Subrender.SubrenderFW.MoveLastInto |
| VulkanEngine/VESubrenderFW.cpp:132-133 | an entity binds its resource page only when its resource index is a multiple of the page length; later entities inherit the page bound before | page length 2, entities at slots 0..3 with slot 2 not drawn: the entity at slot 3 is drawn with page 0 bound instead of page 1 | every drawn entity is drawn with the page holding its resources bound through set 4 | medium, not executed | Subrender.DrawBindingCounterexample | Subrender.DrawBindsOwnPages |
