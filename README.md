# Spellbook renderer core, modelled in Dafny

Spellbook is a C++ game and editor built on a Vulkan render graph. This project models the
bookkeeping around the GPU work, with the GPU work itself abstracted away:

- how a `RenderScene` batches its renderables into `material -> mesh -> list` groups;
- how it packs their transforms and selection ids into flat buffers;
- how every draw pass walks the same groups with a running `item_index` as the first-instance offset;
- the frame scheduler in `Renderer` (Setup, Inactive, BuildingRG, Presenting) with its futures,
  scenes, suspend flag and end-of-frame sweep;
- the per-item draw helpers and the GPU asset cache they consult;
- the mesh generators (icosphere, cube, dot, line, square) as index and vertex combinatorics;
- the node hierarchy of a `ModelCPU`: copying with id remapping, instancing, root detection and
  synthesis, used-node marking and pruning;
- glTF buffer unpacking, index decoding, the winding flip and mesh naming;
- the binary asset file layout and the `QuickBuffer` cursor buffers;
- the game's file-type tables, the dependency scanner, the memoising `FileCache` and the typed
  asset caches;
- the frame-time ring buffer and the camera's dirty-flag cache.

Matrices, floats and GPU handles are uninterpreted values. Render passes are plain data (a
name and a resource list), and draws are `(index count, instance count, first instance)`
records. Disk and JSON parsing are maps and functions passed in as parameters.

One module per source file: `Common` (shared values and sequence helpers), `GpuAssets`,
`Renderables`, `Batching` and `Mips` (both from `render_scene.cpp`), `Scene`, `RenderGraph`
(pass and resource values), `Frame`, `Cameras`, `Timing`, `DrawFunctions`, `ModelNodes` and
`ModelHierarchy` (both from `model.cpp`), `Gltf`, `AssetLoader`, `QuickBuffers`, `GameFiles`,
`FileCaching` and `AssetCaching`.

Two behaviours of the code that a reader might not expect, which the model keeps:

- The root search at model.cpp:299-305 sets `multiple_valid` to `root_node != null` on each
  parentless node (line 304). `FindRoot` models it over any store and any starting root, so
  there it also ends true with a single parentless node when a root was already set. That
  case cannot happen inside `convert_to_model`: its `model_cpu` is new (model.cpp:278) and
  its `root_node` starts null (model.hpp:49), so `multiple_valid` ends true exactly when
  there are two or more parentless nodes.
- The render pass loops and packing iterate `renderables_built`, an unordered map. The model
  fixes one iteration order (first insertion). Every offset property is proved for any group
  sequence, so the choice does not matter.

## Model

| member | source | states |
|---|---|---|
| Common.NatToStringInjective | src/renderer/draw_functions.cpp:97 | different subdivision counts give different icosphere paths: decimal formatting is injective |
| Common.HexStringInjective | src/renderer/draw_functions.cpp:144 | `{:#x}` formatting is injective, so different hashes give different dot and line paths |
| Common.IotaOf | src/renderer/draw_functions.cpp:156-165 | a sequence whose k-th element is k is exactly the index list 0..n-1 |
| Common.FilterAppend | src/renderer/render_scene.cpp:174-187 | erasing by predicate distributes over appending one element |
| Common.FilterIdempotent | src/renderer/render_scene.cpp:174-187 | sweeping frame-allocated renderables twice equals sweeping once |
| Common.FilterKeepsAll | src/renderer/render_scene.cpp:148 | the filter keeps the whole list iff every element passes it |
| Common.RemoveFirst | src/renderer/renderer.cpp:137-140 | removing a present value drops exactly one copy of it (multiset difference); an absent value leaves the list unchanged |
| Common.LittleEndianOf | src/renderer/assets/asset_loader.cpp:26-31 | reading a native-order word back and writing it again gives the same bytes |
| GpuAssets.Persistent | src/renderer/gpu_asset_cache.hpp:25 | the cache keeps exactly the entries that are not frame-allocated, with their values |
| GpuAssets.Fill | src/renderer/gpu_asset_cache.hpp:21-22 | get-or-upload adds the id only when the source has it, and never changes an existing entry |
| GpuAssets.FillAll | src/renderer/gpu_asset_cache.hpp:21-22 | uploading a set of ids adds exactly the ids the source has; existing entries are kept |
| GpuAssets.FillStep | src/renderer/gpu_asset_cache.hpp:21-22 | uploading one more id extends the set uploaded so far |
| GpuAssets.FillAllUnion | src/renderer/gpu_asset_cache.hpp:21-22 | uploading two id sets one after the other equals uploading their union |
| GpuAssets.GpuAssetCache.GetMeshOrUpload | src/renderer/gpu_asset_cache.hpp:21 | the mesh map becomes Fill of the id; the entry is returned iff now present; other maps unchanged |
| GpuAssets.GpuAssetCache.GetMaterialOrUpload | src/renderer/gpu_asset_cache.hpp:22 | the same for materials |
| GpuAssets.GpuAssetCache.ClearFrameAllocatedAssets | src/renderer/gpu_asset_cache.hpp:25 | each asset map keeps exactly its persistent entries; paths unchanged |
| GpuAssets.GpuAssetCache.Clear | src/renderer/gpu_asset_cache.hpp:26 | every map is empty afterwards |
| GpuAssets.GpuAssetCache.UploadMaterial | src/renderer/assets/material.hpp:80 | the material is stored under its id, and the other maps are unchanged |
| GpuAssets.GpuAssetCache.UploadMesh | src/renderer/render_scene.cpp:635 | the mesh is stored under its id, and the other maps are unchanged |
| Renderables.NewRenderable | src/renderer/render_scene.cpp:661-670 | a renderable with the given mesh, material and frame flag, an identity transform and selection id 0 |
| Renderables.UploadDependencies | src/renderer/renderable.cpp:24-30 | nothing is requested when the mesh or material id is 0; otherwise both are requested |
| Renderables.RequestsAppend | src/renderer/renderable.cpp:24-30 | the ids requested by a list grow by the new renderable's ids exactly when it requests uploads |
| Renderables.RenderItem | src/renderer/renderable.cpp:32-54 | a draw is issued iff both assets are cached; its first instance is the counter's old value (0 for a null counter); a non-null counter advances by one even when nothing is drawn |
| Renderables.RenderWidget | src/renderer/renderable.cpp:56-74 | a draw iff both assets are cached; the counter advances only when a draw is issued |
| Renderables.RenderShadow | src/renderer/renderable.cpp:76-88 | a draw iff the mesh alone is cached; the counter is required non-null and always advances by one |
| Batching.BuildLookup | src/renderer/render_scene.cpp:139-149 | the list under (material, mesh) is exactly the renderables with those ids that resolve in the cache, in scene order |
| Batching.BuildWellFormed | src/renderer/render_scene.cpp:139-149 | the grouped map has distinct keys, no empty lists, and only keys that resolve in the cache |
| Batching.BuildSize | src/renderer/render_scene.cpp:137-149 | `count` equals the number of renderables whose mesh and material both resolve |
| Batching.BuiltGroupContents | src/renderer/render_scene.cpp:137-149 | every group resolves and holds exactly the renderables selected by its two ids |
| Batching.OffsetStep | src/renderer/render_scene.cpp:156-165 | the running offset advances by each group's size, and group k occupies exactly its slice of the packed rows |
| Batching.OffsetEnd | src/renderer/render_scene.cpp:156-168 | after the last group the offset equals the number of packed rows, where widgets start |
| Batching.GroupsAreLookups | src/renderer/render_scene.cpp:156-165 | each group visited in iteration order is the map's list for its keys |
| Batching.InsertLookup | src/renderer/render_scene.cpp:145-147 | inserting a renderable appends it to its own list and leaves every other list unchanged |
| Batching.InsertWellFormed | src/renderer/render_scene.cpp:145-147 | inserting keeps the keys distinct and the lists non-empty |
| Batching.InstancedDraws | src/renderer/render_scene.cpp:285-294 | one draw per group |
| Batching.VoxelizationDraws | src/renderer/render_scene.cpp:330-351 | three draws per group |
| Batching.MeshListVoxelizationDraws | src/renderer/render_scene.cpp:330-351 | one mesh list's three draws extend the pass's draws by exactly the next group's entries and advance the item index to the next group's offset |
| Batching.DrawReadsGroup | src/renderer/render_scene.cpp:285-294 | the instance range of group k's draw is exactly the rows and selection ids packed at lines 156-165 for that group's renderables |
| Batching.BuildDrawable | src/renderer/render_scene.cpp:137-149 | every built group's mesh is in the cache, so each group can be drawn |
| Batching.InstancedPassDraws | src/renderer/render_scene.cpp:285-294 | the sun-depth loop and the forward loop at lines 415-431, with `item_index` from 0, produce the instanced draws whose offsets match packing |
| Batching.MaterialInstancedDraws | src/renderer/render_scene.cpp:285-294 | one material's inner loop extends the draws and the offset to the next material's groups |
| Batching.VoxelizationPassDraws | src/renderer/render_scene.cpp:330-351 | the voxelization loop draws each group three times and advances `item_index` once |
| Batching.MaterialVoxelizationDraws | src/renderer/render_scene.cpp:330-351 | one material's inner loop of the voxelization pass |
| Batching.AxisDraws | src/renderer/render_scene.cpp:343-350 | the three axis draws of one group share its offset |
| Batching.PackGroup | src/renderer/render_scene.cpp:159-163 | writes one group's transforms and ids into its slots and leaves the widget tail untouched |
| Batching.PackMaterial | src/renderer/render_scene.cpp:158-164 | writes one material's groups and advances the row to the next group's offset |
| Batching.PackInstances | src/renderer/render_scene.cpp:156-165 | slots 0..count-1 hold the flattened groups' transforms and ids in order |
| Batching.Pack | src/renderer/render_scene.cpp:151-169 | the model buffer holds count + widgets rows, the id buffer count ids; the rows are the packed groups then the widget transforms |
| Scene.EraseFrameAllocated | src/renderer/render_scene.cpp:174-187 | keeps exactly the renderables that are not frame-allocated, in order |
| Scene.EraseStep | src/renderer/render_scene.cpp:174-187 | one step of the erase loop either drops a frame-allocated renderable or keeps it, and the kept prefix stays the filter of the scanned prefix |
| Scene.WidgetDrawsStep | src/renderer/render_scene.cpp:466-469 | a widget adds a draw at the current offset iff both its assets are cached |
| Scene.WidgetPassDraws | src/renderer/render_scene.cpp:440-476 | the widget pass draws exactly the widget draws when widgets are enabled, and none otherwise |
| Scene.WidgetStartMatchesPacking | src/renderer/render_scene.cpp:148-168 | the widget pass offset `renderables.size()` at line 466 equals the packed widget start iff every scene renderable resolved |
| Scene.WidgetDrawReadsOwnRow | src/renderer/render_scene.cpp:466-468 | when everything resolves, each widget draw reads that widget's own transform row, packed at lines 167-168 |
| Scene.WidgetDrawAtCountReadsOwnRow | src/renderer/render_scene.cpp:148-168 | started at the packed widget start `count`, each resolving widget's draw reads its own row, whatever the scene renderables are |
| Scene.WidgetStartAsWrittenOverruns | src/renderer/render_scene.cpp:466-468 | started at `renderables.size()` with one scene renderable unresolved, the last widget draw reads past the end of the model buffer |
| Scene.ReadPassIffRequested | src/renderer/render_scene.cpp:234-240 | a pass named "read" (lines 526-546) is declared iff the query point is inside the viewport |
| Scene.UploadAll | src/renderer/render_scene.cpp:212-217 | the caches end as FillAll of every id the renderables request |
| Scene.UploadStep | src/renderer/render_scene.cpp:212-217 | one more renderable's upload extends the uploaded set by its own request |
| Scene.RenderScene.constructor | src/renderer/render_scene.hpp:63 | a new scene has no renderables, widgets enabled, no pause and the query at (-1,-1) |
| Scene.RenderScene.UpdateSize | src/renderer/render_scene.cpp:56-59 | viewport and target take the new size; nothing else changes |
| Scene.RenderScene.PreRender | src/renderer/render_scene.cpp:189-195 | an error is logged iff a viewport side is below 2, and then the viewport becomes 2x2; the viewport is at least 2x2 afterwards |
| Scene.RenderScene.AddRenderable | src/renderer/render_scene.cpp:61-63 | appends the renderable and returns its index; the widget list and every other field of the scene stay as they were |
| Scene.RenderScene.DeleteRenderable | src/renderer/render_scene.cpp:65-67 | removes exactly the renderable at the index, keeping the order of the rest; the widget list and every other field stay as they were |
| Scene.RenderScene.ClearFrameAllocatedRenderables | src/renderer/render_scene.cpp:174-187 | both lists keep exactly their non-frame-allocated entries; every other field of the scene stays as it was |
| Scene.RenderScene.SetupRenderablesForPasses | src/renderer/render_scene.cpp:133-171 | the built map is the grouping of resolving renderables; buffer sizes and contents are those of Pack |
| Scene.RenderScene.GroupResolving | src/renderer/render_scene.cpp:135-149 | the grouping loop builds the map of renderables whose mesh and material are both cached, and counts exactly the grouped entries |
| Scene.RenderScene.Render | src/renderer/render_scene.cpp:201-243 | paused: only the target is returned and nothing changes; otherwise the uploads, the batch, the packed buffers, the mip chain, the pass list and each pass's draws are those above, and the query result is requested iff the query is in the viewport |
| Scene.RenderScene.PrepareFrame | src/renderer/render_scene.cpp:201-243 | the cache gains the requested assets, the built map groups the resolving renderables, the buffers hold their rows and ids, every group's mesh is cached, and the renderable lists, names and flags are unchanged |
| Scene.RenderScene.AssembleGraph | src/renderer/render_scene.cpp:201-243 | the graph writes `target_output`, holds the voxelization mip chain and the pass list, and each pass draws the instanced, voxelization or widget draws of the built groups |
| Scene.RenderScene.ExecuteReadPass | src/renderer/render_scene.cpp:541 | the query is reset to (-1,-1), which is outside every viewport |
| Scene.RenderScene.QuickMesh | src/renderer/render_scene.cpp:630-640 | a widget runs `widget_setup` first; the mesh is uploaded under its id with the renderable's allocation; the renderable takes the "widget" or "default" material and goes to the widget or scene list; a widget renderable resolves in the cache afterwards; the scene's other fields stay |
| Scene.RenderScene.QuickMaterial | src/renderer/render_scene.cpp:650-659 | runs `material_setup`, uploads the material, and appends a renderable on the hash of the 3-round icosphere path, which then resolves in the cache |
| Scene.RenderScene.QuickRenderable | src/renderer/render_scene.cpp:661-692 | every overload runs `material_setup`, uploads the mesh or the material it was given, and appends a renderable with the ids; an uploaded asset is resident afterwards |
| Scene.MaterialSetup | src/renderer/render_scene.cpp:642-648 | the first call uploads the 3-round icosphere (60·4³ indices) under the hash of its path, and later calls upload nothing; the icosphere id is resident afterwards |
| Scene.WidgetSetup | src/renderer/render_scene.cpp:615-628 | the first call uploads the "widget" material, and later calls upload nothing; the "widget" id is resident afterwards |
| Scene.UploadIcosphere | src/renderer/render_scene.cpp:647 | the generated icosphere is stored persistent under the hash of `icosphere_subdivisions:<s>`, with 60·4^s indices |
| Mips.GenerateMips | src/renderer/render_scene.cpp:560-610 | the returned passes and names form a mip chain of the requested depth |
| Mips.DivergeLevels | src/renderer/render_scene.cpp:562-570 | level k diverges into `<image>_mip<k>`, and the converge list names level 0 as is and every later level with its `+` suffix |
| Mips.BlitLevels | src/renderer/render_scene.cpp:572-607 | one blit pass per level after the first, pass k reading level k-1 and writing level k |
| Mips.MipChainLinks | src/renderer/render_scene.cpp:563-581 | each blit reads what the previous level wrote, and the converge list is the base level followed by every level's output |
| Mips.MipNamesDistinct | src/renderer/render_scene.cpp:565-576 | different levels get different resource names |
| Mips.HalveTwice | src/renderer/render_scene.cpp:592-604 | halving after a shift by `level` equals a shift by `level + 1` |
| Mips.BlitRegion | src/renderer/render_scene.cpp:592-604 | a blit goes from level k-1 to level k; the source extent is at least 1 per axis and the destination is the halved source extent |
| Frame.AddThenRemove | src/renderer/renderer.cpp:130-140 | adding a new scene and removing it again restores the scene list |
| Frame.SceneNames | src/renderer/renderer.cpp:243-245 | one name per scene, in order |
| Frame.PauseFlags | src/renderer/render_scene.cpp:204 | one pause flag per scene: cull or user pause |
| Frame.FinalInputs | src/renderer/renderer.cpp:243-245 | one `<name>_final` input per scene |
| Frame.ForceTransitionDistinct | src/renderer/renderer.cpp:232-253 | with distinct scene names, the force-transition pass lists no resource twice |
| Frame.StagesAppend | src/renderer/renderer.cpp:222-275 | the stages entered by two event traces in a row are the two lists concatenated |
| Frame.FrameStages | src/renderer/renderer.cpp:229-274 | a rendered frame enters BuildingRG, then Presenting, then Inactive, and no other stage |
| Frame.FrameWaits | src/renderer/render_scene.cpp:203-222 | a frame drains the futures once before its scene loop (renderer.cpp:227) and once more inside each scene that is not paused |
| Frame.SweepOne | src/renderer/renderer.cpp:269 | after the sweep a scene holds no frame-allocated renderable, and the sweep is idempotent |
| Frame.SweepAssets | src/renderer/renderer.cpp:270 | afterwards the asset cache holds no frame-allocated asset |
| Frame.RenderOne | src/renderer/renderer.cpp:233-246 | one scene's events are its pre-render, the empty-name report, its own futures wait iff it is not paused, and its graph, which is paused iff the scene is; its lists and flags are unchanged |
| Frame.BuildSceneGraphs | src/renderer/renderer.cpp:233-246 | one graph and one final input per scene, in scene order |
| Frame.SweepScenes | src/renderer/renderer.cpp:269 | every scene's lists keep exactly their persistent entries |
| Frame.DrawFrame | src/renderer/renderer.cpp:226-272 | graphs per scene, then the scene sweep, then the asset sweep |
| Frame.Renderer.constructor | src/renderer/renderer.hpp:44 | a new renderer is in Setup with no scenes, no futures and no suspend |
| Frame.Renderer.EnqueueSetup | src/renderer/renderer.cpp:125-128 | appends exactly one future |
| Frame.Renderer.WaitForFutures | src/renderer/renderer.cpp:298-302 | returns every pending future and leaves the list empty |
| Frame.Renderer.AddScene | src/renderer/renderer.cpp:130-135 | appends the scene, which is set up at once iff the renderer is past Setup |
| Frame.Renderer.RemoveScene | src/renderer/renderer.cpp:137-140 | removes the first occurrence of the scene |
| Frame.Renderer.Setup | src/renderer/renderer.cpp:142-201 | the cache's defaults are uploaded, then every scene is set up, the futures are drained and the stage becomes Inactive |
| Frame.Renderer.Resize | src/renderer/renderer.cpp:305-318 | the swapchain is rebuilt iff the size is non-zero; suspend is set iff it is zero |
| Frame.Renderer.Update | src/renderer/renderer.cpp:203-219 | while suspended, zero-size resizes are consumed up to the first non-zero one; the frame timer ticks once |
| Frame.Renderer.Render | src/renderer/renderer.cpp:222-275 | nothing happens unless the stage is Inactive; otherwise the futures are drained (again inside each unpaused scene), the stages run BuildingRG, Presenting, Inactive, the force-transition pass lists every scene's final image, and the scene and asset sweeps follow |
| Frame.Renderer.RunFrame | src/renderer/renderer.cpp:222-275 | a frame from Inactive ends Inactive with the trace, graphs and sweeps above |
| Frame.Renderer.BuildAndPresent | src/renderer/renderer.cpp:229-274 | the event trace and force-transition pass are those of the scene names, a scene's graph is paused iff the scene is, and afterwards every scene and the asset cache hold no frame-allocated entries |
| Frame.Renderer.Shutdown | src/renderer/renderer.cpp:277-283 | reports an error iff scenes remain, and empties the asset cache |
| Cameras.Camera.constructor | src/renderer/camera.cpp:28-31 | a new camera has the default fov, clip and aspect and both flags set |
| Cameras.Camera.SetAspectXY | src/renderer/camera.cpp:12-17 | an unchanged aspect changes nothing; a new aspect is stored and marks the projection dirty |
| Cameras.Camera.UpdateProj | src/renderer/camera.cpp:33-37 | the projection is rebuilt and its flag cleared; the view and its flag are untouched |
| Cameras.Camera.UpdateView | src/renderer/camera.cpp:39-44 | the view is rebuilt and its flag cleared; the projection and its flag are untouched |
| Cameras.Camera.PreRender | src/renderer/camera.cpp:18-26 | both flags end clear; each matrix is rebuilt iff its flag was set; view-projection is rebuilt iff either was; with no flag set nothing changes |
| Timing.FrameTimer.constructor | src/game/frame_timer.hpp:8-9 | empty 200-slot rings |
| Timing.FrameTimer.Update | src/renderer/frame_timer.cpp:11-20 | the pointer advances modulo 200; the new time lands in its slot; a delta is written only once two times are known; no other slot changes |
| DrawFunctions.IcosahedronWellFormed | src/renderer/draw_functions.cpp:22-32 | the base mesh has 12 vertices and 60 indices, all in range, with no degenerate triangle |
| DrawFunctions.SubdivideCounts | src/renderer/draw_functions.cpp:100-129 | a round quadruples the indices, adds one vertex per index and keeps the old vertices |
| DrawFunctions.SubdivideWellFormed | src/renderer/draw_functions.cpp:106-127 | after a round every index is below the vertex count and no triangle is degenerate |
| DrawFunctions.QuarteredWellFormed | src/renderer/draw_functions.cpp:113-127 | the child triangles use only old vertices and the new midpoints |
| DrawFunctions.MidpointsParents | src/renderer/draw_functions.cpp:106-111 | every new vertex is the midpoint of two distinct existing vertices |
| DrawFunctions.SubdivisionsCounts | src/renderer/draw_functions.cpp:100-129 | after r rounds there are 4^r times the indices and a third of them more vertices |
| DrawFunctions.IcosphereShape | src/renderer/draw_functions.cpp:95-141 | after r rounds: 60·4^r indices and 12 + 20·(4^r − 1) vertices, the first 12 being the icosahedron |
| DrawFunctions.GenerateIcosphere | src/renderer/draw_functions.cpp:95-141 | the mesh is the icosahedron after the requested rounds, each pushing the children in the source's order, with path `icosphere_subdivisions:<s>` |
| DrawFunctions.SubdivideRounds | src/renderer/draw_functions.cpp:100-129 | the outer loop applies one round, in the source's child order, per subdivision, and none for a negative count |
| DrawFunctions.SubdivideRound | src/renderer/draw_functions.cpp:102-128 | one pass over the triangles appends three midpoints per triangle and replaces it by its four children, the corner child at c as (n3, c, n2) |
| DrawFunctions.ChildrenCoherent | src/renderer/draw_functions.cpp:113-127 | the corrected children wind consistently and follow every edge of the parent in its own direction |
| DrawFunctions.ChildrenAsWrittenIncoherent | src/renderer/draw_functions.cpp:121-123 | the children as written contain a triangle wound against its neighbours |
| DrawFunctions.SubdivideIncoherent | src/renderer/draw_functions.cpp:113-127 | a round over any surface with at least one face pushes, as its first four triangles, a block that is not consistently wound |
| DrawFunctions.GenerateCube | src/renderer/draw_functions.cpp:41-93 | 36 vertices and indices 0..35 |
| DrawFunctions.CubeOnFaces | src/renderer/draw_functions.cpp:44-89 | every vertex lies on the face its normal names, and each face's six vertices share a normal |
| DrawFunctions.GenerateFormattedDot | src/renderer/draw_functions.cpp:143-167 | 48 vertices with indices 0..47 and path `dot_hash:` plus the hex hash |
| DrawFunctions.DotFanCloses | src/renderer/draw_functions.cpp:144-165 | consecutive fan triangles share an edge vertex, the fan closes after 16 steps, and different hashes give different paths |
| DrawFunctions.GenerateFormattedLine | src/renderer/draw_functions.cpp:168-278 | fewer than two vertices give an empty mesh; otherwise one quad per adjacent pair of edge segments, with indices 0..6q-1 |
| DrawFunctions.LineSegments | src/renderer/draw_functions.cpp:180-248 | the segment loop yields exactly the segments of each vertex in order |
| DrawFunctions.LineQuads | src/renderer/draw_functions.cpp:254-276 | the quad loop yields six vertices per adjacent edge pair, indexed in order |
| DrawFunctions.QuadStep | src/renderer/draw_functions.cpp:257-275 | a step adds a quad iff both neighbouring segments are edges |
| DrawFunctions.VertexSegmentsCount | src/renderer/draw_functions.cpp:184-248 | a transparent vertex is a separator; an end vertex gives one segment; an interior vertex gives 0, 1 or 3 depending on its neighbours |
| DrawFunctions.SegmentsBound | src/renderer/draw_functions.cpp:179 | the segment count fits the reserved `n + (n − 2)·2` |
| DrawFunctions.SegmentsNonEmpty | src/renderer/draw_functions.cpp:180-248 | two or more vertices give at least one segment |
| DrawFunctions.SegmentsAcross | src/renderer/draw_functions.cpp:202-247 | an across-segment joins a vertex to its next neighbour |
| DrawFunctions.SegmentsJoined | src/renderer/draw_functions.cpp:180-248 | adjacent edge segments belong to the same or neighbouring vertices |
| DrawFunctions.SegmentsJoinedStep | src/renderer/draw_functions.cpp:180-248 | the segments of the first i+1 vertices stay joined and end before vertex i+1 |
| DrawFunctions.LineQuadsJoin | src/renderer/draw_functions.cpp:254-276 | every quad joins two visible vertices that are the same or adjacent |
| DrawFunctions.QuadStartsComplete | src/renderer/draw_functions.cpp:257-275 | every adjacent pair of edge segments starts a quad |
| DrawFunctions.QuadStartsIncreasing | src/renderer/draw_functions.cpp:257-275 | quads are emitted in segment order |
| DrawFunctions.LineVerticesAt | src/renderer/draw_functions.cpp:262-274 | quad t occupies vertices 6t..6t+5 |
| DrawFunctions.TransparentBreaks | src/renderer/draw_functions.cpp:257-261 | no quad touches or spans a transparent vertex, which breaks the strip as at lines 184-187 |
| DrawFunctions.SquareOutline | src/renderer/draw_functions.cpp:280-288 | seven vertices |
| DrawFunctions.AddFormattedSquare | src/renderer/draw_functions.cpp:280-288 | appends exactly the seven outline vertices |
| DrawFunctions.SquareSeparates | src/renderer/draw_functions.cpp:280-288 | the first and sixth vertices coincide, and the clear seventh vertex stops any quad from joining the square to what follows |
| QuickBuffers.CommandByte | src/game/server_client_shared.hpp:7-13 | every command is a byte below 5 |
| QuickBuffers.CommandFromByte | src/game/server_client_shared.hpp:7-13 | a byte names a command iff it is below 5 |
| QuickBuffers.CommandRoundTrip | src/game/server_client_shared.hpp:7-13 | command to byte and back is the identity |
| QuickBuffers.RoundTrip | src/game/server_client_shared.hpp:27-54 | values written in sequence are read back in the same sequence with the same sizes |
| QuickBuffers.RoundTripAt | src/game/server_client_shared.hpp:27-31 | values written after any prefix are read back, with their sizes, starting at that prefix's end, whatever follows |
| QuickBuffers.QuickBuffer.AsWritten | src/game/server_client_shared.hpp:20-24 | the constructor as written sizes the buffer but leaves `max_size` unset |
| QuickBuffers.QuickBuffer.constructor | src/game/server_client_shared.hpp:20-24 | a zeroed buffer of the requested size, cursor 0 |
| QuickBuffers.QuickBuffer.Write | src/game/server_client_shared.hpp:27-31 | the bytes at the cursor are replaced by the value, the cursor advances by its size, and no other byte changes |
| QuickBuffers.QuickBuffer.Reset | src/game/server_client_shared.hpp:33-35 | the cursor returns to 0; the contents stay |
| QuickBuffers.QuickReadBuffer.AsWritten | src/game/server_client_shared.hpp:43-47 | the constructor as written copies the data but leaves `size` unset |
| QuickBuffers.QuickReadBuffer.constructor | src/game/server_client_shared.hpp:43-47 | copies the data with cursor 0 |
| QuickBuffers.QuickReadBuffer.Read | src/game/server_client_shared.hpp:49-54 | returns the bytes at the cursor and advances past them |
| QuickBuffers.SizeMembersLost | src/game/server_client_shared.hpp:20-47 | the default-sized buffer and a read buffer do not store their sizes |
| QuickBuffers.SizeMembersKept | src/game/server_client_shared.hpp:20-47 | with the members assigned, both sizes are stored |
| AssetLoader.Encode | src/renderer/assets/asset_loader.cpp:21-31 | the file is 16 header bytes, the JSON text (length cast to 32 bits) and the blob |
| AssetLoader.ReadInto | src/renderer/assets/asset_loader.cpp:51-58 | a read from a good stream with enough data copies the next bytes and advances |
| AssetLoader.ReadHeader | src/renderer/assets/asset_loader.cpp:51-55 | with 16 bytes available, the type tag, version and two lengths are the four header fields |
| AssetLoader.Layout | src/renderer/assets/asset_loader.cpp:26-31 | the fields sit at offsets 0, 4, 8, 12 and 16 |
| AssetLoader.DecodeEncode | src/renderer/assets/asset_loader.cpp:21-62 | loading a saved file gives back type, version, JSON text and blob when both lengths are below 2^32 |
| AssetLoader.ReadBody | src/renderer/assets/asset_loader.cpp:56-58 | the JSON and blob reads take consecutive byte ranges after the header, zero-filled past the end |
| AssetLoader.DecodeTrusts | src/renderer/assets/asset_loader.cpp:51-58 | load trusts the stored lengths and checks neither the type tag nor the version |
| AssetLoader.OutStream.Write | src/renderer/assets/asset_loader.cpp:26-31 | appends the bytes |
| AssetLoader.InStream.Read | src/renderer/assets/asset_loader.cpp:51-58 | a read is ReadInto on the stream state |
| AssetLoader.SaveAssetFile | src/renderer/assets/asset_loader.cpp:14-33 | a failed open writes nothing; otherwise the encoded file is stored at its resource path |
| AssetLoader.LoadAssetFile | src/renderer/assets/asset_loader.cpp:35-63 | a missing file gives the empty asset; otherwise the decoding of its bytes |
| AssetLoader.SaveThenLoad | src/renderer/assets/asset_loader.cpp:14-63 | loading after saving gives the saved asset back |
| GameFiles.Extension | src/game/game_file.cpp:37-51 | a type has a real extension iff it is saved; each such extension is `.sb` plus three letters |
| GameFiles.ExtensionRoundTrip | src/game/game_file.cpp:27-51 | the type found for a type's extension is that type |
| GameFiles.FileName | src/game/game_file.cpp:28 | the last path component: a suffix with no separator, preceded by one |
| GameFiles.LastDot | src/game/game_file.cpp:28 | the position of the last dot, or -1 |
| GameFiles.PathExtensionShape | src/game/game_file.cpp:28 | the extension is a suffix of the path that is empty or a dot followed by no dot or separator |
| GameFiles.FileTypeFromPath | src/game/game_file.cpp:27-35 | the first type whose extension equals the path's |
| GameFiles.FirstTypeWithExtension | src/game/game_file.cpp:29-34 | the loop over the types returns the first match, or Unknown |
| GameFiles.CategoryOfPath | src/game/game_file.cpp:104-116 | a path's category is never Other, and is Asset iff its extension is `.sbtex` or `.sbmsh` |
| GameFiles.DndKeyInjective | src/game/game_file.cpp:68-88 | different types have different drag-and-drop keys |
| GameFiles.AcceptsAgreesWithType | src/game/game_file.cpp:53-66 | for asset types, a path passes the filter iff its extension names that type |
| GameFiles.Join | src/game/game_file.cpp:10-18 | Windows `operator/`: a plain relative path is appended after the folder; a path naming another drive replaces it; a rooted path without a drive keeps only the folder's drive; onto an absolute folder the result is absolute unless another drive is named |
| GameFiles.ToResourcePath | src/game/game_file.cpp:10-18 | absolute paths (drive and root directory) are unchanged; a plain relative path ends the result, which starts with the working directory when the path starts with the resource folder's relative name and with the resource folder otherwise; a rooted path without a drive takes that base's drive |
| GameFiles.ToResourcePathIdempotent | src/game/game_file.cpp:10-18 | with `C:\...`-style working directory and resource folder, the result is absolute unless it is a drive-relative path on another drive returned as is; resolving it again changes nothing |
| GameFiles.FindSb | src/game/game_file.cpp:127 | the first `.sb` at or after the start, or none |
| GameFiles.RFindQuote | src/game/game_file.cpp:130 | the last quote at or before the position, or none |
| GameFiles.FindQuote | src/game/game_file.cpp:131 | the first quote at or after the position, or none |
| GameFiles.ScanShape | src/game/game_file.cpp:125-135 | every scanned dependency contains `.sb` and no quote |
| GameFiles.PieceShape | src/game/game_file.cpp:125-135 | the piece cut between the quotes around a `.sb` occurrence contains that occurrence and no quote |
| GameFiles.ScanStep | src/game/game_file.cpp:126-134 | one step pushes the quoted text around the next `.sb` and resumes at the closing quote |
| GameFiles.ScanStop | src/game/game_file.cpp:126-135 | the loop stops when no `.sb` remains or no closing quote follows |
| GameFiles.ScanDependencies | src/game/game_file.cpp:125-135 | the Auto Populate loop returns the dependencies the scan specification finds, in order |
| FileCaching.Normalize | src/game/file_cache.cpp:13-26 | backslashes become slashes, nothing else changes |
| FileCaching.NormalizeIdempotent | src/game/file_cache.cpp:13-26 | a normalised path has no backslash and normalises to itself |
| FileCaching.FileCache.LoadJson | src/game/file_cache.cpp:11-22 | returns the parsed document of the normalised path; a hit changes nothing; a miss stores the entry before loading its dependencies |
| FileCaching.FileCache.LoadAsset | src/game/file_cache.cpp:24-33 | returns and records the asset file at the normalised path |
| FileCaching.FileCache.LoadDependencies | src/game/file_cache.cpp:35-49 | the dependency list in order, empty without the key; each JSON or asset dependency ends up loaded |
| AssetCaching.FromTypeInfo | src/game/game_file.cpp:90-102 | each asset class maps to its file type; any other class maps to General |
| AssetCaching.FromTypeInfoInjective | src/game/game_file.cpp:90-102 | different classes map to different file types |
| AssetCaching.ExtensionCheckMatchesType | src/game/game_file.hpp:55-74 | the extension check passes iff the path's extension names the class's type |
| AssetCaching.ExtensionsDistinct | src/game/game_file.cpp:37-51 | another type's extension is never taken for this type |
| AssetCaching.SaveAsset | src/game/game_file.hpp:49-60 | the asset is saved iff its extension matches its class, and then stored at its resource path |
| AssetCaching.AssetCache.constructor | src/game/game_file.hpp:43-47 | an empty cache |
| AssetCaching.AssetCache.LoadAsset | src/game/game_file.hpp:63-89 | a hit without clear_cache returns the cached object and changes nothing; otherwise the entry is replaced by a fresh load |
| AssetCaching.AssetCache.LoadMissing | src/game/game_file.hpp:72-88 | a missing or wrongly typed file gives a default entry; otherwise the parsed asset with its dependencies and path |
| AssetCaching.ReadAsset | src/game/game_file.hpp:83-88 | the asset is built from the cached JSON document, its dependencies and its path |
| Gltf.ComponentSize | src/renderer/assets/model.cpp:442 | component sizes are 1 to 4 bytes |
| Gltf.Stride | src/renderer/assets/model.cpp:448-451 | stride 0 means the element size |
| Gltf.GatheredLength | src/renderer/assets/model.cpp:453 | the output holds count × element size bytes |
| Gltf.GatheredElement | src/renderer/assets/model.cpp:455-459 | element i of the output is copied from `start + stride·i` |
| Gltf.GatheredByte | src/renderer/assets/model.cpp:455-459 | byte j of gathered element i is the byte at `start + stride·i + j` of the buffer |
| Gltf.GatheredPacked | src/renderer/assets/model.cpp:448-459 | with a packed stride the output is one contiguous slice of the buffer |
| Gltf.UnpackBuffer | src/renderer/assets/model.cpp:439-460 | the output array is the gathered elements |
| Gltf.UnpackOne | src/renderer/assets/model.cpp:455-459 | one loop iteration extends the unpacked prefix by one element and advances target and source by size and stride |
| Gltf.CopyElement | src/renderer/assets/model.cpp:457 | the copy leaves everything before the target untouched and writes the source bytes after it |
| Gltf.UnsignedShortRoundTrip | src/renderer/assets/model.cpp:607-611 | an unsigned short index decodes to its value |
| Gltf.ShortSignExtends | src/renderer/assets/model.cpp:612-616 | a signed short index is sign-extended into 32 bits |
| Gltf.IntRoundTrip | src/renderer/assets/model.cpp:617-626 | 32-bit indices decode to their value |
| Gltf.FlippedTriangle | src/renderer/assets/model.cpp:634-637 | each complete triangle keeps its first index and swaps the other two |
| Gltf.FlippedInvolution | src/renderer/assets/model.cpp:634-637 | flipping twice is the identity |
| Gltf.FlipTriangles | src/renderer/assets/model.cpp:634-637 | the flip loop computes the flip |
| Gltf.ExtractIndices | src/renderer/assets/model.cpp:589-638 | the decoded indices are appended, then the whole list is flipped; unsupported types push the unset value |
| Gltf.MeshName | src/renderer/assets/model.cpp:640-652 | the name is the mesh name, unchanged iff the mesh has at most one primitive |
| Gltf.MeshNamesDistinct | src/renderer/assets/model.cpp:640-652 | different primitives of a multi-primitive mesh get different names |
| ModelNodes.NodeStore.Emplace | src/renderer/assets/model.cpp:30-37 | stores a node under a fresh id |
| ModelNodes.OldToNewAt | src/renderer/assets/model.cpp:38 | each source node's id maps to its copy's id |
| ModelNodes.RemapLinks | src/renderer/assets/model.cpp:44-49 | remapping changes only the links, and parent 0 stays 0 |
| ModelNodes.CopiedAt | src/renderer/assets/model.cpp:29-40 | each copy holds its source node; existing nodes are unchanged |
| ModelNodes.RemappedAt | src/renderer/assets/model.cpp:44-49 | the listed nodes are remapped and no other node changes |
| ModelNodes.RemappedVisited | src/renderer/assets/model.cpp:44-49 | a listed node is remapped through the id map |
| ModelNodes.RemappedUnvisited | src/renderer/assets/model.cpp:44-49 | a node not in the list is left as it was |
| ModelNodes.RemapChildren | src/renderer/assets/model.cpp:47-48 | each child id is remapped |
| ModelNodes.Assign | src/renderer/assets/model.cpp:25-56 | the target takes the source's path and dependencies, appends one new id per source node, and its root is the remapped root |
| ModelNodes.CopyNodes | src/renderer/assets/model.cpp:29-40 | one new node per source node, in order, and the old-to-new map |
| ModelNodes.CopyStep | src/renderer/assets/model.cpp:29-40 | one more copy extends the store and the map by that node |
| ModelNodes.RemapNodes | src/renderer/assets/model.cpp:43-49 | every node of the target list has its links remapped |
| ModelNodes.AssignedAt | src/renderer/assets/model.cpp:25-56 | into an empty target, each copy is its source with remapped links |
| ModelNodes.CopyIsIsomorphic | src/renderer/assets/model.cpp:25-56 | into an empty target, the copy keeps content, parent and children shape, and links only to copies |
| ModelNodes.AssignAsWrittenBreaksLinks | src/renderer/assets/model.cpp:39-49 | copying into a non-empty target zeroes the links of the target's existing nodes |
| ModelNodes.AssignReplacing | src/renderer/assets/model.cpp:25-56 | replacing the target's nodes gives an isomorphic copy and leaves existing nodes untouched |
| ModelNodes.Instances | src/renderer/assets/model.cpp:138-155 | at most one renderable per node, each with the frame flag passed in |
| ModelNodes.InstancesOfAll | src/renderer/assets/model.cpp:138-155 | nodes with both files give one renderable each; nodes without give none |
| ModelNodes.PathsRecorded | src/renderer/assets/model.cpp:145-146 | each instanced node's mesh and material paths are recorded under their hashes |
| ModelNodes.InstanceStep | src/renderer/assets/model.cpp:138-155 | one node adds its renderable, paths and map entry iff it has both files |
| ModelNodes.InstanceModel | src/renderer/assets/model.cpp:135-158 | appends the instances to the scene, records the paths, and maps each drawn node to its renderable's index |
| ModelNodes.InstanceNode | src/renderer/assets/model.cpp:138-155 | one node's iteration keeps the instancing invariant: a node with both asset paths on disk adds one renderable and records its paths, any other node changes nothing |
| ModelHierarchy.LinkRowShape | src/renderer/assets/model.cpp:293-297 | one node's children loop appends the children and sets each child's parent |
| ModelHierarchy.LinkedKeeps | src/renderer/assets/model.cpp:292-298 | linking changes only links, and only of listed nodes |
| ModelHierarchy.LinkedChildren | src/renderer/assets/model.cpp:292-298 | each node's children become its glTF children, in order |
| ModelHierarchy.LinkedParentIsLast | src/renderer/assets/model.cpp:296 | a child's parent is the last node listing it |
| ModelHierarchy.LinkedParents | src/renderer/assets/model.cpp:292-298 | with one parent per child, a node's parent is i iff i lists it, and none iff no node does |
| ModelHierarchy.AddBlankNodes | src/renderer/assets/model.cpp:289-291 | one blank node per glTF node, appended in order |
| ModelHierarchy.LinkChildren | src/renderer/assets/model.cpp:292-298 | the store becomes the linked hierarchy |
| ModelHierarchy.LinkRowInPlace | src/renderer/assets/model.cpp:293-297 | one node's children loop leaves the store equal to the linked row of the old store |
| ModelHierarchy.ParentlessExactly | src/renderer/assets/model.cpp:301-302 | exactly the nodes without a valid parent, in order |
| ModelHierarchy.ParentlessStep | src/renderer/assets/model.cpp:301-307 | one more node extends the parentless list iff it has no valid parent |
| ModelHierarchy.FindRoot | src/renderer/assets/model.cpp:300-307 | the root is the last parentless node; `multiple_valid` is true iff there are two, or one after a root was already set |
| ModelHierarchy.AdoptedOthers | src/renderer/assets/model.cpp:311-316 | adoption changes no node outside the list but the new root |
| ModelHierarchy.AdoptedNodes | src/renderer/assets/model.cpp:311-316 | every parentless node gets the new root as parent; the others are unchanged |
| ModelHierarchy.AdoptedRoot | src/renderer/assets/model.cpp:314 | the new root's children are the parentless nodes, in order |
| ModelHierarchy.RootSynthesisLinks | src/renderer/assets/model.cpp:309-321 | the synthesised root is named "root_node", has the identity transform, no parent, and adopts every parentless node |
| ModelHierarchy.RootSynthesisSingleRoot | src/renderer/assets/model.cpp:309-321 | afterwards exactly one node, the new root, is parentless |
| ModelHierarchy.ParentlessSame | src/renderer/assets/model.cpp:301-302 | the parentless list depends only on the listed nodes and their parents' validity |
| ModelHierarchy.ParentlessNone | src/renderer/assets/model.cpp:301-302 | with every parent valid there is no parentless node |
| ModelHierarchy.SynthesizeRoot | src/renderer/assets/model.cpp:309-321 | appends the new root and makes it the model's root |
| ModelHierarchy.SettleRoot | src/renderer/assets/model.cpp:300-321 | a root is synthesised iff `multiple_valid`; otherwise the root is the single parentless node or the old root |
| ModelHierarchy.Reaches | src/renderer/assets/model.cpp:399-415 | only ranked nodes are reachable |
| ModelHierarchy.UsesIffDrawableBelow | src/renderer/assets/model.cpp:399-415 | the traversal reports use iff some node at or below has both a mesh and a material file |
| ModelHierarchy.IndexOf | src/renderer/assets/model.cpp:413 | `nodes.find` gives the first position of the node |
| ModelHierarchy.Traverse | src/renderer/assets/model.cpp:399-415 | the recursive traversal marks exactly the used nodes below it |
| ModelHierarchy.MarkUsed | src/renderer/assets/model.cpp:397-419 | a node is marked iff it is reachable from the root and drawable at or below |
| ModelHierarchy.Kept | src/renderer/assets/model.cpp:421-431 | the surviving nodes are a sub-list of the nodes |
| ModelHierarchy.Detached | src/renderer/assets/model.cpp:427 | removal changes no node's key set |
| ModelHierarchy.DetachedKeeps | src/renderer/assets/model.cpp:427 | removal changes only children lists |
| ModelHierarchy.PruneStep | src/renderer/assets/model.cpp:423-430 | one index either keeps its node or removes it from the list and from its parent's children |
| ModelHierarchy.PruneParent | src/renderer/assets/model.cpp:423-430 | removals so far keep the keys and this node's parent; the node survives iff it is marked or its parent is invalid |
| ModelHierarchy.PruneKeeps | src/renderer/assets/model.cpp:423-430 | a surviving node is appended to the kept list and no children list changes |
| ModelHierarchy.PruneRemoves | src/renderer/assets/model.cpp:423-430 | a removed node is left out of the kept list and its first occurrence is removed from its parent's children |
| ModelHierarchy.RemoveUnused | src/renderer/assets/model.cpp:421-431 | the loop leaves exactly the kept nodes and the detached hierarchy |
| ModelHierarchy.RemoveOne | src/renderer/assets/model.cpp:423-430 | one iteration of the removal loop |
| ModelHierarchy.KeptIff | src/renderer/assets/model.cpp:421-431 | a node is kept iff it is used or has no valid parent |
| ModelHierarchy.RemoveFirstDistinct | src/renderer/assets/model.cpp:427 | removing a child from a duplicate-free list leaves no copy of it |
| ModelHierarchy.DetachedShrinks | src/renderer/assets/model.cpp:427 | children lists only lose entries and stay duplicate-free |
| ModelHierarchy.DetachedUnlinks | src/renderer/assets/model.cpp:427 | a removed node is no longer its parent's child |
| ModelHierarchy.Marks | src/renderer/assets/model.cpp:397-419 | one mark per node: reachable and drawable below |
| ModelHierarchy.PruneUnused | src/renderer/assets/model.cpp:395-432 | the marked nodes and the parentless ones survive; the others are removed and detached |
| ModelHierarchy.PrunedNodes | src/renderer/assets/model.cpp:395-432 | a node survives iff it is reachable from the root with a drawable node at or below, or has no valid parent; a removed node is gone from its parent's children |

## Left out

- Vulkan and vuk: command buffers, pipelines, descriptor sets and the render graph runtime. Passes are data, and draws are records.
- Floating point and matrix arithmetic: matrices are symbolic, floats are opaque reals.
- Concurrency: futures are opaque values in a list; what they compute is not modelled.
- JSON parsing and dumping, and the filesystem: disk contents are a map; `parse_file`, `is_file` and the hash function are parameters.
- ImGui, the editor, the inspect functions and the networking code around `QuickBuffer`.
- `upload_buffer_objects`, emitters (`prune_emitters`, the emitter update pass) and the postprocess pass internals: the pass list names them, and their contents are left out.
- The body of the GPU asset cache (`gpu_asset_cache.cpp` is not part of this model): get-or-upload is a fill from a source map.
- The `colony` container: adding is an append, and slot reuse is not modelled.
- `vector::remove_index(i, false)` is taken to keep the order of the remaining elements; `vector.hpp` is not part of this model.
- `math::contains(range2i(0, size), q)` is taken as `0 <= q < size` on each axis.
- `palette::clear` is taken to have alpha 0.
- The id allocator: fresh node ids are passed in.
- `convert_to_model` lines 323-393 (per-node file assignment, the multi-material split) and `cache_transform`: they depend on glTF mesh and material tables the model does not carry; the y-up fix-up is matrix arithmetic.
- `texture.cpp` and the texture paths.
- DrawFunctions.CubeOnFaces: states only that vertices lie on their face; the winding of the cube's triangles is not proved.
- GameFiles.ScanDependencies: when no closing quote follows a `.sb`, the source builds a string of length `npos - start_quote`, reading past the contents, and then stops; the model stops there without that entry.
- Frame.SceneStep: a scene's own `wait_for_futures` is recorded with a count of 0. The model's uploads enqueue no future; `gpu_asset_cache.cpp`, where a texture upload could enqueue one, is not part of this model.
- Frame.Renderer.Setup: `upload_defaults()` is recorded as an event only; what it stores, including the "default" material that `quick_mesh` names, is not modelled.
- Scene.RenderScene.QuickMesh: a non-widget renderable is not shown to resolve, since the "default" material comes from `upload_defaults()`. Pipeline creation is a parameter (`pipeline`).
- GpuAssets.GpuAssetCache.UploadMesh: that `upload_mesh` and `upload_material` store the entry under the hash of the asset's path, replace an earlier one and leave the other maps alone is assumed; their bodies are not part of this model.
- Common.RemoveFirst: `vector::remove_value` is taken to drop only the first occurrence; `vector.hpp` is not part of this model.
- Scene.RenderScene.PreRender: `viewport.pre_render()` (render_scene.cpp:194) is not modelled; `viewport.cpp` is not part of this model.
- GameFiles.ToResourcePath: UNC and device paths (`\\server\share`, `\\?\`) are not recognised as having a root name, and drive letters are compared as written, without case folding.
- `FrameTimer::inspect` (the FPS average and plot) is left out: it only displays the ring buffer.
- Frame.Renderer.Update: waiting for window events is represented by a list of pending resizes; the ImGui frame, the frame allocator and the scenes' empty `update` are left out.

## Findings

| source | as written | input that shows it | evidently intended | confidence | as-written member | corrected member |
|---|---|---|---|---|---|---|
| src/renderer/draw_functions.cpp:121-123 | the child triangle at corner c is pushed as (n3, c, n2) | any triangle: the corner child contains the edge (c, n2), against its neighbours and the parent's winding | push (n3, n2, c) so every child keeps the parent's winding | high, not executed | DrawFunctions.SubdivideIncoherent | DrawFunctions.ChildrenCoherent |
| src/renderer/assets/model.cpp:39-49 | `operator=` appends to the target's `nodes` and then remaps every node of the target, including its old ones | a target holding nodes 1 (child 2) and 2 (parent 1), assigned a one-node model: node 2's parent becomes 0 and node 1's child becomes 0 | clear the target's nodes first, so only the copies are remapped | medium, not executed | ModelNodes.AssignAsWrittenBreaksLinks | ModelNodes.AssignReplacing |
| src/game/server_client_shared.hpp:20-47 | the constructors (lines 22 and 45) assign `max_size = max_size` and `size = size`, assigning the parameters to themselves | `QuickBuffer()` or any `QuickReadBuffer`: the member keeps its unset value | `this->max_size = max_size` and `this->size = size` | high, not executed | QuickBuffers.SizeMembersLost | QuickBuffers.SizeMembersKept |
| src/renderer/render_scene.cpp:466-468 | the widget pass starts `item_index` at `renderables.size()`, while packing (lines 148-168) puts the first widget row at `count`, the number of renderables whose mesh and material are cached | one scene renderable whose mesh is not yet uploaded and one cached widget: the widget draw reads row 1 of a one-row model buffer | start the widget pass at `count` | high, not executed | Scene.WidgetStartAsWrittenOverruns | Scene.WidgetDrawAtCountReadsOwnRow |
