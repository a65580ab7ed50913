/** `RenderScene`: one scene's renderables, the per-frame batching of those
    renderables into instanced draws, and the render-graph passes the scene
    declares each frame. */
module Scene {
  import opened Common
  import opened GpuAssets
  import opened Renderables
  import opened Batching
  import opened RenderGraph
  import opened Mips
  import opened DrawFunctions

  /** A 2D integer point (`v2i`). */
  datatype Point = Point(x: int, y: int)

  /** `v2i(-1, -1)`: no pick query is pending. */
  const NO_QUERY: Point := Point(-1, -1)

  /** `math::contains(range2i(v2i(0), viewport.size), q)`, half-open on both axes. */
  predicate InViewport(q: Point, width: int, height: int)
  {
    0 <= q.x < width && 0 <= q.y < height
  }

  /** The number of mip levels of the voxelization image. */
  const VOXEL_MIP_LEVELS: nat := 6

  // ---------------------------------------------------------------------
  // The end-of-frame sweep.

  /** A renderable that survives `clear_frame_allocated_renderables`. */
  predicate Kept(r: Renderable)
  {
    !r.frameAllocated
  }

  /** One erase-while-iterating loop of `clear_frame_allocated_renderables`:
      an erased element is replaced by its successor at the same position,
      a kept one is stepped over. */
  method EraseFrameAllocated(rs: seq<Renderable>) returns (kept: seq<Renderable>)
    ensures kept == Filter(rs, Kept)
  {
    kept := rs;
    var i := 0;
    ghost var j := 0;
    while i < |kept|
      invariant 0 <= i <= |kept| && 0 <= j <= |rs|
      invariant kept[..i] == Filter(rs[..j], Kept)
      invariant kept[i..] == rs[j..]
      decreases |kept| - i
    {
      EraseStep(rs, kept, i, j);
      if kept[i].frameAllocated {
        kept := kept[..i] + kept[i + 1..];
      } else {
        i := i + 1;
      }
      j := j + 1;
    }
    assert rs[..j] == rs;
  }

  /** One turn of the erase loop: the element at `i` is the next original
      one, and either leaves the list or joins the kept prefix. */
  lemma {:induction false} EraseStep(rs: seq<Renderable>, kept: seq<Renderable>, i: nat, j: nat)
    requires i < |kept| && j <= |rs|
    requires kept[..i] == Filter(rs[..j], Kept) && kept[i..] == rs[j..]
    ensures j < |rs| && kept[i] == rs[j]
    ensures kept[i].frameAllocated ==>
      var next := kept[..i] + kept[i + 1..];
      next[..i] == Filter(rs[..j + 1], Kept) && next[i..] == rs[j + 1..]
    ensures !kept[i].frameAllocated ==>
      kept[..i + 1] == Filter(rs[..j + 1], Kept) && kept[i + 1..] == rs[j + 1..]
  {
    assert kept[i] == rs[j] by {
      assert kept[i..][0] == rs[j..][0];
    }
    assert rs[..j + 1] == rs[..j] + [rs[j]];
    FilterAppend(rs[..j], rs[j], Kept);
    assert kept[i + 1..] == kept[i..][1..];
    if kept[i].frameAllocated {
      var next := kept[..i] + kept[i + 1..];
      assert next[..i] == kept[..i];
      assert next[i..] == kept[i + 1..];
    } else {
      assert kept[..i + 1] == kept[..i] + [kept[i]];
    }
  }

  // ---------------------------------------------------------------------
  // The widget pass.

  /** The draws of the widget pass: the widgets whose mesh and material are
      both cached draw one instance each, in order, at consecutive instance
      indices from `start`. */
  function WidgetDraws(ws: seq<Renderable>, meshes: map<Id, MeshGpu>, materialKeys: set<Id>, start: int): (ds: seq<Draw>)
  {
    var drawn := Filter(ws, ResolvesIn(meshes.Keys, materialKeys));
    seq(|drawn|, k requires 0 <= k < |drawn| =>
      assert drawn[k] in drawn;
      Draw(meshes[drawn[k].meshId].indexCount, 1, start + k))
  }

  lemma {:induction false} WidgetDrawsStep(ws: seq<Renderable>, meshes: map<Id, MeshGpu>, materialKeys: set<Id>, start: int, i: nat)
    requires i < |ws|
    ensures var prev := WidgetDraws(ws[..i], meshes, materialKeys, start);
      WidgetDraws(ws[..i + 1], meshes, materialKeys, start) ==
        prev + (if ws[i].meshId in meshes && ws[i].materialId in materialKeys
                then [Draw(meshes[ws[i].meshId].indexCount, 1, start + |prev|)] else [])
  {
    assert ws[..i + 1] == ws[..i] + [ws[i]];
    FilterAppend(ws[..i], ws[i], ResolvesIn(meshes.Keys, materialKeys));
  }

  /** The loop of `add_widget_pass`: nothing is drawn unless `render_widgets`
      is set; otherwise `item_index` starts at `start` and each widget goes
      through `render_widget`. */
  method WidgetPassDraws(ws: seq<Renderable>, cache: GpuAssetCache, renderWidgets: bool, start: int)
    returns (draws: seq<Draw>)
    ensures draws == if renderWidgets then WidgetDraws(ws, cache.meshes, cache.materials.Keys, start) else []
  {
    draws := [];
    if !renderWidgets {
      return;
    }
    var itemIndex := new Counter(start);
    var i := 0;
    while i < |ws|
      invariant 0 <= i <= |ws|
      invariant draws == WidgetDraws(ws[..i], cache.meshes, cache.materials.Keys, start)
      invariant itemIndex.value == start + |draws|
    {
      WidgetDrawsStep(ws, cache.meshes, cache.materials.Keys, start, i);
      var d := RenderWidget(ws[i], cache, itemIndex);
      if d.Some? {
        draws := draws + [d.value];
      }
      i := i + 1;
    }
    assert ws[..|ws|] == ws;
  }

  /** The widget pass starts its instance index at `renderables.size()`,
      while packing puts the first widget row at the number of renderables
      that resolved: the two agree exactly when every renderable resolved. */
  lemma {:induction false} WidgetStartMatchesPacking(rs: seq<Renderable>, meshKeys: set<Id>, materialKeys: set<Id>)
    ensures |Flat(Build(rs, meshKeys, materialKeys))| == |rs| <==>
      forall i :: 0 <= i < |rs| ==> Resolves(rs[i], meshKeys, materialKeys)
  {
    BuildSize(rs, meshKeys, materialKeys);
    FilterKeepsAll(rs, ResolvesIn(meshKeys, materialKeys));
  }

  /** When every renderable and every widget resolves, widget draw `k` reads
      the model-buffer row that holds widget `k`'s transform. */
  lemma {:induction false} WidgetDrawReadsOwnRow(rs: seq<Renderable>, ws: seq<Renderable>, meshes: map<Id, MeshGpu>,
                              materialKeys: set<Id>, k: nat)
    requires forall i :: 0 <= i < |rs| ==> Resolves(rs[i], meshes.Keys, materialKeys)
    requires forall i :: 0 <= i < |ws| ==> Resolves(ws[i], meshes.Keys, materialKeys)
    requires k < |ws|
    ensures var ds := WidgetDraws(ws, meshes, materialKeys, |rs|);
      var rows := ModelRows(Build(rs, meshes.Keys, materialKeys), ws);
      k < |ds| && 0 <= ds[k].firstInstance < |rows| && rows[ds[k].firstInstance] == ws[k].transform
  {
    WidgetStartMatchesPacking(rs, meshes.Keys, materialKeys);
    var b := Build(rs, meshes.Keys, materialKeys);
    var packed := Transforms(Flat(b));
    assert |packed| == |rs|;
    var own := Transforms(Entries(ws));
    assert own[k] == ws[k].transform;
    var rows := ModelRows(b, ws);
    assert rows == packed + own;
    assert rows[|rs| + k] == own[k];
    FilterKeepsAll(ws, ResolvesIn(meshes.Keys, materialKeys));
    assert Filter(ws, ResolvesIn(meshes.Keys, materialKeys)) == ws by {
      assert forall i :: 0 <= i < |ws| ==> ResolvesIn(meshes.Keys, materialKeys)(ws[i]);
    }
    var ds := WidgetDraws(ws, meshes, materialKeys, |rs|);
    assert |ds| == |ws|;
    assert ds[k].firstInstance == |rs| + k;
  }

  /** The widget pass as intended: started at the packed widget start, the
      number of renderables that resolved, each widget draw reads its own
      row whatever the scene renderables are. */
  lemma {:induction false} WidgetDrawAtCountReadsOwnRow(rs: seq<Renderable>, ws: seq<Renderable>, meshes: map<Id, MeshGpu>,
                                                        materialKeys: set<Id>, k: nat)
    requires forall i :: 0 <= i < |ws| ==> Resolves(ws[i], meshes.Keys, materialKeys)
    requires k < |ws|
    ensures var b := Build(rs, meshes.Keys, materialKeys);
      var ds := WidgetDraws(ws, meshes, materialKeys, |Flat(b)|);
      var rows := ModelRows(b, ws);
      k < |ds| && 0 <= ds[k].firstInstance < |rows| && rows[ds[k].firstInstance] == ws[k].transform
  {
    var b := Build(rs, meshes.Keys, materialKeys);
    var count := |Flat(b)|;
    var own := Transforms(Entries(ws));
    assert own[k] == ws[k].transform;
    var rows := ModelRows(b, ws);
    assert rows[count + k] == own[k];
    FilterKeepsAll(ws, ResolvesIn(meshes.Keys, materialKeys));
    assert Filter(ws, ResolvesIn(meshes.Keys, materialKeys)) == ws by {
      assert forall i :: 0 <= i < |ws| ==> ResolvesIn(meshes.Keys, materialKeys)(ws[i]);
    }
    var ds := WidgetDraws(ws, meshes, materialKeys, count);
    assert |ds| == |ws|;
    assert ds[k].firstInstance == count + k;
  }

  /** The widget pass as written starts at `renderables.size()`: once one
      scene renderable is not resolved, the draws are shifted past the
      packed widget rows, and the last widget draw reads beyond the end of
      the model buffer. */
  lemma {:induction false} WidgetStartAsWrittenOverruns(rs: seq<Renderable>, ws: seq<Renderable>, meshes: map<Id, MeshGpu>,
                                                        materialKeys: set<Id>, i: nat)
    requires i < |rs| && !Resolves(rs[i], meshes.Keys, materialKeys)
    requires forall j :: 0 <= j < |ws| ==> Resolves(ws[j], meshes.Keys, materialKeys)
    requires |ws| > 0
    ensures var ds := WidgetDraws(ws, meshes, materialKeys, |rs|);
      var rows := ModelRows(Build(rs, meshes.Keys, materialKeys), ws);
      |ds| == |ws| && ds[|ws| - 1].firstInstance >= |rows|
  {
    WidgetStartMatchesPacking(rs, meshes.Keys, materialKeys);
    var b := Build(rs, meshes.Keys, materialKeys);
    BuildSize(rs, meshes.Keys, materialKeys);
    assert |Flat(b)| < |rs|;
    var rows := ModelRows(b, ws);
    assert |rows| == |Flat(b)| + |ws|;
    FilterKeepsAll(ws, ResolvesIn(meshes.Keys, materialKeys));
    assert Filter(ws, ResolvesIn(meshes.Keys, materialKeys)) == ws by {
      assert forall j :: 0 <= j < |ws| ==> ResolvesIn(meshes.Keys, materialKeys)(ws[j]);
    }
    var ds := WidgetDraws(ws, meshes, materialKeys, |rs|);
    assert ds[|ws| - 1].firstInstance == |rs| + |ws| - 1;
  }

  // ---------------------------------------------------------------------
  // The passes a frame declares.

  function SunDepthPass(): Pass
  {
    Pass("sun_depth", [Produce("sun_depth_input", DepthStencilRW, "sun_depth_output")])
  }

  function VoxelizationPass(): Pass
  {
    Pass("voxelization",
         [Use("sun_depth_output", FragmentSampled),
          Produce("voxelization_input", FragmentWrite, "voxelization"),
          Produce("fake_input", ColorWrite, "fake_output")])
  }

  function EmitterUpdatePass(): Pass
  {
    Pass("emitter_update", [])
  }

  function ForwardPass(): Pass
  {
    Pass("forward",
         [Produce("base_color_input", ColorWrite, "base_color_output"),
          Produce("emissive_input", ColorWrite, "emissive_output"),
          Produce("normal_input", ColorWrite, "normal_output"),
          Produce("info_input", ColorWrite, "info_output"),
          Produce("depth_input", DepthStencilRW, "depth_output")])
  }

  function WidgetPass(): Pass
  {
    Pass("widget",
         [Produce("widget_input", ColorWrite, "widget_output"),
          Produce("widget_depth_input", DepthStencilRW, "widget_depth_output")])
  }

  function PostprocessPass(): Pass
  {
    Pass("postprocess_apply",
         [Use("base_color_output", ComputeSampled),
          Use("emissive_output", ComputeSampled),
          Use("normal_output", ComputeSampled),
          Use("depth_output", ComputeSampled),
          Use("widget_output", ComputeSampled),
          Use("widget_depth_output", ComputeSampled),
          Use("voxelization_mipped", ComputeSampled),
          Use("sun_depth_output", ComputeSampled),
          Produce("target_input", ComputeWrite, "target_output")])
  }

  /** The pick read-back: one texel of `info_output` copied into a host buffer. */
  function ReadPass(): Pass
  {
    Pass("read",
         [Use("info_output", TransferRead),
          Produce("info_storage", MemoryWrite, "info_readable")])
  }

  /** The passes of an unpaused frame, in the order `render` adds them; the
      mip blits are added from inside `add_voxelization_pass`. */
  function ScenePasses(blits: seq<Pass>, withRead: bool): seq<Pass>
  {
    [SunDepthPass(), VoxelizationPass()] + blits +
    [EmitterUpdatePass(), ForwardPass(), WidgetPass(), PostprocessPass()] +
    (if withRead then [ReadPass()] else [])
  }

  /** The frame has a pass named "read" exactly when the read-back was
      requested; no other pass carries that name. */
  lemma {:induction false} ReadPassIffRequested(c: MipChain, withRead: bool)
    requires IsMipChain(c, "voxelization", "voxelization_mipped", VOXEL_MIP_LEVELS)
    ensures var ps := ScenePasses(c.blits, withRead);
      (exists i :: 0 <= i < |ps| && ps[i].name == "read") <==> withRead
  {
    var ps := ScenePasses(c.blits, withRead);
    forall p | 0 <= p < |c.blits| ensures c.blits[p].name != "read" {
      assert |c.blits[p].name| > 4;
    }
    if withRead {
      assert ps[|ps| - 1].name == "read";
    } else {
      forall i | 0 <= i < |ps| ensures ps[i].name != "read" {
        if 2 <= i < 2 + |c.blits| {
          assert ps[i] == c.blits[i - 2];
        }
      }
    }
  }

  /** The draws of one unpaused frame, per pass. */
  datatype FrameDraws = FrameDraws(
    sunDepth: seq<Draw>,
    voxelization: seq<Draw>,
    forward: seq<Draw>,
    widget: seq<Draw>)

  /** The render graph a scene hands back. A paused scene only attaches its
      last render target under the output name. */
  datatype SceneGraph =
    | Paused(output: string)
    | Frame(passes: seq<Pass>, mips: MipChain, draws: FrameDraws, output: string)

  /** The upload loops at the top of `render`: `upload_dependencies` for each
      renderable in turn. */
  method UploadAll(rs: seq<Renderable>, cache: GpuAssetCache,
                   meshSource: map<Id, MeshGpu>, materialSource: map<Id, MaterialGpu>)
    modifies cache
    ensures cache.meshes == FillAll(old(cache.meshes), MeshRequests(rs), meshSource)
    ensures cache.materials == FillAll(old(cache.materials), MaterialRequests(rs), materialSource)
    ensures cache.textures == old(cache.textures) && cache.paths == old(cache.paths)
  {
    ghost var meshes0, materials0 := cache.meshes, cache.materials;
    var i := 0;
    while i < |rs|
      invariant 0 <= i <= |rs|
      invariant cache.meshes == FillAll(meshes0, MeshRequests(rs[..i]), meshSource)
      invariant cache.materials == FillAll(materials0, MaterialRequests(rs[..i]), materialSource)
      invariant cache.textures == old(cache.textures) && cache.paths == old(cache.paths)
    {
      UploadStep(rs, i, meshes0, materials0, meshSource, materialSource);
      UploadDependencies(rs[i], cache, meshSource, materialSource);
      i := i + 1;
    }
    assert rs[..i] == rs;
  }

  lemma {:induction false} UploadStep(rs: seq<Renderable>, i: nat, meshes0: map<Id, MeshGpu>, materials0: map<Id, MaterialGpu>,
                   meshSource: map<Id, MeshGpu>, materialSource: map<Id, MaterialGpu>)
    requires i < |rs|
    ensures var r := rs[i];
      var meshes := FillAll(meshes0, MeshRequests(rs[..i]), meshSource);
      var materials := FillAll(materials0, MaterialRequests(rs[..i]), materialSource);
      (Requests(r) ==> Fill(meshes, r.meshId, meshSource) == FillAll(meshes0, MeshRequests(rs[..i + 1]), meshSource) &&
                       Fill(materials, r.materialId, materialSource) == FillAll(materials0, MaterialRequests(rs[..i + 1]), materialSource)) &&
      (!Requests(r) ==> meshes == FillAll(meshes0, MeshRequests(rs[..i + 1]), meshSource) &&
                        materials == FillAll(materials0, MaterialRequests(rs[..i + 1]), materialSource))
  {
    assert rs[..i + 1] == rs[..i] + [rs[i]];
    RequestsAppend(rs[..i], rs[i]);
    FillStep(meshes0, MeshRequests(rs[..i]), rs[i].meshId, meshSource);
    FillStep(materials0, MaterialRequests(rs[..i]), rs[i].materialId, materialSource);
    assert MeshRequests(rs[..i]) + {} == MeshRequests(rs[..i]);
    assert MaterialRequests(rs[..i]) + {} == MaterialRequests(rs[..i]);
  }

  /** Everything a scene holds besides its two renderable lists: what the
      list operations leave alone. */
  datatype SceneSettings = SceneSettings(
    name: string, viewport: Point, target: Point, renderWidgets: bool,
    query: Point, futQueryResult: Option<string>, userPause: bool, cullPause: bool,
    built: Built, modelMats: array<Matrix>, ids: array<nat>)

  // ---------------------------------------------------------------------
  // The one-time setup of the quick-renderable helpers.

  /** The function-local `static bool initialized` flags of `material_setup`
      and `widget_setup`: process-wide, set by the first call and never
      cleared. */
  class QuickSetup {
    var icosphereUploaded: bool
    var widgetUploaded: bool

    constructor ()
      ensures !icosphereUploaded && !widgetUploaded
    {
      icosphereUploaded, widgetUploaded := false, false;
    }
  }

  /** A finished setup left its asset in the cache, under the id the quick
      helpers name it by. */
  predicate SetupResident(setup: QuickSetup, cache: GpuAssetCache, hash: string -> Id)
    reads setup, cache
  {
    (setup.icosphereUploaded ==> hash(IcospherePath(3)) in cache.meshes) &&
    (setup.widgetUploaded ==> hash("widget") in cache.materials)
  }

  /** The meshes after `material_setup`: on the first call only, the
      three-round icosphere (60·4³ indices), uploaded persistent under the
      hash of its path. */
  function AfterMaterialSetup(done: bool, meshes: map<Id, MeshGpu>, hash: string -> Id): map<Id, MeshGpu>
  {
    if done then meshes else meshes[hash(IcospherePath(3)) := MeshGpu(60 * Pow4(3), false)]
  }

  /** The materials after `widget_setup`: on the first call only, the
      "widget" material on the `widget` pipeline, uploaded persistent. */
  function AfterWidgetSetup(done: bool, materials: map<Id, MaterialGpu>, pipeline: nat, hash: string -> Id): map<Id, MaterialGpu>
  {
    if done then materials else materials[hash("widget") := MaterialGpu(pipeline, false)]
  }

  /** `material_setup`: the first call uploads `generate_icosphere(3)`, every
      later call does nothing. */
  method MaterialSetup(setup: QuickSetup, cache: GpuAssetCache, hash: string -> Id)
    modifies setup, cache
    ensures setup.icosphereUploaded && setup.widgetUploaded == old(setup.widgetUploaded)
    ensures cache.meshes == AfterMaterialSetup(old(setup.icosphereUploaded), old(cache.meshes), hash)
    ensures cache.materials == old(cache.materials) && cache.textures == old(cache.textures) && cache.paths == old(cache.paths)
    ensures old(SetupResident(setup, cache, hash)) ==> SetupResident(setup, cache, hash)
    ensures hash(IcospherePath(3)) in cache.meshes <==> !old(setup.icosphereUploaded) || hash(IcospherePath(3)) in old(cache.meshes)
  {
    if setup.icosphereUploaded {
      return;
    }
    setup.icosphereUploaded := true;
    UploadIcosphere(cache, 3, hash);
  }

  /** `upload_mesh(generate_icosphere(subdivisions))`: the generated mesh,
      persistent, under the hash of its path. */
  method UploadIcosphere(cache: GpuAssetCache, subdivisions: int, hash: string -> Id)
    modifies cache
    ensures cache.meshes == old(cache.meshes)[hash(IcospherePath(subdivisions)) := MeshGpu(60 * Pow4(Rounds(subdivisions)), false)]
    ensures cache.materials == old(cache.materials) && cache.textures == old(cache.textures) && cache.paths == old(cache.paths)
  {
    var m := GenerateIcosphere(subdivisions);
    IcosphereShape(Rounds(subdivisions));
    cache.UploadMesh(hash(m.path), MeshGpu(|m.indices|, false));
  }

  /** `widget_setup`: the first call creates the `widget` pipeline (its
      handle is `pipeline`) and uploads the "widget" material, every later
      call does nothing. */
  method WidgetSetup(setup: QuickSetup, cache: GpuAssetCache, pipeline: nat, hash: string -> Id)
    modifies setup, cache
    ensures setup.widgetUploaded && setup.icosphereUploaded == old(setup.icosphereUploaded)
    ensures cache.materials == AfterWidgetSetup(old(setup.widgetUploaded), old(cache.materials), pipeline, hash)
    ensures cache.meshes == old(cache.meshes) && cache.textures == old(cache.textures) && cache.paths == old(cache.paths)
    ensures old(SetupResident(setup, cache, hash)) ==> SetupResident(setup, cache, hash)
    ensures hash("widget") in cache.materials <==> !old(setup.widgetUploaded) || hash("widget") in old(cache.materials)
  {
    if setup.widgetUploaded {
      return;
    }
    setup.widgetUploaded := true;
    cache.UploadMaterial(hash("widget"), MaterialGpu(pipeline, false));
  }

  /** What the `quick_renderable` overloads upload besides the setup: nothing
      (ids given), the mesh, or the material, each with the default
      persistent allocation. */
  datatype QuickUpload =
    | GivenIds
    | UploadsMesh(indexCount: nat)
    | UploadsMaterial(pipeline: nat)

  class RenderScene {
    var name: string
    var viewportWidth: int
    var viewportHeight: int
    var targetWidth: int
    var targetHeight: int
    var renderables: seq<Renderable>
    var widgetRenderables: seq<Renderable>
    var renderWidgets: bool
    var query: Point
    /** The future of the pick read-back, by the name it waits on. */
    var futQueryResult: Option<string>
    var userPause: bool
    var cullPause: bool
    var renderablesBuilt: Built
    /** `buffer_model_mats` and `buffer_ids`. */
    var modelMats: array<Matrix>
    var ids: array<nat>

    constructor (name: string)
      ensures this.name == name && renderables == [] && widgetRenderables == []
      ensures renderWidgets && query == NO_QUERY && futQueryResult == None
      ensures !userPause && !cullPause && renderablesBuilt == []
      ensures viewportWidth == 0 && viewportHeight == 0
    {
      this.name := name;
      viewportWidth, viewportHeight := 0, 0;
      targetWidth, targetHeight := 0, 0;
      renderables, widgetRenderables := [], [];
      renderWidgets := true;
      query := NO_QUERY;
      futQueryResult := None;
      userPause, cullPause := false, false;
      renderablesBuilt := [];
      modelMats := new Matrix[0];
      ids := new nat[0];
    }

    function Settings(): SceneSettings
      reads this
    {
      SceneSettings(name, Point(viewportWidth, viewportHeight), Point(targetWidth, targetHeight), renderWidgets,
                    query, futQueryResult, userPause, cullPause, renderablesBuilt, modelMats, ids)
    }

    /** `update_size`: a new render target and viewport of the given size. */
    method UpdateSize(width: int, height: int)
      modifies this
      ensures viewportWidth == width && viewportHeight == height
      ensures targetWidth == width && targetHeight == height
      ensures renderables == old(renderables) && widgetRenderables == old(widgetRenderables)
      ensures query == old(query) && futQueryResult == old(futQueryResult)
      ensures userPause == old(userPause) && cullPause == old(cullPause) && renderWidgets == old(renderWidgets)
      ensures renderablesBuilt == old(renderablesBuilt) && name == old(name)
      ensures modelMats == old(modelMats) && ids == old(ids)
    {
      targetWidth, targetHeight := width, height;
      viewportWidth, viewportHeight := width, height;
    }

    /** `pre_render`: a scene whose viewport is smaller than 2x2 on either
        axis is resized to 2x2 and an error is logged; `logged` tells whether. */
    method PreRender() returns (logged: bool)
      modifies this
      ensures logged <==> old(viewportWidth) < 2 || old(viewportHeight) < 2
      ensures logged ==> viewportWidth == 2 && viewportHeight == 2 && targetWidth == 2 && targetHeight == 2
      ensures !logged ==> viewportWidth == old(viewportWidth) && viewportHeight == old(viewportHeight) &&
                          targetWidth == old(targetWidth) && targetHeight == old(targetHeight)
      ensures viewportWidth >= 2 && viewportHeight >= 2
      ensures renderables == old(renderables) && widgetRenderables == old(widgetRenderables)
      ensures query == old(query) && futQueryResult == old(futQueryResult)
      ensures userPause == old(userPause) && cullPause == old(cullPause) && renderWidgets == old(renderWidgets)
      ensures renderablesBuilt == old(renderablesBuilt) && name == old(name)
      ensures modelMats == old(modelMats) && ids == old(ids)
    {
      logged := viewportWidth < 2 || viewportHeight < 2;
      if logged {
        UpdateSize(2, 2);
      }
    }

    /** `add_renderable`: the renderable is appended; its position stands in
        for the returned pointer. */
    method AddRenderable(r: Renderable) returns (index: nat)
      modifies this
      ensures renderables == old(renderables) + [r] && index == |old(renderables)|
      ensures widgetRenderables == old(widgetRenderables)
      ensures Settings() == old(Settings())
    {
      index := |renderables|;
      renderables := renderables + [r];
    }

    /** `delete_renderable`: exactly the given renderable goes, the others
        keep their order. */
    method DeleteRenderable(index: nat)
      requires index < |renderables|
      modifies this
      ensures renderables == old(renderables[..index]) + old(renderables[index + 1..])
      ensures widgetRenderables == old(widgetRenderables)
      ensures Settings() == old(Settings())
    {
      renderables := renderables[..index] + renderables[index + 1..];
    }

    /** `clear_frame_allocated_renderables`: both lists lose exactly their
        frame-allocated entries and keep the rest in order. */
    method ClearFrameAllocatedRenderables()
      modifies this
      ensures renderables == Filter(old(renderables), Kept)
      ensures widgetRenderables == Filter(old(widgetRenderables), Kept)
      ensures Settings() == old(Settings())
    {
      renderables := EraseFrameAllocated(renderables);
      widgetRenderables := EraseFrameAllocated(widgetRenderables);
    }

    /** `setup_renderables_for_passes`: the resolving renderables are grouped
        by material and mesh, and the two buffers are filled from the groups
        and the widgets. */
    method SetupRenderablesForPasses(cache: GpuAssetCache)
      modifies this
      ensures renderablesBuilt == Build(renderables, cache.meshes.Keys, cache.materials.Keys)
      ensures ids.Length == |Filter(renderables, ResolvesIn(cache.meshes.Keys, cache.materials.Keys))|
      ensures modelMats.Length == ids.Length + |widgetRenderables|
      ensures modelMats[..] == ModelRows(renderablesBuilt, widgetRenderables)
      ensures ids[..] == SelectionIds(Flat(renderablesBuilt))
      ensures renderables == old(renderables) && widgetRenderables == old(widgetRenderables)
      ensures query == old(query) && futQueryResult == old(futQueryResult) && name == old(name)
      ensures userPause == old(userPause) && cullPause == old(cullPause) && renderWidgets == old(renderWidgets)
      ensures viewportWidth == old(viewportWidth) && viewportHeight == old(viewportHeight)
    {
      var built, count := GroupResolving(renderables, cache);
      BuildSize(renderables, cache.meshes.Keys, cache.materials.Keys);
      renderablesBuilt := built;
      modelMats, ids := Pack(renderablesBuilt, count, widgetRenderables);
    }

    /** The grouping loop of `setup_renderables_for_passes`: each renderable
        whose mesh and material are both resident is inserted under its
        material and mesh, and counted. */
    static method GroupResolving(rs: seq<Renderable>, cache: GpuAssetCache) returns (built: Built, count: nat)
      ensures built == Build(rs, cache.meshes.Keys, cache.materials.Keys)
      ensures count == |Flat(built)|
    {
      ghost var meshKeys, materialKeys := cache.meshes.Keys, cache.materials.Keys;
      built, count := [], 0;
      var i := 0;
      while i < |rs|
        invariant 0 <= i <= |rs|
        invariant built == Build(rs[..i], meshKeys, materialKeys)
        invariant count == |Flat(built)|
      {
        var r := rs[i];
        assert rs[..i + 1][..i] == rs[..i];
        if r.materialId in cache.materials && r.meshId in cache.meshes {
          InsertSize(built, r.materialId, r.meshId, Entry(r));
          built := Insert(built, r.materialId, r.meshId, Entry(r));
          count := count + 1;
        }
        i := i + 1;
      }
      assert rs[..i] == rs;
    }

    /** `render`. A paused scene hands back its last image and changes
        nothing. Otherwise every renderable's assets are requested, the batch
        is rebuilt, and the frame's passes and draws are declared; the
        read-back pass is declared, and its future recorded, only when the
        pick query lies inside the viewport. */
    method Render(cache: GpuAssetCache, meshSource: map<Id, MeshGpu>, materialSource: map<Id, MaterialGpu>)
      returns (g: SceneGraph)
      modifies this, cache
      ensures old(cullPause || userPause) ==>
        g == Paused("target_output") && unchanged(this) && unchanged(cache)
      ensures !old(cullPause || userPause) ==>
        && g.Frame?
        && g.output == "target_output"
        && cache.meshes == FillAll(old(cache.meshes),
                                   MeshRequests(renderables) + MeshRequests(widgetRenderables), meshSource)
        && cache.materials == FillAll(old(cache.materials),
                                      MaterialRequests(renderables) + MaterialRequests(widgetRenderables), materialSource)
        && renderablesBuilt == Build(renderables, cache.meshes.Keys, cache.materials.Keys)
        && modelMats[..] == ModelRows(renderablesBuilt, widgetRenderables)
        && ids[..] == SelectionIds(Flat(renderablesBuilt))
        && IsMipChain(g.mips, "voxelization", "voxelization_mipped", VOXEL_MIP_LEVELS)
        && g.passes == ScenePasses(g.mips.blits, InViewport(query, viewportWidth, viewportHeight))
        && Drawable(Groups(renderablesBuilt), cache.meshes)
        && g.draws.sunDepth == InstancedDraws(Groups(renderablesBuilt), cache.meshes)
        && g.draws.voxelization == VoxelizationDraws(Groups(renderablesBuilt), cache.meshes)
        && g.draws.forward == InstancedDraws(Groups(renderablesBuilt), cache.meshes)
        && g.draws.widget == (if renderWidgets
                              then WidgetDraws(widgetRenderables, cache.meshes, cache.materials.Keys, |renderables|)
                              else [])
        && futQueryResult == (if InViewport(query, viewportWidth, viewportHeight)
                              then Some("info_readable") else old(futQueryResult))
      ensures renderables == old(renderables) && widgetRenderables == old(widgetRenderables)
      ensures query == old(query) && name == old(name)
      ensures viewportWidth == old(viewportWidth) && viewportHeight == old(viewportHeight)
      ensures userPause == old(userPause) && cullPause == old(cullPause) && renderWidgets == old(renderWidgets)
    {
      if cullPause || userPause {
        return Paused("target_output");
      }
      PrepareFrame(cache, meshSource, materialSource);
      var withRead := InViewport(query, viewportWidth, viewportHeight);
      g := AssembleGraph(renderablesBuilt, widgetRenderables, cache, renderWidgets, |renderables|, withRead);
      if withRead {
        futQueryResult := Some("info_readable");
      }
    }

    /** The first half of `render`: the uploads of both lists, then the
        batch and the packed buffers over what the cache now holds. */
    method PrepareFrame(cache: GpuAssetCache, meshSource: map<Id, MeshGpu>, materialSource: map<Id, MaterialGpu>)
      modifies this, cache
      ensures cache.meshes == FillAll(old(cache.meshes),
                                      MeshRequests(renderables) + MeshRequests(widgetRenderables), meshSource)
      ensures cache.materials == FillAll(old(cache.materials),
                                         MaterialRequests(renderables) + MaterialRequests(widgetRenderables), materialSource)
      ensures renderablesBuilt == Build(renderables, cache.meshes.Keys, cache.materials.Keys)
      ensures modelMats[..] == ModelRows(renderablesBuilt, widgetRenderables)
      ensures ids[..] == SelectionIds(Flat(renderablesBuilt))
      ensures Drawable(Groups(renderablesBuilt), cache.meshes)
      ensures renderables == old(renderables) && widgetRenderables == old(widgetRenderables)
      ensures query == old(query) && futQueryResult == old(futQueryResult) && name == old(name)
      ensures viewportWidth == old(viewportWidth) && viewportHeight == old(viewportHeight)
      ensures userPause == old(userPause) && cullPause == old(cullPause) && renderWidgets == old(renderWidgets)
    {
      ghost var meshes0, materials0 := cache.meshes, cache.materials;
      UploadAll(renderables, cache, meshSource, materialSource);
      UploadAll(widgetRenderables, cache, meshSource, materialSource);
      FillAllUnion(meshes0, MeshRequests(renderables), MeshRequests(widgetRenderables), meshSource);
      FillAllUnion(materials0, MaterialRequests(renderables), MaterialRequests(widgetRenderables), materialSource);
      SetupRenderablesForPasses(cache);
      BuildDrawable(renderables, cache.meshes, cache.materials.Keys);
    }

    /** The second half of `render`: the passes and the draws each pass
        records. */
    static method AssembleGraph(b: Built, widgets: seq<Renderable>, cache: GpuAssetCache,
                                renderWidgets: bool, start: int, withRead: bool) returns (g: SceneGraph)
      requires Drawable(Groups(b), cache.meshes)
      ensures g.Frame? && g.output == "target_output"
      ensures IsMipChain(g.mips, "voxelization", "voxelization_mipped", VOXEL_MIP_LEVELS)
      ensures g.passes == ScenePasses(g.mips.blits, withRead)
      ensures g.draws.sunDepth == InstancedDraws(Groups(b), cache.meshes)
      ensures g.draws.voxelization == VoxelizationDraws(Groups(b), cache.meshes)
      ensures g.draws.forward == InstancedDraws(Groups(b), cache.meshes)
      ensures g.draws.widget == if renderWidgets then WidgetDraws(widgets, cache.meshes, cache.materials.Keys, start) else []
    {
      var sunDepth := InstancedPassDraws(b, cache.meshes);
      var voxelization := VoxelizationPassDraws(b, cache.meshes);
      var mips := GenerateMips("voxelization", "voxelization_mipped", VOXEL_MIP_LEVELS);
      var forward := InstancedPassDraws(b, cache.meshes);
      var widget := WidgetPassDraws(widgets, cache, renderWidgets, start);
      var passes := [SunDepthPass(), VoxelizationPass()] + mips.blits +
                    [EmitterUpdatePass(), ForwardPass(), WidgetPass(), PostprocessPass()];
      if withRead {
        passes := passes + [ReadPass()];
      }
      g := Frame(passes, mips, FrameDraws(sunDepth, voxelization, forward, widget), "target_output");
    }

    /** The body of the "read" pass, run when the graph executes: the query
        is consumed, so no later frame reads back again until a new one is
        set. */
    method ExecuteReadPass()
      modifies this
      ensures query == NO_QUERY
      ensures !InViewport(query, viewportWidth, viewportHeight)
      ensures renderables == old(renderables) && widgetRenderables == old(widgetRenderables)
      ensures futQueryResult == old(futQueryResult) && renderablesBuilt == old(renderablesBuilt)
      ensures viewportWidth == old(viewportWidth) && viewportHeight == old(viewportHeight)
    {
      query := NO_QUERY;
    }

    /** `quick_mesh`: a renderable for a mesh uploaded with the renderable's
        allocation (its id is `meshId`, its index count `indexCount`), with
        the "widget" material into the widget list after `widget_setup` when
        `widget` is set, and the "default" material into the scene list
        otherwise. `hash` is `hash_view`. */
    method QuickMesh(setup: QuickSetup, cache: GpuAssetCache, meshId: Id, indexCount: nat,
                     frameAllocated: bool, widget: bool, pipeline: nat, hash: string -> Id) returns (r: Renderable)
      modifies this, setup, cache
      ensures r == NewRenderable(meshId, hash(if widget then "widget" else "default"), frameAllocated)
      ensures widget ==> widgetRenderables == old(widgetRenderables) + [r] && renderables == old(renderables)
      ensures !widget ==> renderables == old(renderables) + [r] && widgetRenderables == old(widgetRenderables)
      ensures Settings() == old(Settings())
      ensures setup.widgetUploaded == (old(setup.widgetUploaded) || widget)
      ensures setup.icosphereUploaded == old(setup.icosphereUploaded)
      ensures cache.meshes == old(cache.meshes)[meshId := MeshGpu(indexCount, frameAllocated)]
      ensures widget ==> cache.materials == AfterWidgetSetup(old(setup.widgetUploaded), old(cache.materials), pipeline, hash)
      ensures !widget ==> cache.materials == old(cache.materials)
      ensures cache.textures == old(cache.textures) && cache.paths == old(cache.paths)
      ensures old(SetupResident(setup, cache, hash)) ==> SetupResident(setup, cache, hash)
      ensures widget && old(SetupResident(setup, cache, hash)) ==> Resolves(r, cache.meshes.Keys, cache.materials.Keys)
    {
      if widget {
        WidgetSetup(setup, cache, pipeline, hash);
      }
      r := NewRenderable(meshId, hash(if widget then "widget" else "default"), frameAllocated);
      cache.UploadMesh(meshId, MeshGpu(indexCount, frameAllocated));
      if widget {
        widgetRenderables := widgetRenderables + [r];
      } else {
        renderables := renderables + [r];
      }
    }

    /** `quick_material`: after `material_setup`, a renderable drawing the
        material (uploaded with the renderable's allocation under
        `materialId`, on pipeline `pipeline`) on the three-round icosphere. */
    method QuickMaterial(setup: QuickSetup, cache: GpuAssetCache, materialId: Id, pipeline: nat,
                         frameAllocated: bool, hash: string -> Id) returns (r: Renderable)
      modifies this, setup, cache
      ensures r == NewRenderable(hash(IcospherePath(3)), materialId, frameAllocated)
      ensures renderables == old(renderables) + [r] && widgetRenderables == old(widgetRenderables)
      ensures Settings() == old(Settings())
      ensures setup.icosphereUploaded && setup.widgetUploaded == old(setup.widgetUploaded)
      ensures cache.meshes == AfterMaterialSetup(old(setup.icosphereUploaded), old(cache.meshes), hash)
      ensures cache.materials == old(cache.materials)[materialId := MaterialGpu(pipeline, frameAllocated)]
      ensures cache.textures == old(cache.textures) && cache.paths == old(cache.paths)
      ensures old(SetupResident(setup, cache, hash)) ==>
        SetupResident(setup, cache, hash) && Resolves(r, cache.meshes.Keys, cache.materials.Keys)
    {
      MaterialSetup(setup, cache, hash);
      r := NewRenderable(hash("icosphere_subdivisions:3"), materialId, frameAllocated);
      assert IcospherePath(3) == "icosphere_subdivisions:3";
      cache.UploadMaterial(materialId, MaterialGpu(pipeline, frameAllocated));
      renderables := renderables + [r];
    }

    /** The three `quick_renderable` overloads: after `material_setup`, a
        renderable of the given mesh and material ids, the overloads taking
        a mesh or a material uploading it first. */
    method QuickRenderable(setup: QuickSetup, cache: GpuAssetCache, meshId: Id, materialId: Id,
                           upload: QuickUpload, frameAllocated: bool, hash: string -> Id) returns (r: Renderable)
      modifies this, setup, cache
      ensures r == NewRenderable(meshId, materialId, frameAllocated)
      ensures renderables == old(renderables) + [r] && widgetRenderables == old(widgetRenderables)
      ensures Settings() == old(Settings())
      ensures setup.icosphereUploaded && setup.widgetUploaded == old(setup.widgetUploaded)
      ensures var m := AfterMaterialSetup(old(setup.icosphereUploaded), old(cache.meshes), hash);
        cache.meshes == if upload.UploadsMesh? then m[meshId := MeshGpu(upload.indexCount, false)] else m
      ensures cache.materials ==
        if upload.UploadsMaterial? then old(cache.materials)[materialId := MaterialGpu(upload.pipeline, false)]
        else old(cache.materials)
      ensures cache.textures == old(cache.textures) && cache.paths == old(cache.paths)
      ensures old(SetupResident(setup, cache, hash)) ==> SetupResident(setup, cache, hash)
      ensures upload.UploadsMesh? ==> r.meshId in cache.meshes
      ensures upload.UploadsMaterial? ==> r.materialId in cache.materials
    {
      MaterialSetup(setup, cache, hash);
      match upload {
        case GivenIds =>
        case UploadsMesh(n) => cache.UploadMesh(meshId, MeshGpu(n, false));
        case UploadsMaterial(p) => cache.UploadMaterial(materialId, MaterialGpu(p, false));
      }
      r := NewRenderable(meshId, materialId, frameAllocated);
      renderables := renderables + [r];
    }
  }
}
