/** `Renderer`: the process-wide frame scheduler. It owns the scene list, the
    queue of pending upload futures, the suspend flag and the stage of the
    frame in flight. Device, swapchain and submission work is reduced to the
    events it contributes to a frame's trace. */
module Frame {
  import opened Common
  import opened GpuAssets
  import opened Renderables
  import opened RenderGraph
  import opened Scene
  import opened Timing

  datatype Stage = Inactive | Setup | BuildingRG | Presenting

  /** A pending GPU upload (`vuk::Future`), known only by a tag. */
  datatype Future = Future(tag: nat)

  /** A window size (`v2i`). */
  datatype Size = Size(x: int, y: int)

  /** The steps of a frame or of setup that the model records, in order. */
  datatype Event =
    | WaitedForFutures(count: nat)
    | EnteredStage(stage: Stage)
    | DefaultsUploaded
    | SceneSetUp(scene: nat)
    | ScenePreRendered(scene: nat)
    | EmptySceneNameReported(scene: nat)
    | SceneRendered(scene: nat)
    | Presented
    | SceneSwept(scene: nat)
    | AssetsSwept
    | FrameAllocatorReset

  /** Removing a scene that was just added, and was not there before,
      restores the list. */
  lemma {:induction false} AddThenRemove<T>(s: seq<T>, x: T)
    requires x !in s
    ensures RemoveFirst(s + [x], x) == s
    decreases |s|
  {
    if s != [] {
      var t := s + [x];
      assert t[0] == s[0] != x;
      assert t[1..] == s[1..] + [x];
      assert RemoveFirst(t, x) == [s[0]] + RemoveFirst(s[1..] + [x], x);
      AddThenRemove(s[1..], x);
      assert s == [s[0]] + s[1..];
    }
  }

  function SceneNames(ss: seq<RenderScene>): (names: seq<string>)
    reads ss
    ensures |names| == |ss| && forall i :: 0 <= i < |ss| ==> names[i] == ss[i].name
  {
    seq(|ss|, i reads ss requires 0 <= i < |ss| => ss[i].name)
  }

  /** Whether each scene is paused, by either flag. */
  function PauseFlags(ss: seq<RenderScene>): (ps: seq<bool>)
    reads ss
    ensures |ps| == |ss| && forall i :: 0 <= i < |ss| ==> ps[i] == (ss[i].cullPause || ss[i].userPause)
  {
    seq(|ss|, i reads ss requires 0 <= i < |ss| => ss[i].cullPause || ss[i].userPause)
  }

  function RenderableLists(ss: seq<RenderScene>): (ls: seq<seq<Renderable>>)
    reads ss
    ensures |ls| == |ss| && forall i :: 0 <= i < |ss| ==> ls[i] == ss[i].renderables
  {
    seq(|ss|, i reads ss requires 0 <= i < |ss| => ss[i].renderables)
  }

  function WidgetLists(ss: seq<RenderScene>): (ls: seq<seq<Renderable>>)
    reads ss
    ensures |ls| == |ss| && forall i :: 0 <= i < |ss| ==> ls[i] == ss[i].widgetRenderables
  {
    seq(|ss|, i reads ss requires 0 <= i < |ss| => ss[i].widgetRenderables)
  }

  /** One sampled `<name>_final` input per scene, in scene order. */
  function FinalInputs(names: seq<string>): (rs: seq<Resource>)
    ensures |rs| == |names|
  {
    seq(|names|, i requires 0 <= i < |names| => Use(names[i] + "_final", FragmentSampled))
  }

  /** The `force_transition` pass: the swapchain image written and handed on
      as "SWAPCHAIN++", and every scene's final image sampled. */
  function ForceTransition(names: seq<string>): Pass
  {
    Pass("force_transition", [Produce("SWAPCHAIN+", ColorWrite, "SWAPCHAIN++")] + FinalInputs(names))
  }

  /** Scenes with distinct names give the `force_transition` pass distinct
      resources, none of which is the swapchain. */
  lemma {:induction false} ForceTransitionDistinct(names: seq<string>)
    requires forall i, j :: 0 <= i < j < |names| ==> names[i] != names[j]
    ensures var rs := ForceTransition(names).resources;
      forall i, j :: 0 <= i < j < |rs| ==> rs[i].name != rs[j].name
  {
    var rs := ForceTransition(names).resources;
    forall i, j | 0 <= i < j < |rs| ensures rs[i].name != rs[j].name {
      var b := names[j - 1] + "_final";
      assert rs[j].name == b;
      if i == 0 {
        assert rs[i].name[|rs[i].name| - 1] == '+';
        assert b[|b| - 1] == 'l';
      } else {
        var a := names[i - 1] + "_final";
        assert rs[i].name == a;
        assert a[..|a| - 6] == names[i - 1];
        assert b[..|b| - 6] == names[j - 1];
      }
    }
  }

  /** The events of one scene inside a frame: `pre_render`, the report of an
      empty name, the scene's own `wait_for_futures` when it is not paused,
      and the scene's graph. The wait is recorded with a count of 0: the
      frame drained the futures before its scene loop, and in this model the
      scene's uploads (`Fill`) enqueue none. That the cache's upload path
      enqueues no future is an assumption of the model. */
  function SceneStep(i: nat, name: string, paused: bool): seq<Event>
  {
    [ScenePreRendered(i)] + (if name == "" then [EmptySceneNameReported(i)] else []) +
    (if paused then [] else [WaitedForFutures(0)]) + [SceneRendered(i)]
  }

  function SceneSteps(names: seq<string>, paused: seq<bool>): seq<Event>
    requires |paused| == |names|
    decreases |names|
  {
    if names == [] then []
    else
      var n := |names| - 1;
      SceneSteps(names[..n], paused[..n]) + SceneStep(n, names[n], paused[n])
  }

  function Sweeps(n: nat): (es: seq<Event>)
    ensures |es| == n
  {
    seq(n, i requires 0 <= i < n => SceneSwept(i))
  }

  function SetUps(n: nat): (es: seq<Event>)
    ensures |es| == n
  {
    seq(n, i requires 0 <= i < n => SceneSetUp(i))
  }

  /** The whole trace of a frame that runs: drain the futures, build every
      scene's graph, present, then sweep scenes, assets and the frame
      allocator, in that order. */
  function FrameTrace(waited: nat, names: seq<string>, paused: seq<bool>): seq<Event>
    requires |paused| == |names|
  {
    [WaitedForFutures(waited), EnteredStage(BuildingRG)] + SceneSteps(names, paused) +
    [EnteredStage(Presenting), Presented] + Sweeps(|names|) +
    [AssetsSwept, FrameAllocatorReset, EnteredStage(Inactive)]
  }

  /** The stage changes a trace records, in order. */
  function Stages(es: seq<Event>): seq<Stage>
    decreases |es|
  {
    if es == [] then []
    else (if es[0].EnteredStage? then [es[0].stage] else []) + Stages(es[1..])
  }

  lemma {:induction false} StagesAppend(a: seq<Event>, b: seq<Event>)
    ensures Stages(a + b) == Stages(a) + Stages(b)
    decreases |a|
  {
    if a == [] {
      assert a + b == b;
    } else {
      assert (a + b)[0] == a[0];
      assert (a + b)[1..] == a[1..] + b;
      StagesAppend(a[1..], b);
    }
  }

  lemma {:induction false} StagesNone(es: seq<Event>)
    requires forall i :: 0 <= i < |es| ==> !es[i].EnteredStage?
    ensures Stages(es) == []
    decreases |es|
  {
    if es != [] {
      StagesNone(es[1..]);
    }
  }

  lemma {:induction false} SceneStepsNoStage(names: seq<string>, paused: seq<bool>)
    requires |paused| == |names|
    ensures forall i :: 0 <= i < |SceneSteps(names, paused)| ==> !SceneSteps(names, paused)[i].EnteredStage?
    decreases |names|
  {
    if names != [] {
      SceneStepsNoStage(names[..|names| - 1], paused[..|names| - 1]);
    }
  }

  /** A frame that runs goes through BuildingRG, then Presenting, and ends
      Inactive, with no other stage change. */
  lemma {:induction false} FrameStages(waited: nat, names: seq<string>, paused: seq<bool>)
    requires |paused| == |names|
    ensures Stages(FrameTrace(waited, names, paused)) == [BuildingRG, Presenting, Inactive]
  {
    var steps := SceneSteps(names, paused);
    SceneStepsNoStage(names, paused);
    StagesNone(steps);
    StagesNone(Sweeps(|names|));
    var a := [WaitedForFutures(waited), EnteredStage(BuildingRG)];
    var c := [EnteredStage(Presenting), Presented];
    var e := [AssetsSwept, FrameAllocatorReset, EnteredStage(Inactive)];
    StagesAppend(a, steps);
    StagesAppend(a + steps, c);
    StagesAppend(a + steps + c, Sweeps(|names|));
    StagesAppend(a + steps + c + Sweeps(|names|), e);
    assert Stages(a) == [BuildingRG] by {
      assert Stages(a[1..]) == [BuildingRG] + Stages(a[2..]);
    }
    assert Stages(c) == [Presenting] by {
      assert Stages(c[1..]) == Stages(c[2..]);
    }
    assert Stages(e) == [Inactive] by {
      assert Stages(e[1..]) == Stages(e[2..]);
      assert Stages(e[2..]) == [Inactive] + Stages(e[3..]);
    }
  }

  /** How many times a trace drains the futures. */
  function Waits(es: seq<Event>): nat
    decreases |es|
  {
    if es == [] then 0
    else (if es[0].WaitedForFutures? then 1 else 0) + Waits(es[1..])
  }

  /** How many scenes are not paused. */
  function Unpaused(paused: seq<bool>): (n: nat)
    ensures n <= |paused|
    decreases |paused|
  {
    if paused == [] then 0
    else Unpaused(paused[..|paused| - 1]) + (if paused[|paused| - 1] then 0 else 1)
  }

  lemma {:induction false} WaitsAppend(a: seq<Event>, b: seq<Event>)
    ensures Waits(a + b) == Waits(a) + Waits(b)
    decreases |a|
  {
    if a == [] {
      assert a + b == b;
    } else {
      assert (a + b)[0] == a[0];
      assert (a + b)[1..] == a[1..] + b;
      WaitsAppend(a[1..], b);
    }
  }

  lemma {:induction false} SceneStepsWaits(names: seq<string>, paused: seq<bool>)
    requires |paused| == |names|
    ensures Waits(SceneSteps(names, paused)) == Unpaused(paused)
    decreases |names|
  {
    if names != [] {
      var n := |names| - 1;
      SceneStepsWaits(names[..n], paused[..n]);
      var step := SceneStep(n, names[n], paused[n]);
      WaitsAppend(SceneSteps(names[..n], paused[..n]), step);
      var head := [ScenePreRendered(n)] + (if names[n] == "" then [EmptySceneNameReported(n)] else []);
      var wait: seq<Event> := if paused[n] then [] else [WaitedForFutures(0)];
      WaitsAppend(head, wait + [SceneRendered(n)]);
      WaitsAppend(wait, [SceneRendered(n)]);
      assert step == head + (wait + [SceneRendered(n)]);
      assert Waits(head) == 0 by {
        assert head[1..] == [] || head[1..] == [EmptySceneNameReported(n)];
      }
    }
  }

  /** A frame drains the futures once before its scene loop, and each scene
      that is not paused drains them again inside its own `render`. */
  lemma {:induction false} FrameWaits(waited: nat, names: seq<string>, paused: seq<bool>)
    requires |paused| == |names|
    ensures Waits(FrameTrace(waited, names, paused)) == 1 + Unpaused(paused)
  {
    var steps := SceneSteps(names, paused);
    SceneStepsWaits(names, paused);
    var a := [WaitedForFutures(waited), EnteredStage(BuildingRG)];
    var c := [EnteredStage(Presenting), Presented];
    var e := [AssetsSwept, FrameAllocatorReset, EnteredStage(Inactive)];
    var sw := Sweeps(|names|);
    WaitsAppend(a, steps);
    WaitsAppend(a + steps, c);
    WaitsAppend(a + steps + c, sw);
    WaitsAppend(a + steps + c + sw, e);
    SweepsNoWait(|names|);
    assert Waits(a) == 1 by {
      assert a[1..][1..] == [];
    }
    assert Waits(c) == 0 by {
      assert c[1..][1..] == [];
    }
    assert Waits(e) == 0 by {
      assert e[1..][1..][1..] == [];
    }
  }

  lemma {:induction false} SweepsNoWait(n: nat)
    ensures Waits(Sweeps(n)) == 0
    decreases n
  {
    if n > 0 {
      assert Sweeps(n) == Sweeps(n - 1) + [SceneSwept(n - 1)];
      SweepsNoWait(n - 1);
      WaitsAppend(Sweeps(n - 1), [SceneSwept(n - 1)]);
    }
  }

  ghost predicate Swept(now: seq<Renderable>, before: seq<Renderable>)
  {
    now == Filter(before, Kept)
  }

  ghost predicate SweptOrNot(now: seq<Renderable>, before: seq<Renderable>)
  {
    now == before || Swept(now, before)
  }

  /** One scene's sweep, which is idempotent: sweeping a scene listed
      twice changes nothing the second time. */
  method SweepOne(scene: RenderScene)
    modifies scene
    ensures forall r0, w0 :: SweptOrNot(old(scene.renderables), r0) && SweptOrNot(old(scene.widgetRenderables), w0) ==>
      Swept(scene.renderables, r0) && Swept(scene.widgetRenderables, w0)
  {
    ghost var r, w := scene.renderables, scene.widgetRenderables;
    scene.ClearFrameAllocatedRenderables();
    forall r0, w0 | SweptOrNot(r, r0) && SweptOrNot(w, w0)
      ensures Swept(scene.renderables, r0) && Swept(scene.widgetRenderables, w0)
    {
      FilterIdempotent(r0, Kept);
      FilterIdempotent(w0, Kept);
    }
  }

  /** The asset sweep at the end of a frame: no frame-allocated entry
      survives, in any of the three maps. */
  method SweepAssets(cache: GpuAssetCache)
    modifies cache
    ensures NoFrameAllocated(cache)
  {
    cache.ClearFrameAllocatedAssets();
  }

  ghost predicate NoFrameAllocated(cache: GpuAssetCache)
    reads cache
  {
    && (forall k :: k in cache.meshes ==> !cache.meshes[k].frameAllocated)
    && (forall k :: k in cache.materials ==> !cache.materials[k].frameAllocated)
    && (forall k :: k in cache.textures ==> !cache.textures[k].frameAllocated)
  }

  /** One scene's turn in the scene loop of `render`. */
  method RenderOne(scene: RenderScene, i: nat, cache: GpuAssetCache,
                   meshSource: map<Id, MeshGpu>, materialSource: map<Id, MaterialGpu>)
    returns (step: seq<Event>, g: SceneGraph)
    modifies scene, cache
    ensures step == SceneStep(i, old(scene.name), old(scene.cullPause || scene.userPause))
    ensures scene.name == old(scene.name)
    ensures g.Paused? <==> old(scene.cullPause || scene.userPause)
    ensures scene.renderables == old(scene.renderables) && scene.widgetRenderables == old(scene.widgetRenderables)
    ensures scene.cullPause == old(scene.cullPause) && scene.userPause == old(scene.userPause)
  {
    var _ := scene.PreRender();
    var report: seq<Event> := if scene.name == "" then [EmptySceneNameReported(i)] else [];
    var wait: seq<Event> := if !(scene.cullPause || scene.userPause) then [WaitedForFutures(0)] else [];
    g := scene.Render(cache, meshSource, materialSource);
    step := [ScenePreRendered(i)] + report + wait + [SceneRendered(i)];
  }

  /** One more scene extends the trace and the `force_transition` inputs of
      the scenes before it by that scene's own step and final image. */
  lemma ScenePrefixExtends(names: seq<string>, paused: seq<bool>, i: nat)
    requires |paused| == |names| && i < |names|
    ensures SceneSteps(names[..i + 1], paused[..i + 1])
         == SceneSteps(names[..i], paused[..i]) + SceneStep(i, names[i], paused[i])
    ensures FinalInputs(names[..i + 1]) == FinalInputs(names[..i]) + [Use(names[i] + "_final", FragmentSampled)]
  {
    assert names[..i + 1][..i] == names[..i] && paused[..i + 1][..i] == paused[..i];
  }

  /** The scene loop of `render`: each scene is pre-rendered, reports an
      empty name, builds its graph, and contributes its `_final` image to
      the `force_transition` pass. */
  method BuildSceneGraphs(ss: seq<RenderScene>, ghost names: seq<string>, ghost paused: seq<bool>,
                          ghost lists: seq<seq<Renderable>>, ghost widgets: seq<seq<Renderable>>,
                          cache: GpuAssetCache, meshSource: map<Id, MeshGpu>, materialSource: map<Id, MaterialGpu>)
    returns (inputs: seq<Resource>, graphs: seq<SceneGraph>, steps: seq<Event>)
    requires |names| == |paused| == |lists| == |widgets| == |ss|
    requires forall i :: 0 <= i < |ss| ==>
      ss[i].name == names[i] && (ss[i].cullPause || ss[i].userPause) == paused[i] &&
      ss[i].renderables == lists[i] && ss[i].widgetRenderables == widgets[i]
    modifies cache, ss
    ensures inputs == FinalInputs(names)
    ensures steps == SceneSteps(names, paused)
    ensures |graphs| == |ss|
    ensures forall i :: 0 <= i < |ss| ==> (graphs[i].Paused? <==> paused[i])
    ensures forall i :: 0 <= i < |ss| ==>
      ss[i].renderables == lists[i] && ss[i].widgetRenderables == widgets[i]
  {
    inputs, graphs, steps := [], [], [];
    var i := 0;
    while i < |ss|
      invariant 0 <= i <= |ss|
      invariant steps == SceneSteps(names[..i], paused[..i])
      invariant inputs == FinalInputs(names[..i])
      invariant |graphs| == i
      invariant forall j :: 0 <= j < i ==> (graphs[j].Paused? <==> paused[j])
      invariant forall j :: 0 <= j < |ss| ==>
        ss[j].name == names[j] && (ss[j].cullPause || ss[j].userPause) == paused[j] &&
        ss[j].renderables == lists[j] && ss[j].widgetRenderables == widgets[j]
    {
      var scene := ss[i];
      label Before:
      var step, g := RenderOne(scene, i, cache, meshSource, materialSource);
      forall j | 0 <= j < |ss|
        ensures ss[j].name == names[j] && (ss[j].cullPause || ss[j].userPause) == paused[j]
        ensures ss[j].renderables == lists[j] && ss[j].widgetRenderables == widgets[j]
      {
        if ss[j] != scene {
          assert ss[j].name == old@Before(ss[j].name);
          assert ss[j].cullPause == old@Before(ss[j].cullPause) && ss[j].userPause == old@Before(ss[j].userPause);
          assert ss[j].renderables == old@Before(ss[j].renderables);
          assert ss[j].widgetRenderables == old@Before(ss[j].widgetRenderables);
        }
      }
      ScenePrefixExtends(names, paused, i);
      steps := steps + step;
      graphs := graphs + [g];
      inputs := inputs + [Use(scene.name + "_final", FragmentSampled)];
      i := i + 1;
    }
    assert names[..i] == names && paused[..i] == paused;
  }

  /** The scene sweep of `render`: every scene drops its frame-allocated
      renderables and widgets. A scene listed twice is swept twice, which
      changes nothing the second time. */
  method SweepScenes(ss: seq<RenderScene>, ghost lists: seq<seq<Renderable>>, ghost widgets: seq<seq<Renderable>>)
    returns (sweeps: seq<Event>)
    requires |lists| == |widgets| == |ss|
    requires forall i :: 0 <= i < |ss| ==>
      ss[i].renderables == lists[i] && ss[i].widgetRenderables == widgets[i]
    modifies ss
    ensures sweeps == Sweeps(|ss|)
    ensures forall i :: 0 <= i < |ss| ==>
      ss[i].renderables == Filter(lists[i], Kept) && ss[i].widgetRenderables == Filter(widgets[i], Kept)
  {
    var i := 0;
    while i < |ss|
      invariant 0 <= i <= |ss|
      invariant forall j :: 0 <= j < i ==>
        Swept(ss[j].renderables, lists[j]) && Swept(ss[j].widgetRenderables, widgets[j])
      invariant forall j :: i <= j < |ss| ==>
        SweptOrNot(ss[j].renderables, lists[j]) && SweptOrNot(ss[j].widgetRenderables, widgets[j])
    {
      var scene := ss[i];
      label Before:
      SweepOne(scene);
      forall j | 0 <= j < |ss|
        ensures j <= i ==> Swept(ss[j].renderables, lists[j]) && Swept(ss[j].widgetRenderables, widgets[j])
        ensures SweptOrNot(ss[j].renderables, lists[j]) && SweptOrNot(ss[j].widgetRenderables, widgets[j])
      {
        assert SweptOrNot(old@Before(ss[j].renderables), lists[j]);
        assert SweptOrNot(old@Before(ss[j].widgetRenderables), widgets[j]);
        if ss[j] != scene {
          assert ss[j].renderables == old@Before(ss[j].renderables);
          assert ss[j].widgetRenderables == old@Before(ss[j].widgetRenderables);
        }
      }
      i := i + 1;
    }
    sweeps := Sweeps(|ss|);
  }

  /** The scene work of a frame: every scene's graph, then (after the
      present, which the model does not see) the scene and asset sweeps. */
  method DrawFrame(ss: seq<RenderScene>, ghost names: seq<string>, ghost paused: seq<bool>,
                   ghost lists: seq<seq<Renderable>>, ghost widgets: seq<seq<Renderable>>,
                   cache: GpuAssetCache, meshSource: map<Id, MeshGpu>, materialSource: map<Id, MaterialGpu>)
    returns (inputs: seq<Resource>, graphs: seq<SceneGraph>, steps: seq<Event>, sweeps: seq<Event>)
    requires |names| == |paused| == |lists| == |widgets| == |ss|
    requires forall i :: 0 <= i < |ss| ==>
      ss[i].name == names[i] && (ss[i].cullPause || ss[i].userPause) == paused[i] &&
      ss[i].renderables == lists[i] && ss[i].widgetRenderables == widgets[i]
    modifies cache, ss
    ensures inputs == FinalInputs(names) && steps == SceneSteps(names, paused) && sweeps == Sweeps(|ss|)
    ensures |graphs| == |ss|
    ensures forall i :: 0 <= i < |ss| ==> (graphs[i].Paused? <==> paused[i])
    ensures forall i :: 0 <= i < |ss| ==>
      ss[i].renderables == Filter(lists[i], Kept) && ss[i].widgetRenderables == Filter(widgets[i], Kept)
    ensures NoFrameAllocated(cache)
  {
    inputs, graphs, steps := BuildSceneGraphs(ss, names, paused, lists, widgets, cache, meshSource, materialSource);
    sweeps := SweepScenes(ss, lists, widgets);
    SweepAssets(cache);
  }

  class Renderer {
    var stage: Stage
    var scenes: seq<RenderScene>
    var futures: seq<Future>
    var suspend: bool
    var frameTimer: FrameTimer

    constructor ()
      ensures stage == Stage.Setup && scenes == [] && futures == [] && !suspend
      ensures fresh(frameTimer) && frameTimer.Valid()
    {
      stage := Stage.Setup;
      scenes := [];
      futures := [];
      suspend := false;
      frameTimer := new FrameTimer();
    }

    /** `enqueue_setup`: exactly one future joins the queue. */
    method EnqueueSetup(f: Future)
      modifies this
      ensures futures == old(futures) + [f]
      ensures stage == old(stage) && scenes == old(scenes) && suspend == old(suspend)
    {
      futures := futures + [f];
    }

    /** `wait_for_futures`: every queued future is waited on, and the queue
        ends empty. */
    method WaitForFutures() returns (waited: seq<Future>)
      modifies this
      ensures waited == old(futures) && futures == []
      ensures stage == old(stage) && scenes == old(scenes) && suspend == old(suspend)
      ensures frameTimer == old(frameTimer)
    {
      waited := futures;
      futures := [];
    }

    /** `add_scene`: the scene is appended, and set up on the spot unless
        the renderer itself is still in setup (which sets up every scene). */
    method AddScene(scene: RenderScene) returns (setUpNow: bool)
      modifies this
      ensures scenes == old(scenes) + [scene]
      ensures setUpNow <==> stage != Stage.Setup
      ensures stage == old(stage) && futures == old(futures) && suspend == old(suspend)
    {
      scenes := scenes + [scene];
      setUpNow := stage != Stage.Setup;
    }

    /** `remove_scene`: the scene's (empty) cleanup, then its first
        occurrence leaves the list. */
    method RemoveScene(scene: RenderScene)
      modifies this
      ensures scenes == RemoveFirst(old(scenes), scene)
      ensures stage == old(stage) && futures == old(futures) && suspend == old(suspend)
    {
      scenes := RemoveFirst(scenes, scene);
    }

    /** `setup`: the GPU asset cache's defaults are uploaded, every scene is
        set up, the futures are drained, and only then does the renderer
        leave the Setup stage. */
    method Setup() returns (events: seq<Event>)
      modifies this
      ensures stage == Inactive && futures == [] && scenes == old(scenes) && suspend == old(suspend)
      ensures events == [DefaultsUploaded] + SetUps(|scenes|) + [WaitedForFutures(|old(futures)|), EnteredStage(Inactive)]
    {
      events := [DefaultsUploaded];
      var i := 0;
      while i < |scenes|
        invariant 0 <= i <= |scenes| && scenes == old(scenes) && futures == old(futures)
        invariant events == [DefaultsUploaded] + SetUps(i)
      {
        assert SetUps(i + 1) == SetUps(i) + [SceneSetUp(i)];
        events := events + [SceneSetUp(i)];
        i := i + 1;
      }
      var waited := WaitForFutures();
      events := events + [WaitedForFutures(|waited|)];
      stage := Inactive;
      events := events + [EnteredStage(Inactive)];
    }

    /** `resize`: a zero size only suspends rendering; any other size
        rebuilds the swapchain and resumes. */
    method Resize(size: Size) returns (rebuilt: bool)
      modifies this
      ensures rebuilt <==> size != Size(0, 0)
      ensures suspend <==> size == Size(0, 0)
      ensures stage == old(stage) && scenes == old(scenes) && futures == old(futures)
      ensures frameTimer == old(frameTimer)
    {
      if size == Size(0, 0) {
        suspend := true;
        return false;
      }
      suspend := false;
      rebuilt := true;
    }

    /** `update`: while suspended, each window event is a resize delivered
        by `glfwWaitEvents`; the loop ends at the first non-zero size. Then
        the frame timer ticks. `consumed` counts the events taken. */
    method Update(pending: seq<Size>, now: real) returns (consumed: nat)
      requires frameTimer.Valid()
      requires suspend ==> exists k :: 0 <= k < |pending| && pending[k] != Size(0, 0)
      modifies this, frameTimer, frameTimer.frameTimes, frameTimer.deltaTimes
      ensures !suspend && frameTimer == old(frameTimer) && frameTimer.Valid()
      ensures frameTimer.updates == old(frameTimer.updates) + 1
      ensures consumed <= |pending|
      ensures old(suspend) ==> consumed >= 1 && pending[consumed - 1] != Size(0, 0)
      ensures forall k :: 0 <= k < consumed - 1 ==> pending[k] == Size(0, 0)
      ensures !old(suspend) ==> consumed == 0
      ensures stage == old(stage) && scenes == old(scenes) && futures == old(futures)
    {
      consumed := 0;
      while suspend
        modifies this
        invariant consumed <= |pending| && frameTimer == old(frameTimer)
        invariant suspend ==> forall k :: 0 <= k < consumed ==> pending[k] == Size(0, 0)
        invariant suspend ==> exists k :: consumed <= k < |pending| && pending[k] != Size(0, 0)
        invariant !suspend && old(suspend) ==> consumed >= 1 && pending[consumed - 1] != Size(0, 0)
        invariant !suspend ==> forall k :: 0 <= k < consumed - 1 ==> pending[k] == Size(0, 0)
        invariant !old(suspend) ==> consumed == 0 && !suspend
        invariant stage == old(stage) && scenes == old(scenes) && futures == old(futures)
        decreases |pending| - consumed
      {
        var _ := Resize(pending[consumed]);
        consumed := consumed + 1;
      }
      frameTimer.Update(now);
    }

    /** `render`. Outside the Inactive stage nothing happens. Otherwise the
        futures are drained, every scene is pre-rendered and renders its
        graph into the `force_transition` pass, the frame is presented, and
        then scenes, assets and the frame allocator are swept in that order. */
    method Render(cache: GpuAssetCache, meshSource: map<Id, MeshGpu>, materialSource: map<Id, MaterialGpu>)
      returns (ran: bool, forceTransition: Pass, graphs: seq<SceneGraph>, events: seq<Event>)
      modifies this, cache, scenes
      ensures ran <==> old(stage) == Inactive
      ensures !ran ==> unchanged(this) && unchanged(cache) && events == []
      ensures !ran ==> forall s :: s in scenes ==> unchanged(s)
      ensures ran ==> stage == Inactive && futures == [] && scenes == old(scenes) && suspend == old(suspend)
      ensures ran ==> events == FrameTrace(|old(futures)|, old(SceneNames(scenes)), old(PauseFlags(scenes)))
      ensures ran ==> forceTransition == ForceTransition(old(SceneNames(scenes)))
      ensures ran ==> |graphs| == |scenes|
      ensures ran ==> forall i :: 0 <= i < |scenes| ==> (graphs[i].Paused? <==> old(scenes[i].cullPause || scenes[i].userPause))
      ensures ran ==> forall i :: 0 <= i < |scenes| ==>
        scenes[i].renderables == Filter(old(scenes[i].renderables), Kept) &&
        scenes[i].widgetRenderables == Filter(old(scenes[i].widgetRenderables), Kept)
      ensures ran ==> NoFrameAllocated(cache)
    {
      if stage != Inactive {
        return false, Pass("force_transition", []), [], [];
      }
      ran := true;
      forceTransition, graphs, events := RunFrame(SceneNames(scenes), PauseFlags(scenes),
        RenderableLists(scenes), WidgetLists(scenes), cache, meshSource, materialSource);
    }

    /** The frame proper, once `render` has found the renderer Inactive.
        The ghost parameters are the scenes' names, pause flags and lists
        as the frame starts. */
    method RunFrame(ghost names: seq<string>, ghost paused: seq<bool>,
                    ghost lists: seq<seq<Renderable>>, ghost widgets: seq<seq<Renderable>>,
                    cache: GpuAssetCache, meshSource: map<Id, MeshGpu>, materialSource: map<Id, MaterialGpu>)
      returns (forceTransition: Pass, graphs: seq<SceneGraph>, events: seq<Event>)
      requires stage == Inactive
      requires |names| == |paused| == |lists| == |widgets| == |scenes|
      requires forall i :: 0 <= i < |scenes| ==>
        scenes[i].name == names[i] && (scenes[i].cullPause || scenes[i].userPause) == paused[i] &&
        scenes[i].renderables == lists[i] && scenes[i].widgetRenderables == widgets[i]
      modifies this, cache, scenes
      ensures stage == Inactive && futures == [] && scenes == old(scenes) && suspend == old(suspend)
      ensures events == FrameTrace(|old(futures)|, names, paused)
      ensures forceTransition == ForceTransition(names)
      ensures |graphs| == |scenes|
      ensures forall i :: 0 <= i < |scenes| ==> (graphs[i].Paused? <==> paused[i])
      ensures forall i :: 0 <= i < |scenes| ==>
        scenes[i].renderables == Filter(lists[i], Kept) && scenes[i].widgetRenderables == Filter(widgets[i], Kept)
      ensures NoFrameAllocated(cache)
    {
      var waited := WaitForFutures();
      stage := BuildingRG;
      forceTransition, graphs, events :=
        BuildAndPresent(|waited|, scenes, names, paused, lists, widgets, cache, meshSource, materialSource);
      stage := Inactive;
    }

    /** The frame once the futures are drained: every scene's graph, the
        force-transition pass over their final images, and the sweeps. */
    static method BuildAndPresent(waited: nat, ss: seq<RenderScene>, ghost names: seq<string>, ghost paused: seq<bool>,
                                  ghost lists: seq<seq<Renderable>>, ghost widgets: seq<seq<Renderable>>,
                                  cache: GpuAssetCache, meshSource: map<Id, MeshGpu>, materialSource: map<Id, MaterialGpu>)
      returns (forceTransition: Pass, graphs: seq<SceneGraph>, events: seq<Event>)
      requires |names| == |paused| == |lists| == |widgets| == |ss|
      requires forall i :: 0 <= i < |ss| ==>
        ss[i].name == names[i] && (ss[i].cullPause || ss[i].userPause) == paused[i] &&
        ss[i].renderables == lists[i] && ss[i].widgetRenderables == widgets[i]
      modifies cache, ss
      ensures events == FrameTrace(waited, names, paused)
      ensures forceTransition == ForceTransition(names)
      ensures |graphs| == |ss|
      ensures forall i :: 0 <= i < |ss| ==> (graphs[i].Paused? <==> paused[i])
      ensures forall i :: 0 <= i < |ss| ==>
        ss[i].renderables == Filter(lists[i], Kept) && ss[i].widgetRenderables == Filter(widgets[i], Kept)
      ensures NoFrameAllocated(cache)
    {
      var inputs, steps, sweeps;
      inputs, graphs, steps, sweeps := DrawFrame(ss, names, paused, lists, widgets, cache, meshSource, materialSource);
      forceTransition := Pass("force_transition", [Produce("SWAPCHAIN+", ColorWrite, "SWAPCHAIN++")] + inputs);
      events := [WaitedForFutures(waited), EnteredStage(BuildingRG)] + steps +
                [EnteredStage(Presenting), Presented] + sweeps +
                [AssetsSwept, FrameAllocatorReset, EnteredStage(Inactive)];
    }

    /** `shutdown`: the cache is emptied; a scene still registered at that
        point is reported, not prevented. */
    method Shutdown(cache: GpuAssetCache) returns (reported: bool)
      modifies cache
      ensures reported <==> scenes != []
      ensures cache.meshes == map[] && cache.materials == map[] && cache.textures == map[] && cache.paths == map[]
    {
      reported := scenes != [];
      cache.Clear();
    }
  }
}
