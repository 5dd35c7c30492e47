// The renderer object: the progressive-accumulation frame counter, the UI
// panel's effect on the push constants, shader invalidation, and the
// construction of the light and alias tables.

module Renderer {
  import opened Gpu
  import opened Sbt
  import opened RenderFlags
  import opened RealSums
  import opened LightTables
  import opened AliasTables
  import opened RaytracingPipelines
  import opened ShaderGroups

  /** The camera as updateFrame compares it: the matrix bytes and the field of view. */
  datatype Camera = Camera(matrix: seq<bv8>, fov: real)

  /**
   * The state updateFrame works on: the frame counter and its two function
   * statics, the reference matrix and the reference field of view. The
   * latter is initialised on the first call, with the field of view of that
   * call; None stands for "not yet initialised".
   */
  datatype FrameState = FrameState(frame: int, refMatrix: seq<bv8>, refFov: Option<real>)

  /** Whether updateFrame sees a camera different from its reference. */
  predicate CameraMoved(s: FrameState, cam: Camera)
  {
    s.refMatrix != cam.matrix || (s.refFov.Some? && s.refFov.value != cam.fov)
  }

  /**
   * updateFrame: a moved camera resets the counter to -1 and becomes the
   * new reference; the counter then advances by one. Either way the
   * reference afterwards is the camera just seen.
   */
  function NextFrame(s: FrameState, cam: Camera): (r: FrameState)
    ensures r.refMatrix == cam.matrix && r.refFov == Some(cam.fov)
    ensures CameraMoved(s, cam) ==> r.frame == 0
    ensures !CameraMoved(s, cam) ==> r.frame == s.frame + 1
  {
    if CameraMoved(s, cam) then FrameState(0, cam.matrix, Some(cam.fov))
    else FrameState(s.frame + 1, s.refMatrix, Some(cam.fov))
  }

  /** updateFrame called once per camera of cams, in order. */
  function Run(s: FrameState, cams: seq<Camera>): FrameState
  {
    if cams == [] then s else NextFrame(Run(s, cams[..|cams| - 1]), cams[|cams| - 1])
  }

  /**
   * Whether the camera of step k differs from the one before it (from the
   * initial reference for the first step).
   */
  predicate MovedAt(s: FrameState, cams: seq<Camera>, k: nat)
    requires k < |cams|
  {
    if k == 0 then CameraMoved(s, cams[0]) else cams[k] != cams[k - 1]
  }

  /** After one or more frames the reference is the last camera seen. */
  lemma {:induction false} RunKeepsLastCamera(s: FrameState, cams: seq<Camera>)
    requires |cams| > 0
    ensures Run(s, cams).refMatrix == cams[|cams| - 1].matrix
    ensures Run(s, cams).refFov == Some(cams[|cams| - 1].fov)
  {
  }

  /** Steps before the last one move in cams exactly when they move in cams without its last camera. */
  lemma MovedAtPrefix(s: FrameState, cams: seq<Camera>, n: nat, k: nat)
    requires k < n <= |cams|
    ensures MovedAt(s, cams[..n], k) == MovedAt(s, cams, k)
  {
    var pre := cams[..n];
    assert pre[k] == cams[k];
    if k > 0 {
      assert pre[k - 1] == cams[k - 1];
    }
  }

  /** The last step moves exactly when its camera differs from the reference left by the steps before it. */
  lemma {:induction false} MovedAtLast(s: FrameState, cams: seq<Camera>)
    requires |cams| > 0
    ensures var n := |cams| - 1;
            MovedAt(s, cams, n) == CameraMoved(Run(s, cams[..n]), cams[n])
  {
    var n := |cams| - 1;
    if n > 0 {
      RunKeepsLastCamera(s, cams[..n]);
      assert cams[..n][n - 1] == cams[n - 1];
    }
  }

  /** With no move the counter advances once per frame. */
  lemma {:induction false} RunStill(s: FrameState, cams: seq<Camera>)
    requires forall k :: 0 <= k < |cams| ==> !MovedAt(s, cams, k)
    ensures Run(s, cams).frame == s.frame + |cams|
  {
    if cams != [] {
      var n := |cams| - 1;
      forall k | 0 <= k < n ensures !MovedAt(s, cams[..n], k) {
        MovedAtPrefix(s, cams, n, k);
      }
      RunStill(s, cams[..n]);
      MovedAtLast(s, cams);
    }
  }

  /**
   * The frame counter counts the frames since the camera last moved: after
   * a move at step k and none later it holds the number of frames after k.
   */
  lemma {:induction false} RunCountsSinceMove(s: FrameState, cams: seq<Camera>, k: nat)
    requires k < |cams| && MovedAt(s, cams, k)
    requires forall m :: k < m < |cams| ==> !MovedAt(s, cams, m)
    ensures Run(s, cams).frame == |cams| - 1 - k
  {
    var n := |cams| - 1;
    MovedAtLast(s, cams);
    if k < n {
      MovedAtPrefix(s, cams, n, k);
      forall m | k < m < n ensures !MovedAt(s, cams[..n], m) {
        MovedAtPrefix(s, cams, n, m);
      }
      RunCountsSinceMove(s, cams[..n], k);
    }
  }

  /**
   * Without accumulation, raytrace resets the counter after updateFrame
   * advanced it, so every frame pushed is -1.
   */
  function RaytraceFrame(s: FrameState, cam: Camera, accumulate: bool): (r: FrameState)
    ensures !accumulate ==> r.frame == -1
    ensures accumulate ==> r == NextFrame(s, cam)
    ensures r.refMatrix == cam.matrix && r.refFov == Some(cam.fov)
  {
    var u := NextFrame(s, cam);
    if accumulate then u else u.(frame := -1)
  }

  /**
   * After a reset (frame -1) and a still camera, the frames pushed with
   * accumulation on are 0, 1, 2, ...
   */
  lemma {:induction false} StillCameraCountsFromZero(s: FrameState, cams: seq<Camera>)
    requires s.frame == -1
    requires forall k :: 0 <= k < |cams| ==> !MovedAt(s, cams, k)
    ensures forall n :: 0 <= n <= |cams| ==> Run(s, cams[..n]).frame == n - 1
  {
    forall n | 0 <= n <= |cams| ensures Run(s, cams[..n]).frame == n - 1 {
      var pre := cams[..n];
      forall k | 0 <= k < n ensures !MovedAt(s, pre, k) {
        MovedAtPrefix(s, cams, n, k);
      }
      RunStill(s, pre);
    }
  }

  /** The total weight of the light instances of nodes. */
  function TotalRadiance(nodes: seq<Node>): real
  {
    Sum(LightWeights(Lights(nodes, |nodes|)))
  }

  /**
   * The instance table after buildLightTables: the existing entries and the
   * nodes' instances, all divided by the new instances' total unless it is zero.
   */
  function NormalisedIfNonzero(ls0: seq<LightInstance>, nodes: seq<Node>): (r: seq<LightInstance>)
    ensures |r| == |ls0| + |Lights(nodes, |nodes|)|
  {
    var ls := ls0 + Lights(nodes, |nodes|);
    if TotalRadiance(nodes) != 0.0 then NormalisedLights(ls, TotalRadiance(nodes)) else ls
  }

  /** The triangle table after buildLightTables, divided by the same total. */
  function NormalisedTrianglesIfNonzero(ts0: seq<EmissiveTriangle>, nodes: seq<Node>): (r: seq<EmissiveTriangle>)
    ensures |r| == |ts0| + |Triangles(nodes, |nodes|)|
  {
    var ts := ts0 + Triangles(nodes, |nodes|);
    if TotalRadiance(nodes) != 0.0 then NormalisedTriangles(ts, TotalRadiance(nodes)) else ts
  }

  /**
   * Divided by the total weight of the instances, the instance weights and
   * the triangle weights of a scene with non-negative geometry are each a
   * distribution.
   */
  lemma {:induction false} NormalisedTablesAreDistributions(scene: Scene, g: Geometry)
    requires WellFormed(scene) && GeometryOk(g)
    requires var nodes := Resolve(scene, g); Sum(LightWeights(Lights(nodes, |nodes|))) != 0.0
    ensures var nodes := Resolve(scene, g);
            var total := Sum(LightWeights(Lights(nodes, |nodes|)));
            && IsDistribution(LightWeights(NormalisedLights(Lights(nodes, |nodes|), total)))
            && IsDistribution(TriangleWeights(NormalisedTriangles(Triangles(nodes, |nodes|), total)))
  {
    var nodes := Resolve(scene, g);
    ResolveNonneg(scene, g);
    NormalisedLightsDistribution(nodes);
    NormalisedTrianglesDistribution(nodes);
  }

  /**
   * The renderer object with the state the modelled operations touch: the
   * ray tracing push constants, the accumulate option, the two statics of
   * updateFrame, the ray tracing pipeline, and the light and alias tables.
   */
  class HelloVulkan {
    var pc: PushConstants
    var accumulate: bool
    var refMatrix: seq<bv8>
    var refFov: Option<real>
    const rtPipeline: RaytracingPipeline
    var emissiveInstances: seq<LightInstance>
    var emissiveTriangles: seq<EmissiveTriangle>
    var triangleAliasTable: seq<Alias>
    var instanceAliasTable: seq<Alias>

    ghost predicate Valid()
      reads this, rtPipeline, rtPipeline.device
    {
      rtPipeline.Valid()
    }

    /** The frame counter and its reference, as one value. */
    function Frames(): FrameState
      reads this
    {
      FrameState(pc.frame, refMatrix, refFov)
    }

    /**
     * A renderer around an already created ray tracing pipeline: accumulation
     * on, the push constants at their declared defaults (the fields without
     * one are given), the matrix static starting at initialRefMatrix, the
     * field-of-view static not yet set (the source sets it on the first
     * frame update), and empty tables.
     */
    constructor (rtPipeline: RaytracingPipeline, initialRefMatrix: seq<bv8>,
                 numPathsPerPixel: int, numGeomSamplesM: int, numTrianglesM: int, numEmissiveTris: int)
      ensures this.rtPipeline == rtPipeline
      ensures accumulate
      ensures pc == InitialPushConstants(numPathsPerPixel, numGeomSamplesM, numTrianglesM, numEmissiveTris)
      ensures Frames() == FrameState(0, initialRefMatrix, None)
      ensures emissiveInstances == [] && emissiveTriangles == []
      ensures triangleAliasTable == [] && instanceAliasTable == []
    {
      this.rtPipeline := rtPipeline;
      accumulate := true;
      pc := InitialPushConstants(numPathsPerPixel, numGeomSamplesM, numTrianglesM, numEmissiveTris);
      refMatrix := initialRefMatrix;
      refFov := None;
      emissiveInstances, emissiveTriangles := [], [];
      triangleAliasTable, instanceAliasTable := [], [];
    }

    /** resetFrame: the counter becomes -1; nothing else changes. */
    method ResetFrame()
      modifies this
      ensures pc == old(pc).(frame := -1)
      ensures refMatrix == old(refMatrix) && refFov == old(refFov) && accumulate == old(accumulate)
      ensures emissiveInstances == old(emissiveInstances) && emissiveTriangles == old(emissiveTriangles)
      ensures triangleAliasTable == old(triangleAliasTable) && instanceAliasTable == old(instanceAliasTable)
    {
      pc := pc.(frame := -1);
    }

    /**
     * updateFrame: initialises the field-of-view static on the first call,
     * resets the counter and records the camera when it differs from the
     * reference, then advances the counter.
     */
    method UpdateFrame(cam: Camera)
      modifies this
      ensures Frames() == NextFrame(old(Frames()), cam)
      ensures pc == old(pc).(frame := pc.frame)
      ensures accumulate == old(accumulate)
      ensures emissiveInstances == old(emissiveInstances) && emissiveTriangles == old(emissiveTriangles)
      ensures triangleAliasTable == old(triangleAliasTable) && instanceAliasTable == old(instanceAliasTable)
    {
      if refFov.None? {
        refFov := Some(cam.fov);
      }
      if refMatrix != cam.matrix || refFov.value != cam.fov {
        ResetFrame();
        refMatrix := cam.matrix;
        refFov := Some(cam.fov);
      }
      pc := pc.(frame := pc.frame + 1);
    }

    /**
     * raytrace: advances the frame, resets it again when accumulation is
     * off, binds the pipeline (reloading it first when invalidated) and
     * traces with the pushed constants over the pipeline's regions of the
     * binding table at sbtAddress. The device's answers for a reload are
     * parameters, as in RaytracingPipeline.Bind.
     */
    method Raytrace(cam: Camera, loads: string -> bool, createOk: bool, storage: seq<Byte>, sbtAddress: nat)
      returns (bound: Handle, pushed: PushConstants, regions: TraceRegions)
      requires Valid() && |storage| == rtPipeline.sbtSize
      modifies this, rtPipeline, rtPipeline.device, rtPipeline.sbtBuffer
      ensures Valid()
      ensures Frames() == RaytraceFrame(old(Frames()), cam, old(accumulate))
      ensures pc == old(pc).(frame := pc.frame) && pushed == pc
      ensures bound == rtPipeline.vkPipeline
      ensures !old(rtPipeline.invalidated) ==>
                && rtPipeline.device.log == old(rtPipeline.device.log) && bound == old(rtPipeline.vkPipeline)
                && rtPipeline.stalePipeline == old(rtPipeline.stalePipeline) && !rtPipeline.invalidated
                && rtPipeline.shaderGroups == old(rtPipeline.shaderGroups)
                && rtPipeline.sbtBuffer[..] == old(rtPipeline.sbtBuffer[..])
      ensures old(rtPipeline.invalidated) ==>
                var p := rtPipeline;
                var ok := LoadSucceeds(p.counts, p.shaderPaths, loads, createOk);
                && p.device.log == old(p.device.log) + LoadEvents(p.counts, p.shaderPaths, loads, createOk, old(p.stalePipeline), old(p.device.nextHandle))
                && p.invalidated == !ok
                && bound == (if ok then old(p.device.nextHandle) + |p.shaderPaths| else old(p.vkPipeline))
                && p.stalePipeline == (if ok then old(p.vkPipeline) else if CountsMatch(p.counts) then Null else old(p.stalePipeline))
                && p.shaderGroups == (if CountsMatch(p.counts) && Loaded(p.shaderPaths, loads, 0) == |p.shaderPaths|
                                      then Groups(p.counts) else old(p.shaderGroups))
                && (ok ==> p.SbtRewritten(old(p.sbtBuffer[..]), storage))
                && (!ok ==> p.sbtBuffer[..] == old(p.sbtBuffer[..]))
      ensures regions == Regions(rtPipeline.counts, sbtAddress, rtPipeline.groupSizeAligned)
      ensures accumulate == old(accumulate)
      ensures emissiveInstances == old(emissiveInstances) && emissiveTriangles == old(emissiveTriangles)
      ensures triangleAliasTable == old(triangleAliasTable) && instanceAliasTable == old(instanceAliasTable)
    {
      UpdateFrame(cam);
      if !accumulate {
        ResetFrame();
      }
      bound := rtPipeline.Bind(loads, createOk, storage);
      pushed := pc;
      regions := rtPipeline.Trace(sbtAddress);
    }

    /**
     * renderUI: takes the accumulate checkbox, sanitises the panel's inputs
     * into the push constants, and resets the frame when any widget changed
     * something or accumulation is off.
     */
    method RenderUi(ui: UiInput)
      modifies this
      ensures accumulate == ui.accumulate
      ensures var r := SanitiseUi(old(pc), ui);
              pc == r.(frame := if UiChanged(old(pc), ui) || !ui.accumulate then -1 else r.frame)
      ensures refMatrix == old(refMatrix) && refFov == old(refFov)
      ensures emissiveInstances == old(emissiveInstances) && emissiveTriangles == old(emissiveTriangles)
      ensures triangleAliasTable == old(triangleAliasTable) && instanceAliasTable == old(instanceAliasTable)
    {
      var mustClean := UiChanged(pc, ui);
      accumulate := ui.accumulate;
      pc := SanitiseUi(pc, ui);
      if mustClean || !accumulate {
        ResetFrame();
      }
    }

    /** invalidateShaders: invalidates the ray tracing pipeline and nothing else. */
    method InvalidateShaders()
      requires Valid()
      modifies rtPipeline
      ensures Valid()
      ensures rtPipeline.invalidated
      ensures rtPipeline.vkPipeline == old(rtPipeline.vkPipeline)
      ensures rtPipeline.stalePipeline == old(rtPipeline.stalePipeline)
      ensures rtPipeline.shaderGroups == old(rtPipeline.shaderGroups)
    {
      rtPipeline.Invalidate();
    }

    /**
     * buildLightTables: collects the light instances and emissive triangles
     * of the scene into the existing tables, divides every entry by the
     * total weight of the new instances, records both table sizes in the
     * push constants, and builds the triangle and then the instance alias
     * table from the normalised weights. A zero total is left undivided.
     * Starting from empty tables with non-negative geometry and a non-zero
     * total, both weight lists are distributions and both alias tables
     * reproduce them.
     */
    method BuildLightTables(scene: Scene, g: Geometry)
      requires WellFormed(scene)
      modifies this
      ensures var nodes := Resolve(scene, g);
              emissiveInstances == NormalisedIfNonzero(old(emissiveInstances), nodes)
              && emissiveTriangles == NormalisedTrianglesIfNonzero(old(emissiveTriangles), nodes)
      ensures pc == old(pc).(numLightInstances := |emissiveInstances|, numEmissiveTris := |emissiveTriangles|)
      ensures |triangleAliasTable| == |old(triangleAliasTable)| + |emissiveTriangles|
      ensures triangleAliasTable[..|old(triangleAliasTable)|] == old(triangleAliasTable)
      ensures |instanceAliasTable| == |old(instanceAliasTable)| + |emissiveInstances|
      ensures instanceAliasTable[..|old(instanceAliasTable)|] == old(instanceAliasTable)
      ensures var nodes := Resolve(scene, g);
              && old(emissiveInstances) == [] && old(emissiveTriangles) == []
              && old(triangleAliasTable) == [] && old(instanceAliasTable) == []
              && GeometryOk(g) && Sum(LightWeights(Lights(nodes, |nodes|))) != 0.0
              ==> && IsDistribution(TriangleWeights(emissiveTriangles))
                  && IsDistribution(LightWeights(emissiveInstances))
                  && AliasTableOk(triangleAliasTable, 0, ScaledWeights(TriangleWeights(emissiveTriangles)))
                  && AliasTableOk(instanceAliasTable, 0, ScaledWeights(LightWeights(emissiveInstances)))
      ensures accumulate == old(accumulate) && refMatrix == old(refMatrix) && refFov == old(refFov)
    {
      ghost var nodes := Resolve(scene, g);
      ghost var emptyBefore := emissiveInstances == [] && emissiveTriangles == [];
      CollectLightTables(scene, g);
      if emptyBefore && GeometryOk(g) && Sum(LightWeights(Lights(nodes, |nodes|))) != 0.0 {
        assert [] + Lights(nodes, |nodes|) == Lights(nodes, |nodes|);
        assert [] + Triangles(nodes, |nodes|) == Triangles(nodes, |nodes|);
        NormalisedTablesAreDistributions(scene, g);
      }
      BuildTriangleAliasTable();
      BuildInstanceAliasTable();
    }

    /**
     * The table part of buildLightTables: collection, normalisation and the
     * two counts in the push constants.
     */
    method CollectLightTables(scene: Scene, g: Geometry)
      requires WellFormed(scene)
      modifies this
      ensures var nodes := Resolve(scene, g);
              emissiveInstances == NormalisedIfNonzero(old(emissiveInstances), nodes)
              && emissiveTriangles == NormalisedTrianglesIfNonzero(old(emissiveTriangles), nodes)
      ensures pc == old(pc).(numLightInstances := |emissiveInstances|, numEmissiveTris := |emissiveTriangles|)
      ensures triangleAliasTable == old(triangleAliasTable) && instanceAliasTable == old(instanceAliasTable)
      ensures accumulate == old(accumulate) && refMatrix == old(refMatrix) && refFov == old(refFov)
    {
      var instances, triangles, totalRadiance := CollectLights(scene, g, emissiveInstances, emissiveTriangles);
      if totalRadiance != 0.0 {
        instances := NormaliseLights(instances, totalRadiance);
        triangles := NormaliseTriangles(triangles, totalRadiance);
      }
      emissiveInstances, emissiveTriangles := instances, triangles;
      pc := pc.(numLightInstances := |instances|, numEmissiveTris := |triangles|);
    }

    /**
     * buildTriangleAliasTable: one alias entry per emissive triangle,
     * appended to the table; from an empty table and weights forming a
     * distribution the table reproduces the scaled weights.
     */
    method BuildTriangleAliasTable()
      modifies this
      ensures |triangleAliasTable| == |old(triangleAliasTable)| + |emissiveTriangles|
      ensures triangleAliasTable[..|old(triangleAliasTable)|] == old(triangleAliasTable)
      ensures IsDistribution(TriangleWeights(emissiveTriangles)) ==>
                AliasTableOk(triangleAliasTable, |old(triangleAliasTable)|, ScaledWeights(TriangleWeights(emissiveTriangles)))
      ensures pc == old(pc) && accumulate == old(accumulate) && refMatrix == old(refMatrix) && refFov == old(refFov)
      ensures emissiveInstances == old(emissiveInstances) && emissiveTriangles == old(emissiveTriangles)
      ensures instanceAliasTable == old(instanceAliasTable)
    {
      triangleAliasTable := BuildAliasTable(triangleAliasTable, TriangleWeights(emissiveTriangles));
    }

    /**
     * buildInstanceAliasTable: one alias entry per light instance, built the
     * same way from the instance weights.
     */
    method BuildInstanceAliasTable()
      modifies this
      ensures |instanceAliasTable| == |old(instanceAliasTable)| + |emissiveInstances|
      ensures instanceAliasTable[..|old(instanceAliasTable)|] == old(instanceAliasTable)
      ensures IsDistribution(LightWeights(emissiveInstances)) ==>
                AliasTableOk(instanceAliasTable, |old(instanceAliasTable)|, ScaledWeights(LightWeights(emissiveInstances)))
      ensures pc == old(pc) && accumulate == old(accumulate) && refMatrix == old(refMatrix) && refFov == old(refFov)
      ensures emissiveInstances == old(emissiveInstances) && emissiveTriangles == old(emissiveTriangles)
      ensures triangleAliasTable == old(triangleAliasTable)
    {
      instanceAliasTable := BuildAliasTable(instanceAliasTable, LightWeights(emissiveInstances));
    }
  }
}
