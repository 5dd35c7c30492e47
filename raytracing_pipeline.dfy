/**
 * The hot-reloadable ray tracing pipeline. A reload attempt first retires the
 * stale pipeline left by the previous successful reload, then compiles every
 * shader module, builds the shader groups and creates a new pipeline; on
 * success the current pipeline becomes the stale one (it may still be in
 * flight) and the new one becomes current. Every module built during an
 * attempt is destroyed before the attempt returns.
 *
 * The device calls one attempt makes are given exactly by LoadEvents; the
 * lemmas below state what that sequence does to pipelines and modules.
 */
module RaytracingPipelines {
  import opened Gpu
  import opened ShaderGroups
  import opened Sbt
  import opened Arith

  /**
   * The index of the first path, from i on, whose module fails to load and
   * compile (|paths| when none fails): the module loop breaks there.
   */
  function Loaded(paths: seq<string>, loads: string -> bool, i: nat): (n: nat)
    requires i <= |paths|
    ensures i <= n <= |paths|
    ensures forall k :: i <= k < n ==> loads(paths[k])
    ensures n < |paths| ==> !loads(paths[n])
    decreases |paths| - i
  {
    if i == |paths| || !loads(paths[i]) then i else Loaded(paths, loads, i + 1)
  }

  /**
   * One past the last path, from i on, whose module the loop tries: the
   * first failing path is tried, the paths after it are not.
   */
  function Tried(paths: seq<string>, loads: string -> bool, i: nat): (e: nat)
    requires i <= |paths|
    ensures i <= e <= |paths|
    ensures e == if Loaded(paths, loads, i) < |paths| then Loaded(paths, loads, i) + 1 else |paths|
    decreases |paths| - i
  {
    if i == |paths| then i else if !loads(paths[i]) then i + 1 else Tried(paths, loads, i + 1)
  }

  /**
   * The device calls of the module loop from path i on, when h is the next
   * fresh handle: a waitIdle and a module creation per path, stopping after
   * the first module that fails.
   */
  function CompileEvents(paths: seq<string>, loads: string -> bool, i: nat, h: Handle): seq<Event>
    requires i <= |paths|
    decreases |paths| - i
  {
    if i == |paths| then []
    else if loads(paths[i]) then [WaitIdle, CreateShaderModule(paths[i], h)] + CompileEvents(paths, loads, i + 1, h + 1)
    else [WaitIdle, CreateShaderModule(paths[i], Null)]
  }

  /** The handles h0, h0 + 1, ..., h0 + n - 1, in order. */
  function ModuleRange(h0: Handle, n: nat): (r: seq<Handle>)
    ensures |r| == n && forall k :: 0 <= k < n ==> r[k] == h0 + k
  {
    seq(n, k => h0 + k)
  }

  /** Destroying the modules ms, in order. */
  function DestroyAll(ms: seq<Handle>): (r: seq<Event>)
    ensures |r| == |ms| && forall k :: 0 <= k < |ms| ==> r[k] == DestroyShaderModule(ms[k])
  {
    seq(|ms|, k requires 0 <= k < |ms| => DestroyShaderModule(ms[k]))
  }

  function StaleEvents(stale: Handle): seq<Event>
  {
    if stale != Null then [DestroyPipeline(stale)] else []
  }

  /** Whether an attempt succeeds: counts consistent, every module compiles, creation succeeds. */
  predicate LoadSucceeds(c: Counts, paths: seq<string>, loads: string -> bool, createOk: bool)
  {
    CountsMatch(c) && Loaded(paths, loads, 0) == |paths| && createOk
  }

  /**
   * The device calls of an attempt after the stale pipeline is retired, when
   * h0 is the next fresh handle: the module loop, then (only when every
   * module compiled) the pipeline creation, then the destruction of every
   * module built.
   */
  function BuildEvents(paths: seq<string>, loads: string -> bool, createOk: bool, h0: Handle): seq<Event>
  {
    var n := Loaded(paths, loads, 0);
    CompileEvents(paths, loads, 0, h0)
    + (if n < |paths| then DestroyAll(ModuleRange(h0, n))
       else [CreatePipeline(if createOk then h0 + n else Null)] + DestroyAll(ModuleRange(h0, n)))
  }

  /**
   * Every device call one tryLoadPipeline makes, given the stale handle and
   * the next fresh handle h0 when it starts.
   */
  function LoadEvents(c: Counts, paths: seq<string>, loads: string -> bool, createOk: bool,
                      stale: Handle, h0: Handle): seq<Event>
  {
    if !CountsMatch(c) then []
    else StaleEvents(stale) + BuildEvents(paths, loads, createOk, h0)
  }

  /** The shader paths whose modules an event sequence creates (or tries to), in order. */
  function CompiledPaths(events: seq<Event>): seq<string>
  {
    if events == [] then []
    else
      var e := events[|events| - 1];
      CompiledPaths(events[..|events| - 1]) + (if e.CreateShaderModule? then [e.path] else [])
  }

  lemma {:induction false} CompiledPathsAppend(a: seq<Event>, b: seq<Event>)
    ensures CompiledPaths(a + b) == CompiledPaths(a) + CompiledPaths(b)
    decreases |b|
  {
    if b == [] {
      assert a + b == a;
    } else {
      var b' := b[..|b| - 1];
      assert (a + b)[..|a + b| - 1] == a + b';
      CompiledPathsAppend(a, b');
    }
  }

  lemma AppendAssoc(a: seq<Event>, b: seq<Event>, c: seq<Event>)
    ensures a + (b + c) == a + b + c
  {
  }

  lemma SliceCons<T>(s: seq<T>, i: nat, e: nat)
    requires i < e <= |s|
    ensures s[i..e] == [s[i]] + s[i + 1..e]
  {
  }

  lemma CountPair(a: Event, b: Event, act: Action, x: Handle)
    ensures Count([a, b], act, x) == Count([a], act, x) + Count([b], act, x)
  {
    assert [a, b] == [a] + [b];
    CountAppend([a], [b], act, x);
  }

  /**
   * The module loop creates exactly the modules h, h + 1, ... up to the
   * first failure, and destroys nothing and creates no pipeline.
   */
  lemma {:induction false} CompileEventsCount(paths: seq<string>, loads: string -> bool, i: nat, h: Handle,
                                              act: Action, x: Handle)
    requires i <= |paths| && h != Null
    ensures Count(CompileEvents(paths, loads, i, h), act, x)
            == if act == ModuleCreated && h <= x < h + (Loaded(paths, loads, i) - i) then 1 else 0
    decreases |paths| - i
  {
    if i < |paths| {
      var m := if loads(paths[i]) then h else Null;
      var head := [WaitIdle, CreateShaderModule(paths[i], m)];
      assert Count(head, act, x) == if act == ModuleCreated && x == m && m != Null then 1 else 0 by {
        CountPair(WaitIdle, CreateShaderModule(paths[i], m), act, x);
        CountSingle(WaitIdle, act, x);
        CountSingle(CreateShaderModule(paths[i], m), act, x);
      }
      if loads(paths[i]) {
        var rest := CompileEvents(paths, loads, i + 1, h + 1);
        assert CompileEvents(paths, loads, i, h) == head + rest;
        CountAppend(head, rest, act, x);
        CompileEventsCount(paths, loads, i + 1, h + 1, act, x);
        assert Loaded(paths, loads, i) == Loaded(paths, loads, i + 1);
      } else {
        assert CompileEvents(paths, loads, i, h) == head;
        assert Loaded(paths, loads, i) == i;
      }
    }
  }

  /**
   * Loading stops at the first failure: the paths the module loop tries are
   * the ones up to and including the first failing path, in order.
   */
  lemma {:induction false} CompileStopsAtFirstFailure(paths: seq<string>, loads: string -> bool, i: nat, h: Handle)
    requires i <= |paths|
    ensures CompiledPaths(CompileEvents(paths, loads, i, h)) == paths[i..Tried(paths, loads, i)]
    decreases |paths| - i
  {
    if i < |paths| {
      var m := if loads(paths[i]) then h else Null;
      var head := [WaitIdle, CreateShaderModule(paths[i], m)];
      assert CompiledPaths(head) == [paths[i]] by {
        assert head[..1] == [WaitIdle] && [WaitIdle][..0] == [];
      }
      if loads(paths[i]) {
        var rest := CompileEvents(paths, loads, i + 1, h + 1);
        assert CompileEvents(paths, loads, i, h) == head + rest;
        CompiledPathsAppend(head, rest);
        CompileStopsAtFirstFailure(paths, loads, i + 1, h + 1);
        var e := Tried(paths, loads, i + 1);
        assert Tried(paths, loads, i) == e;
        SliceCons(paths, i, e);
      } else {
        assert CompileEvents(paths, loads, i, h) == head;
        assert Tried(paths, loads, i) == i + 1;
        assert paths[i..i + 1] == [paths[i]];
      }
    }
  }

  /** The module loop leaves every pipeline's destroy count as it was. */
  lemma CompileKeepsPipelines(log: seq<Event>, paths: seq<string>, loads: string -> bool, h0: Handle)
    requires h0 != Null
    ensures forall x :: Count(log + CompileEvents(paths, loads, 0, h0), PipelineDestroyed, x) == Count(log, PipelineDestroyed, x)
  {
    forall x ensures Count(log + CompileEvents(paths, loads, 0, h0), PipelineDestroyed, x) == Count(log, PipelineDestroyed, x) {
      CountAppend(log, CompileEvents(paths, loads, 0, h0), PipelineDestroyed, x);
      CompileEventsCount(paths, loads, 0, h0, PipelineDestroyed, x);
    }
  }

  /** Destroying the modules h0 .. h0 + n - 1 destroys each exactly once and does nothing else. */
  lemma {:induction false} DestroyRangeCount(h0: Handle, n: nat, act: Action, x: Handle)
    requires h0 != Null
    ensures Count(DestroyAll(ModuleRange(h0, n)), act, x)
            == if act == ModuleDestroyed && h0 <= x < h0 + n then 1 else 0
    decreases n
  {
    if n > 0 {
      var ev := DestroyAll(ModuleRange(h0, n));
      assert ev[..n - 1] == DestroyAll(ModuleRange(h0, n - 1));
      DestroyRangeCount(h0, n - 1, act, x);
    }
  }

  /** Destroying modules destroys no pipeline. */
  lemma {:induction false} DestroyAllNoPipeline(ms: seq<Handle>, x: Handle)
    ensures Count(DestroyAll(ms), PipelineDestroyed, x) == 0
    decreases |ms|
  {
    if ms != [] {
      var ev := DestroyAll(ms);
      assert ev[..|ms| - 1] == DestroyAll(ms[..|ms| - 1]);
      DestroyAllNoPipeline(ms[..|ms| - 1], x);
    }
  }

  lemma DestroyAllKeepsPipelines(log: seq<Event>, ms: seq<Handle>)
    ensures forall x :: Count(log + DestroyAll(ms), PipelineDestroyed, x) == Count(log, PipelineDestroyed, x)
  {
    forall x ensures Count(log + DestroyAll(ms), PipelineDestroyed, x) == Count(log, PipelineDestroyed, x) {
      CountAppend(log, DestroyAll(ms), PipelineDestroyed, x);
      DestroyAllNoPipeline(ms, x);
    }
  }

  /**
   * The whole effect of one attempt on handle x. Nothing happens when the
   * any-hit/closest-hit counts are inconsistent. Otherwise: the only pipeline
   * destroyed is the stale one, once; the only pipeline created is the fresh
   * handle after the modules, and only when the attempt succeeds; the modules
   * created and destroyed are the same ones, h0 .. h0 + Loaded - 1, once each.
   */
  lemma LoadEventsCount(c: Counts, paths: seq<string>, loads: string -> bool, createOk: bool,
                        stale: Handle, h0: Handle, act: Action, x: Handle)
    requires h0 != Null
    ensures Count(LoadEvents(c, paths, loads, createOk, stale, h0), act, x) ==
      if !CountsMatch(c) || x == Null then 0
      else match act
        case PipelineDestroyed => if x == stale then 1 else 0
        case PipelineCreated => if LoadSucceeds(c, paths, loads, createOk) && x == h0 + |paths| then 1 else 0
        case ModuleCreated => if h0 <= x < h0 + Loaded(paths, loads, 0) then 1 else 0
        case ModuleDestroyed => if h0 <= x < h0 + Loaded(paths, loads, 0) then 1 else 0
  {
    if CountsMatch(c) {
      var st := StaleEvents(stale);
      var be := BuildEvents(paths, loads, createOk, h0);
      CountAppend(st, be, act, x);
      BuildEventsCount(paths, loads, createOk, h0, act, x);
      if stale != Null {
        CountSingle(DestroyPipeline(stale), act, x);
      }
    }
  }

  /** The effect on handle x of an attempt after the stale pipeline is retired. */
  lemma BuildEventsCount(paths: seq<string>, loads: string -> bool, createOk: bool, h0: Handle, act: Action, x: Handle)
    requires h0 != Null
    ensures Count(BuildEvents(paths, loads, createOk, h0), act, x) ==
      if x == Null then 0
      else match act
        case PipelineDestroyed => 0
        case PipelineCreated => if Loaded(paths, loads, 0) == |paths| && createOk && x == h0 + |paths| then 1 else 0
        case ModuleCreated => if h0 <= x < h0 + Loaded(paths, loads, 0) then 1 else 0
        case ModuleDestroyed => if h0 <= x < h0 + Loaded(paths, loads, 0) then 1 else 0
  {
    var n := Loaded(paths, loads, 0);
    var ce := CompileEvents(paths, loads, 0, h0);
    var d := DestroyAll(ModuleRange(h0, n));
    CompileEventsCount(paths, loads, 0, h0, act, x);
    DestroyRangeCount(h0, n, act, x);
    if n < |paths| {
      assert BuildEvents(paths, loads, createOk, h0) == ce + d;
      CountAppend(ce, d, act, x);
    } else {
      var cp := CreatePipeline(if createOk then h0 + n else Null);
      assert BuildEvents(paths, loads, createOk, h0) == ce + ([cp] + d);
      CountAppend(ce, [cp] + d, act, x);
      CountAppend([cp], d, act, x);
      CountSingle(cp, act, x);
      assert Count([cp], act, x) == if x != Null && act == PipelineCreated && createOk && x == h0 + n then 1 else 0;
    }
  }

  /**
   * Destroy-once for pipelines: an attempt destroys no pipeline except the
   * stale one, which it destroys exactly once and as its very first call,
   * and only when the any-hit/closest-hit counts are consistent.
   */
  lemma LoadDestroysOnlyStale(c: Counts, paths: seq<string>, loads: string -> bool, createOk: bool,
                              stale: Handle, h0: Handle)
    requires h0 != Null
    ensures forall x :: Count(LoadEvents(c, paths, loads, createOk, stale, h0), PipelineDestroyed, x)
                        == if CountsMatch(c) && x == stale && x != Null then 1 else 0
    ensures CountsMatch(c) && stale != Null ==> LoadEvents(c, paths, loads, createOk, stale, h0)[0] == DestroyPipeline(stale)
  {
    forall x ensures Count(LoadEvents(c, paths, loads, createOk, stale, h0), PipelineDestroyed, x)
                     == if CountsMatch(c) && x == stale && x != Null then 1 else 0 {
      LoadEventsCount(c, paths, loads, createOk, stale, h0, PipelineDestroyed, x);
    }
  }

  /**
   * No module leaks: every module an attempt creates it also destroys,
   * whether the attempt stops at a failed module, fails to create the
   * pipeline, or succeeds.
   */
  lemma LoadReleasesModules(c: Counts, paths: seq<string>, loads: string -> bool, createOk: bool,
                            stale: Handle, h0: Handle)
    requires h0 != Null
    ensures forall x :: Count(LoadEvents(c, paths, loads, createOk, stale, h0), ModuleCreated, x)
                        == Count(LoadEvents(c, paths, loads, createOk, stale, h0), ModuleDestroyed, x)
  {
    forall x ensures Count(LoadEvents(c, paths, loads, createOk, stale, h0), ModuleCreated, x)
                     == Count(LoadEvents(c, paths, loads, createOk, stale, h0), ModuleDestroyed, x) {
      LoadEventsCount(c, paths, loads, createOk, stale, h0, ModuleCreated, x);
      LoadEventsCount(c, paths, loads, createOk, stale, h0, ModuleDestroyed, x);
    }
  }

  /**
   * All or nothing: an attempt creates a pipeline, exactly one, if and only
   * if it succeeds.
   */
  lemma LoadCreatesPipelineIffSuccess(c: Counts, paths: seq<string>, loads: string -> bool, createOk: bool,
                                      stale: Handle, h0: Handle)
    requires h0 != Null
    ensures forall x :: Count(LoadEvents(c, paths, loads, createOk, stale, h0), PipelineCreated, x)
                        == if LoadSucceeds(c, paths, loads, createOk) && x == h0 + |paths| then 1 else 0
  {
    forall x ensures Count(LoadEvents(c, paths, loads, createOk, stale, h0), PipelineCreated, x)
                     == if LoadSucceeds(c, paths, loads, createOk) && x == h0 + |paths| then 1 else 0 {
      LoadEventsCount(c, paths, loads, createOk, stale, h0, PipelineCreated, x);
    }
  }

  /**
   * Destroy-once across attempts: if no pipeline was destroyed twice before
   * an attempt and the stale pipeline had not been destroyed, then after the
   * attempt still no pipeline has been destroyed twice, and every handle
   * other than the stale one has the destroy count it had.
   */
  lemma AttemptKeepsDestroyOnce(c: Counts, paths: seq<string>, loads: string -> bool, createOk: bool,
                                log0: seq<Event>, stale: Handle, h0: Handle)
    requires h0 != Null
    requires NoDoubleDestroy(log0)
    requires stale != Null ==> Count(log0, PipelineDestroyed, stale) == 0
    ensures NoDoubleDestroy(log0 + LoadEvents(c, paths, loads, createOk, stale, h0))
    ensures forall x :: x != stale ==>
              Count(log0 + LoadEvents(c, paths, loads, createOk, stale, h0), PipelineDestroyed, x)
              == Count(log0, PipelineDestroyed, x)
  {
    var ev := LoadEvents(c, paths, loads, createOk, stale, h0);
    LoadDestroysOnlyStale(c, paths, loads, createOk, stale, h0);
    forall x ensures Count(log0 + ev, PipelineDestroyed, x) == Count(log0, PipelineDestroyed, x) + Count(ev, PipelineDestroyed, x) {
      CountAppend(log0, ev, PipelineDestroyed, x);
    }
  }

  /**
   * The pipeline handles an object holds against the device log: both were
   * handed out, neither has been destroyed, they are distinct, and no
   * pipeline was ever destroyed twice.
   */
  ghost predicate LiveHandles(log: seq<Event>, next: nat, current: Handle, stale: Handle)
  {
    && current < next && stale < next
    && (current != Null ==> Count(log, PipelineDestroyed, current) == 0)
    && (stale != Null ==> Count(log, PipelineDestroyed, stale) == 0)
    && (current != Null ==> current != stale)
    && NoDoubleDestroy(log)
  }

  /** Calls that destroy no pipeline keep the live handles live. */
  lemma KeepLive(log: seq<Event>, ev: seq<Event>, next: nat, next': nat, current: Handle, stale: Handle)
    requires LiveHandles(log, next, current, stale) && next <= next'
    requires forall x :: Count(log + ev, PipelineDestroyed, x) == Count(log, PipelineDestroyed, x)
    ensures LiveHandles(log + ev, next', current, stale)
  {
  }

  /** The groups of a pipeline with these counts, as the group loops build them. */
  function Groups(c: Counts): seq<ShaderGroup>
  {
    GroupLayout(c)
  }

  /**
   * The pipeline object. sbtBuffer is the host-visible SBT allocation; the
   * layout and the buffer's device address are outside the model.
   */
  class RaytracingPipeline {
    const device: Device
    const rayGenShaders: seq<string>
    const missShaders: seq<string>
    const anyHitShaders: seq<string>
    const closestHitShaders: seq<string>
    const counts: Counts
    const shaderPaths: seq<string>
    const progSize: nat            // shaderGroupBaseAlignment
    const groupHandleSize: nat     // shaderGroupHandleSize
    const groupSizeAligned: nat
    const sbtSize: nat
    const sbtBuffer: array<Byte>

    var vkPipeline: Handle
    var stalePipeline: Handle
    var shaderGroups: seq<ShaderGroup>
    var invalidated: bool

    ghost predicate Valid()
      reads this, device
    {
      && device.Valid()
      && Layout()
      && LiveHandles(device.log, device.nextHandle, vkPipeline, stalePipeline)
      && (shaderGroups == [] || shaderGroups == Groups(counts))
    }

    /** What the constructor fixes: counts, paths and table sizes. */
    ghost predicate Layout()
    {
      && counts == Counts(|rayGenShaders|, |missShaders|, |anyHitShaders|, |closestHitShaders|)
      && shaderPaths == rayGenShaders + missShaders + anyHitShaders + closestHitShaders
      && groupHandleSize > 0 && progSize > 0
      && groupSizeAligned == AlignUp(groupHandleSize, progSize)
      && sbtSize == SbtSize(counts, groupSizeAligned)
      && sbtBuffer.Length == sbtSize
    }

    /**
     * The constructor: offsets, paths and SBT size from the shader lists and
     * the device properties, then one reload attempt. The device answers are
     * parameters: loads for module compilation, createOk for pipeline
     * creation, storage for the group handles it reports.
     */
    constructor (device: Device, rayGenShaders: seq<string>, missShaders: seq<string>,
                 anyHitShaders: seq<string>, closestHitShaders: seq<string>,
                 shaderGroupHandleSize: nat, shaderGroupBaseAlignment: nat,
                 loads: string -> bool, createOk: bool, storage: seq<Byte>)
      requires device.Valid() && NoDoubleDestroy(device.log)
      requires shaderGroupHandleSize > 0 && shaderGroupBaseAlignment > 0
      requires |storage| == SbtSize(Counts(|rayGenShaders|, |missShaders|, |anyHitShaders|, |closestHitShaders|),
                                    AlignUp(shaderGroupHandleSize, shaderGroupBaseAlignment))
      modifies device
      ensures Valid() && fresh(sbtBuffer)
      ensures this.device == device
      ensures shaderPaths == rayGenShaders + missShaders + anyHitShaders + closestHitShaders
      ensures MissOffset(counts) == |rayGenShaders|
      ensures AnyHitOffset(counts) == |rayGenShaders| + |missShaders|
      ensures CHitOffset(counts) == |rayGenShaders| + |missShaders| + |anyHitShaders|
      ensures sbtSize == (|rayGenShaders| + |missShaders| + |closestHitShaders|) * groupSizeAligned
      ensures device.log == old(device.log) + LoadEvents(counts, shaderPaths, loads, createOk, Null, old(device.nextHandle))
      ensures invalidated == false
      ensures LoadSucceeds(counts, shaderPaths, loads, createOk) <==> vkPipeline != Null
      ensures stalePipeline == Null
    {
      this.device := device;
      this.rayGenShaders := rayGenShaders;
      this.missShaders := missShaders;
      this.anyHitShaders := anyHitShaders;
      this.closestHitShaders := closestHitShaders;
      var c := Counts(|rayGenShaders|, |missShaders|, |anyHitShaders|, |closestHitShaders|);
      counts := c;
      shaderPaths := rayGenShaders + missShaders + anyHitShaders + closestHitShaders;
      progSize := shaderGroupBaseAlignment;
      groupHandleSize := shaderGroupHandleSize;
      var aligned := AlignUp(shaderGroupHandleSize, shaderGroupBaseAlignment);
      groupSizeAligned := aligned;
      sbtSize := GroupCount(c) * aligned;
      sbtBuffer := new Byte[GroupCount(c) * aligned];
      vkPipeline := Null;
      stalePipeline := Null;
      shaderGroups := [];
      invalidated := false;
      new;
      var _ := TryReload(loads, createOk, storage);
    }

    /** Marks the pipeline for reloading at the next bind; nothing else changes. */
    method Invalidate()
      modifies this
      ensures invalidated
      ensures vkPipeline == old(vkPipeline) && stalePipeline == old(stalePipeline)
      ensures shaderGroups == old(shaderGroups)
    {
      invalidated := true;
    }

    /**
     * One load attempt. Returns false without touching the device when any-hit
     * shaders exist but do not pair up with closest-hit shaders. Otherwise the
     * stale pipeline is destroyed and cleared first, then modules are compiled
     * until one fails; on a failure the built modules are destroyed and false
     * is returned with the current pipeline untouched. When all compile, the
     * groups are rebuilt, a pipeline is created, and on success the current
     * pipeline becomes the stale one.
     */
    method TryLoadPipeline(loads: string -> bool, createOk: bool) returns (ok: bool)
      requires Valid()
      modifies this, device
      ensures Valid()
      ensures device.log == old(device.log) + LoadEvents(counts, shaderPaths, loads, createOk, old(stalePipeline), old(device.nextHandle))
      ensures ok == LoadSucceeds(counts, shaderPaths, loads, createOk)
      ensures ok ==> vkPipeline == old(device.nextHandle) + |shaderPaths| && stalePipeline == old(vkPipeline)
      ensures !ok ==> vkPipeline == old(vkPipeline)
      ensures stalePipeline == if ok then old(vkPipeline) else if CountsMatch(counts) then Null else old(stalePipeline)
      ensures !CountsMatch(counts) ==> device.nextHandle == old(device.nextHandle)
      ensures shaderGroups == if CountsMatch(counts) && Loaded(shaderPaths, loads, 0) == |shaderPaths|
                              then Groups(counts) else old(shaderGroups)
      ensures invalidated == old(invalidated)
    {
      if |anyHitShaders| != |closestHitShaders| && |anyHitShaders| != 0 {
        return false;
      }
      ghost var log0 := device.log;
      ghost var st := StaleEvents(stalePipeline);
      ghost var be := BuildEvents(shaderPaths, loads, createOk, device.nextHandle);
      RetireStale();
      ok := BuildPipeline(loads, createOk);
      AppendAssoc(log0, st, be);
    }

    /** Destroys the stale pipeline, if any, and clears it. */
    method RetireStale()
      requires Valid()
      modifies this, device
      ensures Valid() && stalePipeline == Null
      ensures vkPipeline == old(vkPipeline) && shaderGroups == old(shaderGroups) && invalidated == old(invalidated)
      ensures device.nextHandle == old(device.nextHandle)
      ensures device.log == old(device.log) + StaleEvents(old(stalePipeline))
    {
      if stalePipeline != Null {
        device.DestroyPipeline(stalePipeline);
        stalePipeline := Null;
      }
    }

    /**
     * Creates the new pipeline; on success the current pipeline becomes the
     * stale one and the new one the current one.
     */
    method InstallPipeline(createOk: bool) returns (newPipeline: Handle)
      requires Valid() && stalePipeline == Null
      modifies this, device
      ensures Valid()
      ensures newPipeline == (if createOk then old(device.nextHandle) else Null)
      ensures device.nextHandle == old(device.nextHandle) + (if createOk then 1 else 0)
      ensures device.log == old(device.log) + [CreatePipeline(newPipeline)]
      ensures newPipeline != Null ==> vkPipeline == newPipeline && stalePipeline == old(vkPipeline)
      ensures newPipeline == Null ==> vkPipeline == old(vkPipeline) && stalePipeline == Null
      ensures shaderGroups == old(shaderGroups) && invalidated == old(invalidated)
    {
      FreshUntouched(device.log, PipelineDestroyed, device.nextHandle);
      newPipeline := device.CreatePipeline(createOk);
      if newPipeline != Null {
        stalePipeline := vkPipeline;
        vkPipeline := newPipeline;
      }
    }

    /**
     * The rest of an attempt once the stale pipeline is gone: the module loop;
     * on a failed module, release what was built and give up; otherwise
     * rebuild the groups, create and install the pipeline, and release the
     * modules.
     */
    method BuildPipeline(loads: string -> bool, createOk: bool) returns (ok: bool)
      requires Valid() && stalePipeline == Null
      modifies this, device
      ensures Valid()
      ensures device.log == old(device.log) + BuildEvents(shaderPaths, loads, createOk, old(device.nextHandle))
      ensures ok == (Loaded(shaderPaths, loads, 0) == |shaderPaths| && createOk)
      ensures vkPipeline == if ok then old(device.nextHandle) + |shaderPaths| else old(vkPipeline)
      ensures stalePipeline == if ok then old(vkPipeline) else Null
      ensures shaderGroups == if Loaded(shaderPaths, loads, 0) == |shaderPaths| then Groups(counts) else old(shaderGroups)
      ensures invalidated == old(invalidated)
    {
      ghost var log0 := device.log;
      ghost var h0 := device.nextHandle;
      ghost var ce := CompileEvents(shaderPaths, loads, 0, h0);
      var modules := CompileModules(device, shaderPaths, loads);
      KeepLive(log0, ce, h0, device.nextHandle, vkPipeline, stalePipeline);
      ghost var log2 := device.log;
      if |modules| < |shaderPaths| {
        ReleaseModules(device, modules);
        KeepLive(log2, DestroyAll(modules), device.nextHandle, device.nextHandle, vkPipeline, stalePipeline);
        AppendAssoc(log0, ce, DestroyAll(modules));
        ok := false;
      } else {
        var stages, groups := BuildGroups(counts);
        shaderGroups := groups;
        var newPipeline := InstallPipeline(createOk);
        ghost var log3 := device.log;
        ReleaseModules(device, modules);
        KeepLive(log3, DestroyAll(modules), device.nextHandle, device.nextHandle, vkPipeline, stalePipeline);
        ghost var tail := [CreatePipeline(newPipeline)] + DestroyAll(modules);
        AppendAssoc(log2, [CreatePipeline(newPipeline)], DestroyAll(modules));
        AppendAssoc(log0, ce, tail);
        ok := newPipeline != Null;
      }
    }

    /**
     * createSBT: copies group g's handle from the handle storage to byte
     * g * progSize of the table, advancing the write pointer by progSize
     * (the base alignment) per group.
     */
    method CreateSBT(storage: seq<Byte>)
      requires Valid() && |storage| == sbtSize
      modifies sbtBuffer
      ensures CopiesFit(sbtSize, |storage|, groupHandleSize, progSize, |shaderGroups|)
      ensures forall j :: 0 <= j < sbtSize ==>
                sbtBuffer[j] == CopiedByte(old(sbtBuffer[..]), storage, groupHandleSize, progSize, |shaderGroups|, j)
    {
      var groupCount := |shaderGroups|;
      CopiesFitTable(counts, groupHandleSize, progSize, groupCount);
      ghost var buf0 := sbtBuffer[..];
      var pData := 0;
      var g := 0;
      while g < groupCount
        invariant 0 <= g <= groupCount
        invariant pData == Slot(g, progSize)
        invariant CopiesFit(sbtSize, |storage|, groupHandleSize, progSize, g)
        invariant forall j :: 0 <= j < sbtSize ==>
                    sbtBuffer[j] == CopiedByte(buf0, storage, groupHandleSize, progSize, g, j)
      {
        CopiesFitPrefix(sbtSize, |storage|, groupHandleSize, progSize, groupCount, g + 1);
        SlotIsProduct(g, groupHandleSize);
        var src := g * groupHandleSize;
        forall k | 0 <= k < groupHandleSize {
          sbtBuffer[pData + k] := storage[src + k];
        }
        pData := pData + progSize;
        g := g + 1;
      }
    }

    /**
     * The table after createSBT has run for this pipeline's groups over a
     * table that held before: every copy fits, and each byte is the group
     * handle copied over it or, outside the copied slots, the byte of before.
     */
    predicate SbtRewritten(before: seq<Byte>, storage: seq<Byte>)
      reads this, sbtBuffer
    {
      && |before| == sbtSize
      && CopiesFit(sbtSize, |storage|, groupHandleSize, progSize, GroupCount(counts))
      && sbtBuffer.Length == sbtSize
      && forall j :: 0 <= j < sbtSize ==>
           sbtBuffer[j] == CopiedByte(before, storage, groupHandleSize, progSize, GroupCount(counts), j)
    }

    /**
     * tryReload: on a successful load the SBT is rewritten and the
     * invalidated flag cleared; otherwise both are left as they were.
     */
    method TryReload(loads: string -> bool, createOk: bool, storage: seq<Byte>) returns (ok: bool)
      requires Valid() && |storage| == sbtSize
      modifies this, device, sbtBuffer
      ensures Valid()
      ensures device.log == old(device.log) + LoadEvents(counts, shaderPaths, loads, createOk, old(stalePipeline), old(device.nextHandle))
      ensures ok == LoadSucceeds(counts, shaderPaths, loads, createOk)
      ensures ok ==> vkPipeline == old(device.nextHandle) + |shaderPaths| && stalePipeline == old(vkPipeline)
      ensures !ok ==> vkPipeline == old(vkPipeline)
      ensures stalePipeline == if ok then old(vkPipeline) else if CountsMatch(counts) then Null else old(stalePipeline)
      ensures invalidated == (if ok then false else old(invalidated))
      ensures shaderGroups == if CountsMatch(counts) && Loaded(shaderPaths, loads, 0) == |shaderPaths|
                              then Groups(counts) else old(shaderGroups)
      ensures ok ==> CopiesFit(sbtSize, |storage|, groupHandleSize, progSize, GroupCount(counts))
      ensures ok ==> forall j :: 0 <= j < sbtSize ==>
                sbtBuffer[j] == CopiedByte(old(sbtBuffer[..]), storage, groupHandleSize, progSize, GroupCount(counts), j)
      ensures !ok ==> sbtBuffer[..] == old(sbtBuffer[..])
    {
      ok := TryLoadPipeline(loads, createOk);
      if ok {
        invalidated := false;
        CreateSBT(storage);
      }
    }

    /**
     * bind: reloads first when invalidated, then binds whatever pipeline is
     * current afterwards: the new one after a successful reload, the old one
     * after a failed reload or when no reload was due.
     */
    method Bind(loads: string -> bool, createOk: bool, storage: seq<Byte>) returns (bound: Handle)
      requires Valid() && |storage| == sbtSize
      modifies this, device, sbtBuffer
      ensures Valid()
      ensures bound == vkPipeline
      ensures !old(invalidated) ==>
                && device.log == old(device.log) && device.nextHandle == old(device.nextHandle)
                && vkPipeline == old(vkPipeline) && stalePipeline == old(stalePipeline) && !invalidated
                && shaderGroups == old(shaderGroups) && sbtBuffer[..] == old(sbtBuffer[..])
      ensures old(invalidated) ==>
                var ok := LoadSucceeds(counts, shaderPaths, loads, createOk);
                && device.log == old(device.log) + LoadEvents(counts, shaderPaths, loads, createOk, old(stalePipeline), old(device.nextHandle))
                && invalidated == !ok
                && bound == (if ok then old(device.nextHandle) + |shaderPaths| else old(vkPipeline))
                && stalePipeline == (if ok then old(vkPipeline) else if CountsMatch(counts) then Null else old(stalePipeline))
                && shaderGroups == (if CountsMatch(counts) && Loaded(shaderPaths, loads, 0) == |shaderPaths|
                                    then Groups(counts) else old(shaderGroups))
                && (ok ==> SbtRewritten(old(sbtBuffer[..]), storage))
                && (!ok ==> sbtBuffer[..] == old(sbtBuffer[..]))
    {
      if invalidated {
        ghost var before := sbtBuffer[..];
        var ok := TryReload(loads, createOk, storage);
        assert ok ==> SbtRewritten(before, storage);
        bound := vkPipeline;
      } else {
        bound := vkPipeline;
      }
    }

    /** trace: the four strided regions for this pipeline's table at sbtAddress. */
    function Trace(sbtAddress: nat): (r: TraceRegions)
      requires Valid()
      reads this, device
      ensures r == Regions(counts, sbtAddress, groupSizeAligned)
    {
      TraceRegions(
        Region(sbtAddress + 0 * groupSizeAligned, groupSizeAligned, groupSizeAligned * |rayGenShaders|),
        Region(sbtAddress + |rayGenShaders| * groupSizeAligned, groupSizeAligned, groupSizeAligned * |missShaders|),
        Region(sbtAddress + (|rayGenShaders| + |missShaders|) * groupSizeAligned, groupSizeAligned,
               groupSizeAligned * |closestHitShaders|),
        Region(0, 0, 0))
    }

    /**
     * The destructor: destroys the current pipeline (a null handle is a no-op);
     * the stale pipeline is not destroyed.
     */
    method Destroy()
      requires Valid()
      modifies device
      ensures device.log == old(device.log) + [DestroyPipeline(vkPipeline)]
      ensures NoDoubleDestroy(device.log)
      ensures stalePipeline != Null ==> Count(device.log, PipelineDestroyed, stalePipeline) == 0
    {
      device.DestroyPipeline(vkPipeline);
      forall x ensures Count(device.log, PipelineDestroyed, x)
                       == Count(old(device.log), PipelineDestroyed, x) + (if x == vkPipeline && x != Null then 1 else 0) {
        CountAppend(old(device.log), [DestroyPipeline(vkPipeline)], PipelineDestroyed, x);
        CountSingle(DestroyPipeline(vkPipeline), PipelineDestroyed, x);
      }
    }
  }

  /**
   * The module loop of tryLoadPipeline: for each path, wait for the device
   * to go idle and create the module, stopping at the first module that
   * fails. Returns the modules built; no pipeline is touched.
   */
  method CompileModules(device: Device, paths: seq<string>, loads: string -> bool) returns (modules: seq<Handle>)
    requires device.Valid()
    modifies device
    ensures device.Valid()
    ensures modules == ModuleRange(old(device.nextHandle), Loaded(paths, loads, 0))
    ensures device.nextHandle == old(device.nextHandle) + |modules|
    ensures device.log == old(device.log) + CompileEvents(paths, loads, 0, old(device.nextHandle))
    ensures forall x :: Count(device.log, PipelineDestroyed, x) == Count(old(device.log), PipelineDestroyed, x)
  {
    ghost var log1 := device.log;
    ghost var h0 := device.nextHandle;
    CompileKeepsPipelines(log1, paths, loads, h0);
    modules := [];
    var i := 0;
    while i < |paths|
      invariant device.Valid() && 0 <= i <= |paths|
      invariant device.nextHandle == h0 + i
      invariant modules == ModuleRange(h0, i)
      invariant Loaded(paths, loads, i) == Loaded(paths, loads, 0)
      invariant device.log + CompileEvents(paths, loads, i, device.nextHandle)
                == log1 + CompileEvents(paths, loads, 0, h0)
      decreases |paths| - i
    {
      ghost var log := device.log;
      device.WaitIdle();
      var m := device.CreateShaderModule(paths[i], loads(paths[i]));
      ghost var step := [WaitIdle, CreateShaderModule(paths[i], m)];
      assert device.log == log + step;
      if m == Null {
        assert CompileEvents(paths, loads, i, h0 + i) == step;
        assert device.log == log1 + CompileEvents(paths, loads, 0, h0);
        break;
      }
      assert CompileEvents(paths, loads, i, h0 + i) == step + CompileEvents(paths, loads, i + 1, h0 + i + 1);
      AppendAssoc(log, step, CompileEvents(paths, loads, i + 1, h0 + i + 1));
      modules := modules + [m];
      i := i + 1;
    }
    assert device.log == log1 + CompileEvents(paths, loads, 0, h0);
  }

  /** The clean-up loop: destroys each module in order; no pipeline is touched. */
  method ReleaseModules(device: Device, modules: seq<Handle>)
    requires device.Valid()
    requires forall k :: 0 <= k < |modules| ==> modules[k] < device.nextHandle
    modifies device
    ensures device.Valid() && device.nextHandle == old(device.nextHandle)
    ensures device.log == old(device.log) + DestroyAll(modules)
    ensures forall x :: Count(device.log, PipelineDestroyed, x) == Count(old(device.log), PipelineDestroyed, x)
  {
    var j := 0;
    while j < |modules|
      invariant 0 <= j <= |modules|
      invariant device.Valid() && device.nextHandle == old(device.nextHandle)
      invariant device.log == old(device.log) + DestroyAll(modules[..j])
    {
      device.DestroyShaderModule(modules[j]);
      assert DestroyAll(modules[..j + 1]) == DestroyAll(modules[..j]) + [DestroyShaderModule(modules[j])];
      j := j + 1;
    }
    assert modules[..j] == modules;
    DestroyAllKeepsPipelines(old(device.log), modules);
  }

  /** Every copy createSBT makes stays inside the table and the handle storage. */
  lemma CopiesFitTable(c: Counts, handleSize: nat, baseAlignment: nat, n: nat)
    requires handleSize > 0 && baseAlignment > 0
    requires n == 0 || n == GroupCount(c)
    ensures CopiesFit(SbtSize(c, AlignUp(handleSize, baseAlignment)), SbtSize(c, AlignUp(handleSize, baseAlignment)),
                      handleSize, baseAlignment, n)
  {
    if n > 0 {
      var a := AlignUp(handleSize, baseAlignment);
      assert a >= baseAlignment by {
        var q := a / baseAlignment;
        assert a == q * baseAlignment;
        assert q >= 1;
      }
      SlotIsProduct(n, handleSize);
      SlotIsProduct(n - 1, baseAlignment);
      MulMono(handleSize, a, n);
      MulMono(baseAlignment, a, n - 1);
      MulSucc(n - 1, a);
    }
  }
}
