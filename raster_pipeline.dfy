/**
 * The hot-reloadable raster pipeline. It holds a single pipeline handle and
 * no stale slot: a reload loads the vertex and fragment shaders, creates a
 * pipeline, and on success waits for the device to go idle and destroys the
 * previous pipeline at once.
 */
module RasterPipelines {
  import opened Gpu

  /**
   * Every device call one tryLoadPipeline makes, given the current handle
   * and the next fresh handle h0: both shader loads, the creation, and on
   * success a waitIdle and the destruction of the previous pipeline.
   */
  function RasterLoadEvents(vtxShader: string, fragShader: string, createOk: bool,
                            current: Handle, h0: Handle): seq<Event>
  {
    [LoadFile(vtxShader), LoadFile(fragShader), CreatePipeline(if createOk then h0 else Null)]
    + (if createOk then [WaitIdle, DestroyPipeline(current)] else [])
  }

  /**
   * The effect of one attempt on handle x: the only pipeline destroyed is the
   * previous one, once, and only on success; the only pipeline created is
   * h0, and only on success; no shader module is created or destroyed.
   */
  lemma {:induction false} RasterLoadCount(vtxShader: string, fragShader: string, createOk: bool,
                                           current: Handle, h0: Handle, act: Action, x: Handle)
    requires h0 != Null
    ensures Count(RasterLoadEvents(vtxShader, fragShader, createOk, current, h0), act, x) ==
      if !createOk || x == Null then 0
      else match act
        case PipelineDestroyed => if x == current then 1 else 0
        case PipelineCreated => if x == h0 then 1 else 0
        case ModuleCreated => 0
        case ModuleDestroyed => 0
  {
    var cp := CreatePipeline(if createOk then h0 else Null);
    var head := [LoadFile(vtxShader), LoadFile(fragShader)];
    var tail := if createOk then [WaitIdle, DestroyPipeline(current)] else [];
    assert RasterLoadEvents(vtxShader, fragShader, createOk, current, h0) == head + [cp] + tail;
    CountAppend(head + [cp], tail, act, x);
    CountAppend(head, [cp], act, x);
    CountSingle(cp, act, x);
    assert head == [LoadFile(vtxShader)] + [LoadFile(fragShader)];
    CountAppend([LoadFile(vtxShader)], [LoadFile(fragShader)], act, x);
    CountSingle(LoadFile(vtxShader), act, x);
    CountSingle(LoadFile(fragShader), act, x);
    if createOk {
      assert tail == [WaitIdle] + [DestroyPipeline(current)];
      CountAppend([WaitIdle], [DestroyPipeline(current)], act, x);
      CountSingle(WaitIdle, act, x);
      CountSingle(DestroyPipeline(current), act, x);
    }
  }

  /**
   * Shaders load in the order vertex, then fragment, before the pipeline is
   * created; on success the device is waited on and only then is the
   * previous pipeline destroyed, and on failure nothing follows the creation.
   */
  lemma RasterLoadOrder(vtxShader: string, fragShader: string, createOk: bool, current: Handle, h0: Handle)
    ensures var ev := RasterLoadEvents(vtxShader, fragShader, createOk, current, h0);
      && ev[0] == LoadFile(vtxShader) && ev[1] == LoadFile(fragShader)
      && ev[2] == CreatePipeline(if createOk then h0 else Null)
      && (createOk ==> |ev| == 5 && ev[3] == WaitIdle && ev[4] == DestroyPipeline(current))
      && (!createOk ==> |ev| == 3)
      && (forall k :: 0 <= k < |ev| && ev[k].DestroyPipeline? ==> createOk && k == 4)
  {
  }

  /**
   * Destroy-once for the raster pipeline: if no pipeline was destroyed twice
   * and the current one not at all, an attempt keeps it so, and every handle
   * other than the current one keeps its destroy count.
   */
  lemma RasterAttemptKeepsDestroyOnce(log0: seq<Event>, vtxShader: string, fragShader: string,
                                      createOk: bool, current: Handle, h0: Handle)
    requires h0 != Null
    requires NoDoubleDestroy(log0)
    requires current != Null ==> Count(log0, PipelineDestroyed, current) == 0
    ensures NoDoubleDestroy(log0 + RasterLoadEvents(vtxShader, fragShader, createOk, current, h0))
    ensures forall x :: x != current ==>
              Count(log0 + RasterLoadEvents(vtxShader, fragShader, createOk, current, h0), PipelineDestroyed, x)
              == Count(log0, PipelineDestroyed, x)
  {
    var ev := RasterLoadEvents(vtxShader, fragShader, createOk, current, h0);
    forall x ensures Count(log0 + ev, PipelineDestroyed, x)
                     == Count(log0, PipelineDestroyed, x) + (if createOk && x == current && x != Null then 1 else 0) {
      CountAppend(log0, ev, PipelineDestroyed, x);
      RasterLoadCount(vtxShader, fragShader, createOk, current, h0, PipelineDestroyed, x);
    }
  }

  class RasterPipeline {
    const device: Device
    const vtxShader: string
    const fragShader: string

    var vkPipeline: Handle
    var invalidated: bool

    ghost predicate Valid()
      reads this, device
    {
      && device.Valid()
      && vkPipeline < device.nextHandle
      && (vkPipeline != Null ==> Count(device.log, PipelineDestroyed, vkPipeline) == 0)
      && NoDoubleDestroy(device.log)
    }

    /**
     * The constructor: starts with a null handle and the flag clear, then
     * makes one load attempt. createOk is the device's answer for creation.
     */
    constructor (device: Device, vtxShader: string, fragShader: string, createOk: bool)
      requires device.Valid() && NoDoubleDestroy(device.log)
      modifies device
      ensures Valid()
      ensures this.device == device && this.vtxShader == vtxShader && this.fragShader == fragShader
      ensures device.log == old(device.log) + RasterLoadEvents(vtxShader, fragShader, createOk, Null, old(device.nextHandle))
      ensures vkPipeline == if createOk then old(device.nextHandle) else Null
      ensures !invalidated
    {
      this.device := device;
      this.vtxShader := vtxShader;
      this.fragShader := fragShader;
      vkPipeline := Null;
      invalidated := false;
      new;
      TryReload(createOk);
    }

    /** Marks the pipeline for reloading at the next get; the handle is unchanged. */
    method Invalidate()
      modifies this
      ensures invalidated && vkPipeline == old(vkPipeline)
    {
      invalidated := true;
    }

    /**
     * One load attempt. On success the previous pipeline is destroyed at once
     * and replaced; on failure false is returned and the handle is unchanged.
     */
    method TryLoadPipeline(createOk: bool) returns (ok: bool)
      requires Valid()
      modifies this, device
      ensures Valid()
      ensures device.log == old(device.log) + RasterLoadEvents(vtxShader, fragShader, createOk, old(vkPipeline), old(device.nextHandle))
      ensures ok == createOk
      ensures vkPipeline == if ok then old(device.nextHandle) else old(vkPipeline)
      ensures invalidated == old(invalidated)
    {
      ghost var log0 := device.log;
      ghost var h0 := device.nextHandle;
      RasterAttemptKeepsDestroyOnce(log0, vtxShader, fragShader, createOk, vkPipeline, h0);
      FreshUntouched(log0, PipelineDestroyed, h0);
      RasterLoadCount(vtxShader, fragShader, createOk, vkPipeline, h0, PipelineDestroyed, h0);
      ghost var ev := RasterLoadEvents(vtxShader, fragShader, createOk, vkPipeline, h0);
      device.LoadFile(vtxShader);
      device.LoadFile(fragShader);
      var newPipeline := device.CreatePipeline(createOk);
      ghost var head := [LoadFile(vtxShader), LoadFile(fragShader), CreatePipeline(newPipeline)];
      assert device.log == log0 + head;
      if newPipeline != Null {
        device.WaitIdle();
        device.DestroyPipeline(vkPipeline);
        assert ev == head + [WaitIdle, DestroyPipeline(vkPipeline)];
        assert device.log == log0 + ev;
        vkPipeline := newPipeline;
        ok := true;
      } else {
        assert ev == head;
        ok := false;
      }
    }

    /** tryReload: clears the flag only when the attempt succeeded. */
    method TryReload(createOk: bool)
      requires Valid()
      modifies this, device
      ensures Valid()
      ensures device.log == old(device.log) + RasterLoadEvents(vtxShader, fragShader, createOk, old(vkPipeline), old(device.nextHandle))
      ensures vkPipeline == if createOk then old(device.nextHandle) else old(vkPipeline)
      ensures invalidated == (if createOk then false else old(invalidated))
    {
      var ok := TryLoadPipeline(createOk);
      if ok {
        invalidated := false;
      }
    }

    /** get: reloads only when invalidated, then returns the current handle. */
    method Get(createOk: bool) returns (p: Handle)
      requires Valid()
      modifies this, device
      ensures Valid()
      ensures p == vkPipeline
      ensures !old(invalidated) ==> device.log == old(device.log) && vkPipeline == old(vkPipeline) && !invalidated
      ensures old(invalidated) ==>
                device.log == old(device.log) + RasterLoadEvents(vtxShader, fragShader, createOk, old(vkPipeline), old(device.nextHandle))
                && vkPipeline == (if createOk then old(device.nextHandle) else old(vkPipeline))
                && invalidated == !createOk
    {
      if invalidated {
        TryReload(createOk);
      }
      p := vkPipeline;
    }

    /** The destructor: destroys the handle only when it is non-null. */
    method Destroy()
      requires Valid()
      modifies device
      ensures device.log == old(device.log) + (if vkPipeline != Null then [DestroyPipeline(vkPipeline)] else [])
      ensures NoDoubleDestroy(device.log)
    {
      if vkPipeline != Null {
        device.DestroyPipeline(vkPipeline);
      }
    }
  }
}
