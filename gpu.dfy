/**
 * The GPU device as the pipeline objects see it: an oracle that answers
 * "does this shader module compile?" and "does pipeline creation succeed?",
 * hands out fresh handle ids, and records every call in a ghost event log.
 */
module Gpu {

  /** An abstract Vulkan handle; 0 plays the part of VK_NULL_HANDLE. */
  type Handle = nat

  const Null: Handle := 0

  /** One device call, in the order the host issues it. */
  datatype Event =
    | WaitIdle
    | LoadFile(path: string)
    | CreateShaderModule(path: string, shaderModule: Handle)   // shaderModule == Null: compilation failed
    | DestroyShaderModule(shaderModule: Handle)
    | CreatePipeline(pipeline: Handle)                   // pipeline == Null: creation failed
    | DestroyPipeline(pipeline: Handle)

  /** The largest handle an event mentions (0 when it mentions none). */
  function HandleOf(e: Event): Handle
  {
    match e
    case WaitIdle => Null
    case LoadFile(_) => Null
    case CreateShaderModule(_, m) => m
    case DestroyShaderModule(m) => m
    case CreatePipeline(p) => p
    case DestroyPipeline(p) => p
  }

  /** What an event can do to a (non-null) handle. */
  datatype Action = PipelineCreated | PipelineDestroyed | ModuleCreated | ModuleDestroyed

  /**
   * Whether event e performs action a on handle h. Destroying VK_NULL_HANDLE
   * is a no-op in Vulkan and a failed creation yields no handle, so Null is
   * never affected.
   */
  predicate Affects(e: Event, a: Action, h: Handle)
  {
    h != Null &&
    match a
    case PipelineCreated => e == CreatePipeline(h)
    case PipelineDestroyed => e == DestroyPipeline(h)
    case ModuleCreated => e.CreateShaderModule? && e.shaderModule == h
    case ModuleDestroyed => e == DestroyShaderModule(h)
  }

  /** How many events of log perform action a on handle h. */
  function Count(log: seq<Event>, a: Action, h: Handle): nat
  {
    if log == [] then 0
    else Count(log[..|log| - 1], a, h) + (if Affects(log[|log| - 1], a, h) then 1 else 0)
  }

  /** No pipeline handle was ever destroyed twice. */
  ghost predicate NoDoubleDestroy(log: seq<Event>)
  {
    forall h :: Count(log, PipelineDestroyed, h) <= 1
  }

  /** Every handle the log mentions is below bound. */
  ghost predicate HandlesBelow(log: seq<Event>, bound: nat)
  {
    forall k :: 0 <= k < |log| ==> HandleOf(log[k]) < bound
  }

  /** Counts distribute over concatenation of logs. */
  lemma {:induction false} CountAppend(a: seq<Event>, b: seq<Event>, act: Action, h: Handle)
    ensures Count(a + b, act, h) == Count(a, act, h) + Count(b, act, h)
    decreases |b|
  {
    if b == [] {
      assert a + b == a;
    } else {
      var b' := b[..|b| - 1];
      assert (a + b)[..|a + b| - 1] == a + b';
      CountAppend(a, b', act, h);
    }
  }

  /** The count over a one-event log. */
  lemma CountSingle(e: Event, act: Action, h: Handle)
    ensures Count([e], act, h) == if Affects(e, act, h) then 1 else 0
  {
    assert [e][..0] == [];
  }

  /** Appending one event adds one to exactly the counts that event affects. */
  lemma CountSnoc(log: seq<Event>, e: Event)
    ensures forall act, h :: Count(log + [e], act, h) == Count(log, act, h) + (if Affects(e, act, h) then 1 else 0)
  {
    assert (log + [e])[..|log|] == log;
  }

  /** A handle at or above every handle a log mentions is affected by none of its events. */
  lemma {:induction false} FreshUntouched(log: seq<Event>, act: Action, h: Handle)
    requires HandlesBelow(log, h)
    ensures Count(log, act, h) == 0
    decreases |log|
  {
    if log != [] {
      var init := log[..|log| - 1];
      assert HandlesBelow(init, h) by {
        forall k | 0 <= k < |init| ensures HandleOf(init[k]) < h {
          assert init[k] == log[k];
        }
      }
      FreshUntouched(init, act, h);
      assert HandleOf(log[|log| - 1]) < h;
    }
  }

  /**
   * The device. nextHandle is the next id it will hand out; log is every call
   * made on it so far.
   */
  class Device {
    var nextHandle: nat
    ghost var log: seq<Event>

    ghost predicate Valid()
      reads this
    {
      1 <= nextHandle && HandlesBelow(log, nextHandle)
    }

    constructor ()
      ensures Valid() && log == [] && nextHandle == 1
    {
      nextHandle := 1;
      log := [];
    }

    method WaitIdle()
      requires Valid()
      modifies this
      ensures Valid() && nextHandle == old(nextHandle) && log == old(log) + [Event.WaitIdle]
      ensures forall act, h :: Count(log, act, h) == Count(old(log), act, h) + (if Affects(Event.WaitIdle, act, h) then 1 else 0)
    {
      CountSnoc(log, Event.WaitIdle);
      log := log + [Event.WaitIdle];
    }

    /** nvh::loadFile: reads a shader binary through the search paths. */
    method LoadFile(path: string)
      requires Valid()
      modifies this
      ensures Valid() && nextHandle == old(nextHandle) && log == old(log) + [Event.LoadFile(path)]
      ensures forall act, h :: Count(log, act, h) == Count(old(log), act, h) + (if Affects(Event.LoadFile(path), act, h) then 1 else 0)
    {
      CountSnoc(log, Event.LoadFile(path));
      log := log + [Event.LoadFile(path)];
    }

    /** Loads and compiles one module; compiles is the oracle's answer for this path. */
    method CreateShaderModule(path: string, compiles: bool) returns (m: Handle)
      requires Valid()
      modifies this
      ensures Valid()
      ensures m == (if compiles then old(nextHandle) else Null)
      ensures nextHandle == old(nextHandle) + (if compiles then 1 else 0)
      ensures log == old(log) + [Event.CreateShaderModule(path, m)]
      ensures forall act, h :: Count(log, act, h) == Count(old(log), act, h) + (if Affects(Event.CreateShaderModule(path, m), act, h) then 1 else 0)
    {
      if compiles {
        m := nextHandle;
        nextHandle := nextHandle + 1;
      } else {
        m := Null;
      }
      CountSnoc(log, Event.CreateShaderModule(path, m));
      log := log + [Event.CreateShaderModule(path, m)];
    }

    method DestroyShaderModule(m: Handle)
      requires Valid() && m < nextHandle
      modifies this
      ensures Valid() && nextHandle == old(nextHandle)
      ensures log == old(log) + [Event.DestroyShaderModule(m)]
      ensures forall act, h :: Count(log, act, h) == Count(old(log), act, h) + (if Affects(Event.DestroyShaderModule(m), act, h) then 1 else 0)
    {
      CountSnoc(log, Event.DestroyShaderModule(m));
      log := log + [Event.DestroyShaderModule(m)];
    }

    /** Creates a pipeline; ok is the oracle's answer. */
    method CreatePipeline(ok: bool) returns (p: Handle)
      requires Valid()
      modifies this
      ensures Valid()
      ensures p == (if ok then old(nextHandle) else Null)
      ensures nextHandle == old(nextHandle) + (if ok then 1 else 0)
      ensures log == old(log) + [Event.CreatePipeline(p)]
      ensures forall act, h :: Count(log, act, h) == Count(old(log), act, h) + (if Affects(Event.CreatePipeline(p), act, h) then 1 else 0)
    {
      if ok {
        p := nextHandle;
        nextHandle := nextHandle + 1;
      } else {
        p := Null;
      }
      CountSnoc(log, Event.CreatePipeline(p));
      log := log + [Event.CreatePipeline(p)];
    }

    method DestroyPipeline(p: Handle)
      requires Valid() && p < nextHandle
      modifies this
      ensures Valid() && nextHandle == old(nextHandle)
      ensures log == old(log) + [Event.DestroyPipeline(p)]
      ensures forall act, h :: Count(log, act, h) == Count(old(log), act, h) + (if Affects(Event.DestroyPipeline(p), act, h) then 1 else 0)
    {
      CountSnoc(log, Event.DestroyPipeline(p));
      log := log + [Event.DestroyPipeline(p)];
    }
  }
}
