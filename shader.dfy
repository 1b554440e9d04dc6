/**
 * The shader loader (shader.h, shader.cpp). A Shader starts a background task
 * that reads a SPIR-V file and creates a shader module; `data()` joins that
 * task the first time its result is needed and caches it.
 *
 * The task is not run here: `future` holds the ShaderData the task yields, and
 * the ghost counter `joins` counts the calls that took the task's result
 * (blocking until it was ready).
 */
module Shaders {
  import opened Vulkan

  /** ShaderData: a shader module handle, VK_NULL_HANDLE when absent. */
  datatype ShaderData = ShaderData(shaderModule: Handle) {
    predicate IsValid() {
      shaderModule != Null
    }
  }

  /** A default-constructed ShaderData. */
  const EmptyShaderData := ShaderData(Null)

  /** What the environment answers to the two steps of a load task. */
  datatype LoadOutcome =
    | FileUnreadable                  // QFile::open failed
    | ModuleRejected(error: int)      // vkCreateShaderModule returned an error code
    | ModuleCreated(moduleId: nat)      // vkCreateShaderModule succeeded with a live module

  /** The body of the task started by `load`: failures are reported as an invalid ShaderData, never raised. */
  function LoadTask(outcome: LoadOutcome): (sd: ShaderData)
    ensures sd.IsValid() <==> outcome.ModuleCreated?
    ensures outcome.ModuleCreated? ==> sd.shaderModule == Live(outcome.moduleId)
  {
    match outcome
    case FileUnreadable => EmptyShaderData
    case ModuleRejected(_) => EmptyShaderData
    case ModuleCreated(m) => ShaderData(Live(m))
  }

  /** The value `data()` leaves in mData: the task's result once it may be running and nothing valid is cached. */
  function Observed(maybeRunning: bool, cached: ShaderData, future: ShaderData): (d: ShaderData)
    ensures d == cached || d == future
    ensures cached.IsValid() || !maybeRunning ==> d == cached
    ensures maybeRunning && !cached.IsValid() ==> d == future
  {
    if maybeRunning && !cached.IsValid() then future else cached
  }

  /** Observing twice is observing once: a second `data()` returns what the first one did. */
  lemma ObservedIdempotent(maybeRunning: bool, cached: ShaderData, future: ShaderData)
    ensures var d := Observed(maybeRunning, cached, future);
            Observed(maybeRunning, d, future) == d
  {
  }

  class Shader {
    var maybeRunning: bool
    var future: ShaderData
    var data: ShaderData
    ghost var joins: nat

    /** The state `data()` would leave in mData. */
    function Current(): ShaderData
      reads this
    {
      Observed(maybeRunning, data, future)
    }

    /** True when the next `data()` takes the task's result (and waits for it). */
    predicate WillJoin()
      reads this
    {
      maybeRunning && !data.IsValid()
    }

    /** A fresh Shader: no task, invalid data. */
    constructor ()
      ensures !maybeRunning && data == EmptyShaderData && joins == 0
      ensures !Current().IsValid() && !WillJoin()
    {
      maybeRunning := false;
      future := EmptyShaderData;
      data := EmptyShaderData;
      joins := 0;
    }

    /** shader.cpp `data()`: take the task's result only while it may be running and nothing valid is cached. */
    method Data() returns (d: ShaderData)
      modifies this`data, this`joins
      ensures data == Observed(old(maybeRunning), old(data), future) && d == data
      ensures joins == old(joins) + (if old(WillJoin()) then 1 else 0)
      ensures old(data).IsValid() ==> data == old(data) && joins == old(joins)
    {
      if maybeRunning && !data.IsValid() {
        data := future;
        joins := joins + 1;
      }
      d := data;
    }

    /** shader.h `isValid()`: `data()->isValid()`, so it shares the join of `data()`. */
    method IsValid() returns (valid: bool)
      modifies this`data, this`joins
      ensures data == Observed(old(maybeRunning), old(data), future)
      ensures valid == data.IsValid()
      ensures joins == old(joins) + (if old(WillJoin()) then 1 else 0)
      ensures !valid ==> !Current().IsValid()
    {
      var d := Data();
      valid := d.IsValid();
    }

    /** shader.cpp `reset()`: join a pending task, then forget it. */
    method Reset()
      modifies this`data, this`joins, this`maybeRunning
      ensures data == EmptyShaderData && !maybeRunning
      ensures joins == old(joins) + (if old(WillJoin()) then 1 else 0)
      ensures !Current().IsValid() && !WillJoin()
    {
      var joined := Data();
      data := EmptyShaderData;
      maybeRunning := false;
    }

    /** shader.cpp `load()`: reset, then start the task whose result is LoadTask(outcome). */
    method Load(outcome: LoadOutcome)
      modifies this`data, this`joins, this`maybeRunning, this`future
      ensures maybeRunning && data == EmptyShaderData
      ensures future == LoadTask(outcome)
      ensures joins == old(joins) + (if old(WillJoin()) then 1 else 0)
      ensures Current().IsValid() <==> outcome.ModuleCreated?
    {
      Reset();
      maybeRunning := true;
      future := LoadTask(outcome);
    }
  }

  /**
   * After a load, two data() calls return the task's result. A successful
   * result is cached, so only the first call joins; an invalid one is not, so
   * every call takes the (finished) task's result again.
   */
  method LoadThenDataTwice(outcome: LoadOutcome) returns (first: ShaderData, second: ShaderData, ghost joined: nat)
    ensures first == second == LoadTask(outcome)
    ensures joined == (if outcome.ModuleCreated? then 1 else 2)
  {
    var s := new Shader();
    s.Load(outcome);
    first := s.Data();
    second := s.Data();
    joined := s.joins;
  }
}
