/** `spawn_data` and `spawn_helper`: what a launched task does on its own
    stack. The helper acquires a stack from the allocator and switches into
    it; there the task builds its yield token from its own context, the
    launching context and its handler, runs the body, calls the handler if and
    only if the launch asked for it, and switches back to the launching side,
    after which the stack is released. The body is opaque here: it may
    suspend and resume any number of times, but from the launcher's point of
    view it is one event that ends when it returns. */
module Launcher {
  import opened YieldContext

  /** The state shared by the launching side and the task. */
  datatype SpawnData<H, F, S> = SpawnData(
    handler: H,
    callHandler: bool,
    body: F,
    salloc: S)

  /** What the launch does, in order. */
  datatype Event<H> =
    | StackAcquired
    | BodyRan(token: YieldToken<H>)
    | HandlerCalled(handler: H)
    | ReturnedToCaller
    | StackReleased

  function CountHandlerCalls<H>(trace: seq<Event<H>>): nat
    decreases |trace|
  {
    if |trace| == 0 then 0
    else (if trace[0].HandlerCalled? then 1 else 0) + CountHandlerCalls(trace[1..])
  }

  /** Runs a launched task whose continuation is `callee` and whose
      launching side is `caller`. */
  function RunTask<H, F, S>(d: SpawnData<H, F, S>, callee: ContextId, caller: ContextId)
    : (trace: seq<Event<H>>)
    ensures |trace| >= 4
    ensures trace[0] == StackAcquired
    ensures trace[1] == BodyRan(Make(WeakRef(callee), caller, d.handler))
    ensures trace[|trace| - 2] == ReturnedToCaller && trace[|trace| - 1] == StackReleased
    ensures forall i :: 0 <= i < |trace| && trace[i].HandlerCalled? ==>
      trace[i].handler == d.handler && 1 < i < |trace| - 2
  {
    [StackAcquired, BodyRan(Make(WeakRef(callee), caller, d.handler))]
    + (if d.callHandler then [HandlerCalled(d.handler)] else [])
    + [ReturnedToCaller, StackReleased]
  }

  lemma {:induction false} CountHandlerCallsAppend<H>(a: seq<Event<H>>, b: seq<Event<H>>)
    ensures CountHandlerCalls(a + b) == CountHandlerCalls(a) + CountHandlerCalls(b)
    decreases |a|
  {
    if |a| > 0 {
      assert (a + b)[1..] == a[1..] + b;
      CountHandlerCallsAppend(a[1..], b);
    } else {
      assert a + b == b;
    }
  }

  /** The handler is called exactly once when the launch asks for it and
      never otherwise, and only after the body has returned. */
  lemma HandlerCalledIffRequested<H, F, S>(d: SpawnData<H, F, S>, callee: ContextId, caller: ContextId)
    ensures CountHandlerCalls(RunTask(d, callee, caller)) == (if d.callHandler then 1 else 0)
    ensures d.callHandler <==> HandlerCalled(d.handler) in RunTask(d, callee, caller)
  {
    var head := [StackAcquired, BodyRan(Make(WeakRef(callee), caller, d.handler))];
    var mid: seq<Event<H>> := if d.callHandler then [HandlerCalled(d.handler)] else [];
    var tail := [ReturnedToCaller, StackReleased];
    var trace := RunTask(d, callee, caller);
    assert trace == head + mid + tail;
    CountHandlerCallsAppend(head + mid, tail);
    CountHandlerCallsAppend(head, mid);
    assert CountHandlerCalls(head) == 0 by {
      assert head[1..][1..] == [];
    }
    assert CountHandlerCalls(tail) == 0 by {
      assert tail[1..][1..] == [];
    }
    if d.callHandler {
      assert trace[2] == HandlerCalled(d.handler);
    }
  }

  /** The token the body receives names the task's own context and carries
      the launch's handler and no error slot. */
  lemma BodyTokenBindsTask<H, F, S>(d: SpawnData<H, F, S>, callee: ContextId, caller: ContextId)
    ensures var t := RunTask(d, callee, caller)[1].token;
      t.callee == WeakRef(callee) && t.caller == caller && t.handler == d.handler && t.ec == NoSlot
  {
  }
}
