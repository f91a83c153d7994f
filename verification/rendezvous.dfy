/** The single-async-call rendezvous between `coro_handler` (the completion
    handler an asynchronous operation invokes) and `coro_async_result::get()`
    (where the task waits for that invocation).

    Both sides share a readiness counter that starts at 2, an error slot and,
    for value-carrying operations, a value slot. The completion writes the
    slots and decrements; the task drops its strong reference to its own
    context and decrements. Whichever decrement reaches zero continues the
    task: the completion by resuming it, the task by not suspending at all.

    Each side is split into steps, and a schedule is any sequence of them;
    the theorems below quantify over every schedule, so over every
    interleaving of these steps. The task's decrement and its switch away
    (`--ready_` then `caller_.resume()`) form one step: the completion is
    taken to run serialised with the task, as it does when it is dispatched
    through the task's strand, so it cannot resume the task between the two.
    The operation is taken to invoke its handler at most once. Memory
    ordering is not modelled: each step is taken to be atomic. */
module Rendezvous {
  import opened Options
  import opened SystemError
  import opened Continuation
  import opened YieldContext

  /** Which `coro_async_result` specialisation is in use: `void` (no value
      slot) or a value type `T` (a value slot of type `T`). */
  datatype Shape = VoidResult | ValueResult

  /** The arguments the operation invokes the completion handler with. `ec`
      is `None` for the forms without an error channel (`h()`, `h(v)`);
      `value` is `None` for the `void` forms (`h()`, `h(ec)`). */
  datatype Invocation<T> = Invocation(ec: Option<ErrorCode>, value: Option<T>)

  /** Only the invocation forms of the specialisation exist: the `void`
      handler has no value argument, the value handler always has one. */
  predicate Fits<T>(shape: Shape, inv: Invocation<T>) {
    inv.value.Some? <==> shape == ValueResult
  }

  /** The error code the completion stores: the supplied one in the
      error-code-first forms, a default-constructed one otherwise. */
  function StoredError<T>(inv: Invocation<T>): (ec: ErrorCode)
    ensures inv.ec.None? ==> ec == Success && !Failed(ec)
    ensures inv.ec.Some? ==> ec == inv.ec.value
  {
    inv.ec.GetOr(Success)
  }

  /** What `get()` does once the task continues. */
  datatype GetResult<T> = Returned(value: Option<T>) | Threw(error: ErrorCode)

  /** The two parties that decrement the counter. */
  datatype Party = TaskSide | CompletionSide

  /** Progress of the completion handler's `operator()`. */
  datatype CompletionPc = NotInvoked | ErrorWritten | SlotsWritten | Arrived

  /** Progress of the task through `get()`. `Initiating` covers everything
      before `get()` is entered, including the initiation of the operation. */
  datatype TaskPc<T> = Initiating | CalleeDropped | Suspended | Runnable | Done(result: GetResult<T>)

  datatype Pending<T> = Pending(
    shape: Shape,
    outEc: bool,                     // the token carried a caller-supplied error slot
    ready: int,                      // the shared counter
    internalEc: ErrorCode,           // `coro_async_result::ec_`
    userEc: ErrorCode,               // the caller's `error_code` variable
    value: Option<T>,                // `value_`; None while default-constructed
    // The operation invokes its own moved copy of the handler, so `get()`
    // resetting the copy it refers to (`holdsCallee`) leaves the strong
    // reference the completion resumes through (`callee`) in place.
    callee: Option<ContextId>,       // the strong reference the completion resumes through
    holdsCallee: bool,               // the handler `get()` refers to still owns the task's context
    live: Side,                      // which side of the task's continuation is executing
    delivered: Option<Invocation<T>>,// what the completion was invoked with
    completion: CompletionPc,
    task: TaskPc<T>,
    arrivals: seq<Party>,            // the decrements, in the order they happened
    suspends: nat,                   // how often the task switched away in `get()`
    resumes: nat,                    // how often the completion resumed the task
    shortCircuits: nat,              // how often `get()` saw zero and did not suspend
    fault: bool)                     // a resume was attempted that the library could not survive

  /** The one atomic step a schedule may take next. */
  datatype Step<T> =
    | Fire(inv: Invocation<T>)   // completion: write the error slot
    | StoreValue                 // completion: move the value into the value slot
    | CompletionArrive           // completion: decrement, resume the task on zero
    | DropCallee                 // get(): drop the strong reference to the task's context
    | TaskArrive                 // get(): decrement, suspend the task unless zero
    | Finish                     // get(): after continuing, throw or return

  /** Where the completion's error code goes: the caller's slot when the token
      carried one, the internal slot otherwise. */
  function ErrorTarget<T>(p: Pending<T>): ErrorCode {
    if p.outEc then p.userEc else p.internalEc
  }

  /** What `get()` must return, given what the operation delivered: a thrown
      `system_error` exactly when no caller slot was supplied and the stored
      code is a failure, the delivered value otherwise. */
  function Expected<T>(outEc: bool, inv: Invocation<T>): GetResult<T> {
    if !outEc && Failed(StoredError(inv)) then Threw(StoredError(inv)) else Returned(inv.value)
  }

  /** Building the completion handler from the token (which locks the weak
      reference to the task's context) and then `coro_async_result` from the
      handler: the counter is set to 2, the handler's error pointer is
      redirected to the internal slot unless the token brought one, and the
      task is still running, in its own context. */
  function Start<T, H>(shape: Shape, token: YieldToken<H>, alive: set<ContextId>, userEc: ErrorCode)
    : (p: Pending<T>)
    ensures p.ready == 2
    ensures p.outEc <==> token.ec.Slot?
    ensures p.callee.Some? <==> token.callee.target in alive
    ensures !Failed(p.internalEc) && p.value.None? && p.delivered.None?
  {
    var callee := Lock(token.callee, alive);
    Pending(shape, token.ec.Slot?, 2, Success, userEc, None, callee, callee.Some?,
            CalleeSide, None, NotInvoked, Initiating, [], 0, 0, 0, false)
  }

  /** A freshly started rendezvous, built while the task's context is alive,
      satisfies the invariant: nobody has decremented, nothing is delivered,
      and the task runs on its own side holding its context. */
  lemma StartEstablishesInv<T, H>(shape: Shape, token: YieldToken<H>, alive: set<ContextId>, userEc: ErrorCode)
    requires token.callee.target in alive
    ensures Inv(Start<T, H>(shape, token, alive, userEc))
  {
  }

  /** Resuming the task from the completion side: needs a strong reference
      and a suspended task; anything else would resume through null or into a
      running stack, which is recorded as a fault. */
  function ResumeTask<T>(p: Pending<T>): Pending<T> {
    match Apply(p.live, Resume)
    case Some(side) =>
      if p.callee.Some? && p.task.Suspended? then
        p.(live := side, task := Runnable, resumes := p.resumes + 1)
      else p.(fault := true, resumes := p.resumes + 1)
    case None => p.(fault := true, resumes := p.resumes + 1)
  }

  /** Suspending the task from inside `get()`: switches to the caller side. */
  function SuspendTask<T>(p: Pending<T>): Pending<T> {
    match Apply(p.live, Suspend)
    case Some(side) => p.(live := side, task := Suspended, suspends := p.suspends + 1)
    case None => p.(fault := true, suspends := p.suspends + 1)
  }

  /** One atomic step, or `None` when the step is not enabled. */
  function Next<T>(p: Pending<T>, step: Step<T>): (r: Option<Pending<T>>)
    ensures r.Some? ==> r.value.shape == p.shape && r.value.outEc == p.outEc
    ensures r.Some? ==> r.value.ready == (if step.CompletionArrive? || step.TaskArrive? then p.ready - 1 else p.ready)
    ensures r.Some? && step.Fire? ==> r.value.delivered == Some(step.inv) && p.completion.NotInvoked?
  {
    match step
    case Fire(inv) =>
      if p.completion.NotInvoked? && Fits(p.shape, inv) then
        var written := if p.outEc then p.(userEc := StoredError(inv)) else p.(internalEc := StoredError(inv));
        Some(written.(delivered := Some(inv),
                      completion := if p.shape == ValueResult then ErrorWritten else SlotsWritten))
      else None
    case StoreValue =>
      if p.completion.ErrorWritten? && p.delivered.Some? then
        Some(p.(value := p.delivered.value.value, completion := SlotsWritten))
      else None
    case CompletionArrive =>
      if p.completion.SlotsWritten? then
        var q := p.(ready := p.ready - 1, arrivals := p.arrivals + [CompletionSide], completion := Arrived);
        Some(if q.ready == 0 then ResumeTask(q) else q)
      else None
    case DropCallee =>
      if p.task.Initiating? then Some(p.(holdsCallee := false, task := CalleeDropped)) else None
    case TaskArrive =>
      if p.task.CalleeDropped? then
        var q := p.(ready := p.ready - 1, arrivals := p.arrivals + [TaskSide]);
        Some(if q.ready != 0 then SuspendTask(q) else q.(task := Runnable, shortCircuits := q.shortCircuits + 1))
      else None
    case Finish =>
      if p.task.Runnable? then
        var result := if !p.outEc && Failed(p.internalEc) then Threw(p.internalEc) else Returned(p.value);
        Some(p.(task := Done(result)))
      else None
  }

  /** Runs a schedule; `None` when some step in it is not enabled. */
  function Exec<T>(p: Pending<T>, sched: seq<Step<T>>): (r: Option<Pending<T>>)
    ensures r.Some? ==> r.value.shape == p.shape && r.value.outEc == p.outEc
    decreases |sched|
  {
    if |sched| == 0 then Some(p)
    else match Next(p, sched[0])
      case None => None
      case Some(q) => Exec(q, sched[1..])
  }

  /** The order of the decrements a schedule asks for. */
  function ArrivalOrder<T>(sched: seq<Step<T>>): seq<Party>
    decreases |sched|
  {
    if |sched| == 0 then []
    else (if sched[0].CompletionArrive? then [CompletionSide]
          else if sched[0].TaskArrive? then [TaskSide] else [])
         + ArrivalOrder(sched[1..])
  }

  /** The invariant of every reachable state. */
  ghost predicate Inv<T>(p: Pending<T>) {
    && !p.fault
    && p.callee.Some?
    && |p.arrivals| <= 2
    && p.ready == 2 - |p.arrivals|
    && (|p.arrivals| == 2 ==> p.arrivals[0] != p.arrivals[1])
    && (CompletionSide in p.arrivals <==> p.completion.Arrived?)
    && (TaskSide in p.arrivals <==> (p.task.Suspended? || p.task.Runnable? || p.task.Done?))
    // slots
    && (p.completion.NotInvoked? <==> p.delivered.None?)
    && (p.delivered.Some? ==> Fits(p.shape, p.delivered.value))
    && (p.delivered.Some? ==> ErrorTarget(p) == StoredError(p.delivered.value))
    && (p.outEc ==> !Failed(p.internalEc))
    && (p.completion.ErrorWritten? ==> p.shape == ValueResult)
    && ((p.completion.SlotsWritten? || p.completion.Arrived?) ==> p.value == p.delivered.value.value)
    && (p.shape == VoidResult ==> p.value.None?)
    // task
    && (p.holdsCallee ==> p.task.Initiating?)
    && (p.live == CallerSide <==> p.task.Suspended?)
    && (p.task.Suspended? ==> p.arrivals == [TaskSide])
    && ((p.task.Runnable? || p.task.Done?) ==> |p.arrivals| == 2)
    && (p.task.Done? ==> p.delivered.Some? && p.task.result == Expected(p.outEc, p.delivered.value))
    // who continued the task
    && p.suspends == (if |p.arrivals| > 0 && p.arrivals[0] == TaskSide then 1 else 0)
    && p.resumes == (if p.arrivals == [TaskSide, CompletionSide] then 1 else 0)
    && p.shortCircuits == (if p.arrivals == [CompletionSide, TaskSide] then 1 else 0)
  }

  /** The completion's writes keep the invariant. */
  lemma CompletionWritesPreserveInv<T>(p: Pending<T>, step: Step<T>)
    requires Inv(p)
    requires step.Fire? || step.StoreValue?
    requires Next(p, step).Some?
    ensures Inv(Next(p, step).value)
  {
  }

  /** The completion's decrement keeps the invariant. */
  lemma CompletionArrivePreservesInv<T>(p: Pending<T>)
    requires Inv(p)
    requires Next(p, CompletionArrive).Some?
    ensures Inv(Next(p, CompletionArrive).value)
  {
    if |p.arrivals| == 1 {
      assert p.arrivals == [TaskSide];
    } else {
      assert p.arrivals == [];
    }
  }

  /** The task's decrement keeps the invariant. */
  lemma TaskArrivePreservesInv<T>(p: Pending<T>)
    requires Inv(p)
    requires Next(p, TaskArrive).Some?
    ensures Inv(Next(p, TaskArrive).value)
  {
    if |p.arrivals| == 1 {
      assert p.arrivals == [CompletionSide];
    } else {
      assert p.arrivals == [];
    }
  }

  /** The task's other steps keep the invariant. */
  lemma TaskStepsPreserveInv<T>(p: Pending<T>, step: Step<T>)
    requires Inv(p)
    requires step.DropCallee? || step.Finish?
    requires Next(p, step).Some?
    ensures Inv(Next(p, step).value)
  {
  }

  /** Every step keeps the invariant. */
  lemma NextPreservesInv<T>(p: Pending<T>, step: Step<T>)
    requires Inv(p)
    requires Next(p, step).Some?
    ensures Inv(Next(p, step).value)
  {
    match step
    case Fire(_) => CompletionWritesPreserveInv(p, step);
    case StoreValue => CompletionWritesPreserveInv(p, step);
    case CompletionArrive => CompletionArrivePreservesInv(p);
    case DropCallee => TaskStepsPreserveInv(p, step);
    case TaskArrive => TaskArrivePreservesInv(p);
    case Finish => TaskStepsPreserveInv(p, step);
  }

  /** Every schedule keeps the invariant. */
  lemma {:induction false} ExecPreservesInv<T>(p: Pending<T>, sched: seq<Step<T>>)
    requires Inv(p)
    requires Exec(p, sched).Some?
    ensures Inv(Exec(p, sched).value)
    decreases |sched|
  {
    if |sched| > 0 {
      NextPreservesInv(p, sched[0]);
      ExecPreservesInv(Next(p, sched[0]).value, sched[1..]);
    }
  }

  /** The decrements happen in exactly the order the schedule lists them. */
  lemma {:induction false} ArrivalsFollowSchedule<T>(p: Pending<T>, sched: seq<Step<T>>)
    requires Exec(p, sched).Some?
    ensures Exec(p, sched).value.arrivals == p.arrivals + ArrivalOrder(sched)
    decreases |sched|
  {
    if |sched| > 0 {
      var q := Next(p, sched[0]).value;
      ArrivalsFollowSchedule(q, sched[1..]);
      var head := if sched[0].CompletionArrive? then [CompletionSide]
                  else if sched[0].TaskArrive? then [TaskSide] else [];
      assert q.arrivals == p.arrivals + head;
      assert ArrivalOrder(sched) == head + ArrivalOrder(sched[1..]);
      assert p.arrivals + head + ArrivalOrder(sched[1..]) == p.arrivals + (head + ArrivalOrder(sched[1..]));
    }
  }

  /** Every state a schedule reaches from a freshly started rendezvous (with
      the task's context alive, as it is while the body runs) satisfies the
      invariant. */
  lemma Reachable<T, H>(shape: Shape, token: YieldToken<H>, alive: set<ContextId>, userEc: ErrorCode,
                        sched: seq<Step<T>>, p: Pending<T>)
    requires token.callee.target in alive
    requires Exec(Start<T, H>(shape, token, alive, userEc), sched) == Some(p)
    ensures Inv(p)
    ensures p.shape == shape && p.outEc == token.ec.Slot?
    ensures p.arrivals == ArrivalOrder(sched)
  {
    var p0 := Start<T, H>(shape, token, alive, userEc);
    StartEstablishesInv<T, H>(shape, token, alive, userEc);
    ExecPreservesInv(p0, sched);
    ArrivalsFollowSchedule(p0, sched);
  }

  /** No schedule ever resumes the task through a null reference or while it
      runs, and the counter stays between 0 and 2. */
  lemma NeverFaults<T, H>(shape: Shape, token: YieldToken<H>, alive: set<ContextId>, userEc: ErrorCode,
                          sched: seq<Step<T>>, p: Pending<T>)
    requires token.callee.target in alive
    requires Exec(Start<T, H>(shape, token, alive, userEc), sched) == Some(p)
    ensures !p.fault
    ensures 0 <= p.ready <= 2
    ensures p.resumes <= 1 && p.suspends <= 1
  {
    Reachable(shape, token, alive, userEc, sched, p);
  }

  /** Whenever the task is able to continue past its suspension point, the
      completion has already arrived and both slots hold what it delivered. */
  lemma SlotsWrittenBeforeContinuing<T, H>(shape: Shape, token: YieldToken<H>, alive: set<ContextId>,
                                           userEc: ErrorCode, sched: seq<Step<T>>, p: Pending<T>)
    requires token.callee.target in alive
    requires Exec(Start<T, H>(shape, token, alive, userEc), sched) == Some(p)
    requires p.task.Runnable? || p.task.Done?
    ensures p.completion.Arrived? && p.delivered.Some?
    ensures ErrorTarget(p) == StoredError(p.delivered.value)
    ensures p.value == p.delivered.value.value
    ensures p.live == CalleeSide
  {
    Reachable(shape, token, alive, userEc, sched, p);
  }

  /** Once the completion has decremented, the error slot it was directed
      to holds the stored code and, for a value, the value slot holds the
      delivered value: both writes precede the decrement. */
  lemma CompletionWritesBeforeArriving<T, H>(shape: Shape, token: YieldToken<H>, alive: set<ContextId>,
                                             userEc: ErrorCode, sched: seq<Step<T>>, p: Pending<T>)
    requires token.callee.target in alive
    requires Exec(Start<T, H>(shape, token, alive, userEc), sched) == Some(p)
    requires CompletionSide in p.arrivals
    ensures p.delivered.Some?
    ensures (if token.ec.Slot? then p.userEc else p.internalEc) == StoredError(p.delivered.value)
    ensures p.value == p.delivered.value.value
    ensures shape == ValueResult ==> p.value.Some?
  {
    Reachable(shape, token, alive, userEc, sched, p);
  }

  /** While the task is suspended it owns no strong reference to its own
      context through the handler, it is the only party that has arrived,
      and control is on the caller side. */
  lemma SuspendedWithoutOwnership<T, H>(shape: Shape, token: YieldToken<H>, alive: set<ContextId>,
                                        userEc: ErrorCode, sched: seq<Step<T>>, p: Pending<T>)
    requires token.callee.target in alive
    requires Exec(Start<T, H>(shape, token, alive, userEc), sched) == Some(p)
    requires p.task.Suspended?
    ensures !p.holdsCallee
    ensures p.arrivals == [TaskSide] && p.ready == 1
    ensures !p.completion.Arrived?
    ensures p.live == CallerSide
  {
    Reachable(shape, token, alive, userEc, sched, p);
  }

  /** Exactly one decrement reaches zero and the task continues exactly once:
      resumed by the completion when the task decremented first (after
      suspending exactly once), or continuing inline when the completion
      decremented first (without ever suspending). */
  lemma ContinuesExactlyOnce<T, H>(shape: Shape, token: YieldToken<H>, alive: set<ContextId>,
                                   userEc: ErrorCode, sched: seq<Step<T>>, p: Pending<T>)
    requires token.callee.target in alive
    requires Exec(Start<T, H>(shape, token, alive, userEc), sched) == Some(p)
    requires p.task.Done?
    ensures p.ready == 0 && !p.fault
    ensures p.resumes + p.shortCircuits == 1
    ensures p.suspends == p.resumes
    ensures p.resumes == 1 <==> ArrivalOrder(sched) == [TaskSide, CompletionSide]
    ensures p.shortCircuits == 1 <==> ArrivalOrder(sched) == [CompletionSide, TaskSide]
  {
    Reachable(shape, token, alive, userEc, sched, p);
    assert |p.arrivals| == 2;
  }

  /** What `get()` hands back once the task continues. With a caller slot the
      delivered code lands in that slot and nothing is thrown; without one,
      `system_error` is thrown exactly when the delivered code is a failure,
      and carries that code. Otherwise the delivered value is returned. */
  lemma GetReturnsDelivery<T, H>(shape: Shape, token: YieldToken<H>, alive: set<ContextId>,
                                 userEc: ErrorCode, sched: seq<Step<T>>, p: Pending<T>)
    requires token.callee.target in alive
    requires Exec(Start<T, H>(shape, token, alive, userEc), sched) == Some(p)
    requires p.task.Done?
    ensures p.delivered.Some? && Fits(shape, p.delivered.value)
    ensures token.ec.Slot? ==> p.task.result.Returned? && p.userEc == StoredError(p.delivered.value)
    ensures !token.ec.Slot? ==>
      (p.task.result.Threw? <==> Failed(StoredError(p.delivered.value)))
    ensures p.task.result.Threw? ==> p.task.result.error == StoredError(p.delivered.value)
    ensures p.task.result.Returned? ==> p.task.result.value == p.delivered.value.value
  {
    Reachable(shape, token, alive, userEc, sched, p);
  }

  /** Some step is always enabled until the task is done: the completion can
      still be invoked, or a step of either side is ready to run. A suspended
      task therefore waits only for the operation to invoke its handler. */
  lemma Progress<T>(p: Pending<T>, inv: Invocation<T>)
    requires Inv(p)
    requires Fits(p.shape, inv)
    ensures p.completion.NotInvoked? ==> Next(p, Fire(inv)).Some?
    ensures !p.task.Done? ==>
      || Next(p, Fire(inv)).Some? || Next(p, StoreValue).Some? || Next(p, CompletionArrive).Some?
      || Next(p, DropCallee).Some? || Next(p, TaskArrive).Some? || Next(p, Finish).Some?
  {
  }

  /** The completion side's steps for one invocation. */
  function CompletionSteps<T>(inv: Invocation<T>): seq<Step<T>> {
    [Fire(inv)] + (if inv.value.Some? then [StoreValue] else []) + [CompletionArrive]
  }

  /** The completion fires before the task reaches `get()`. */
  function CompletionFirst<T>(inv: Invocation<T>): seq<Step<T>> {
    CompletionSteps(inv) + [DropCallee, TaskArrive, Finish]
  }

  /** The task reaches `get()` and suspends before the completion fires. */
  function TaskFirst<T>(inv: Invocation<T>): seq<Step<T>> {
    [DropCallee, TaskArrive] + CompletionSteps(inv) + [Finish]
  }

  /** The completion fires before the task reaches `get()`: the task's own
      decrement reaches zero and it continues without suspending. */
  lemma CompletionFirstShortCircuits<T, H>(shape: Shape, token: YieldToken<H>, alive: set<ContextId>,
                                           userEc: ErrorCode, inv: Invocation<T>)
    requires token.callee.target in alive
    requires Fits(shape, inv)
    ensures var r := Exec(Start<T, H>(shape, token, alive, userEc), CompletionFirst(inv));
      && r.Some? && r.value.task == Done(Expected(token.ec.Slot?, inv))
      && r.value.suspends == 0 && r.value.resumes == 0 && r.value.shortCircuits == 1
  {
    var p0 := Start<T, H>(shape, token, alive, userEc);
    var a := CompletionFirst(inv);
    var a1 := Next(p0, Fire(inv)).value;
    var a2 := if inv.value.Some? then Next(a1, StoreValue).value else a1;
    var a3 := Next(a2, CompletionArrive).value;
    var a4 := Next(a3, DropCallee).value;
    var a5 := Next(a4, TaskArrive).value;
    var a6 := Next(a5, Finish).value;
    var k := if inv.value.Some? then 1 else 0;
    assert a[k + 2..] == [DropCallee, TaskArrive, Finish];
    assert Exec(a3, a[k + 2..]) == Some(a6) by {
      assert Exec(a5, a[k + 2..][2..]) == Some(a6);
      assert Exec(a4, a[k + 2..][1..]) == Some(a6);
    }
    assert Exec(a2, a[k + 1..]) == Some(a6) by {
      assert a[k + 1..][1..] == a[k + 2..];
    }
    assert Exec(a1, a[1..]) == Some(a6) by {
      if k == 1 {
        assert a[1..][1..] == a[2..];
      }
    }
  }

  /** The task reaches `get()` first: it suspends once and the completion's
      decrement resumes it once. */
  lemma TaskFirstSuspendsOnce<T, H>(shape: Shape, token: YieldToken<H>, alive: set<ContextId>,
                                    userEc: ErrorCode, inv: Invocation<T>)
    requires token.callee.target in alive
    requires Fits(shape, inv)
    ensures var r := Exec(Start<T, H>(shape, token, alive, userEc), TaskFirst(inv));
      && r.Some? && r.value.task == Done(Expected(token.ec.Slot?, inv))
      && r.value.suspends == 1 && r.value.resumes == 1 && r.value.shortCircuits == 0
  {
    var p0 := Start<T, H>(shape, token, alive, userEc);
    var b := TaskFirst(inv);
    var b1 := Next(p0, DropCallee).value;
    var b2 := Next(b1, TaskArrive).value;
    var b3 := Next(b2, Fire(inv)).value;
    var b4 := if inv.value.Some? then Next(b3, StoreValue).value else b3;
    var b5 := Next(b4, CompletionArrive).value;
    var b6 := Next(b5, Finish).value;
    var k := if inv.value.Some? then 1 else 0;
    assert b[k + 4..] == [Finish];
    assert b[k + 3..] == [CompletionArrive, Finish];
    assert Exec(b4, b[k + 3..]) == Some(b6) by {
      assert Exec(b5, b[k + 3..][1..]) == Some(b6);
    }
    assert Exec(b3, b[3..]) == Some(b6) by {
      if k == 1 {
        assert b[3..][1..] == b[4..];
      }
    }
    assert Exec(b1, b[1..]) == Some(b6) by {
      assert b[1..][1..] == b[2..];
      assert b[2..][1..] == b[3..];
    }
  }
}
