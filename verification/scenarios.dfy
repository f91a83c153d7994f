/** The library's own usage scenarios, replayed on the model: each launches
    task bodies that increment a shared counter, with handlers that increment
    it too or do nothing, and the expected final count follows from the
    overload routing and the launch lifecycle together. */
module Scenarios {
  import opened Options
  import opened StackAllocatorTrait
  import opened Overloads
  import Launcher
  import YieldContext

  /** What a task body does to the counter. */
  datatype Body =
    | Increment                                     // `++count`
    | Wait                                          // waits on a timer, then returns
    | SpawnThenIncrement(rest: seq<ArgType>, child: Body)
      // `spawn(yield, rest...)` launching `child`, then `++count`

  /** The contexts the scenarios launch from and into. */
  const LaunchingContext: YieldContext.ContextId := 0
  const TaskContext: YieldContext.ContextId := 1

  /** The increments one call of a launch's handler makes: the caller's own
      handler makes `given` and `default_spawn_handler` does nothing. A
      nested launch inherits its parent's handler; that case is here only so
      the function is total, since a nested launch never calls the handler
      (`LaunchAddsHandlerOnce`). */
  function HandlerIncrements(o: HandlerOrigin, given: nat): (n: nat)
    ensures o.DefaultHandler? ==> n == 0
    ensures !o.DefaultHandler? ==> n == given
  {
    match o
    case GivenHandler(_) => given
    case ParentHandler => given
    case DefaultHandler(_) => 0
  }

  /** The increments a launch makes: its body's, and its handler's for each
      time the task's trace calls the handler. */
  function LaunchIncrements(d: Launch, body: Body, given: nat): nat
    decreases body, 1
  {
    BodyIncrements(body, given)
    + HandlerIncrements(d.handler, given)
      * Launcher.CountHandlerCalls(Launcher.RunTask(d, TaskContext, LaunchingContext))
  }

  /** The increments a body makes, including those of the tasks it launches
      (a launch no overload accepts makes none). */
  function BodyIncrements(body: Body, given: nat): nat
    decreases body, 0
  {
    match body
    case Increment => 1
    case Wait => 0
    case SpawnThenIncrement(rest, child) =>
      1 + match Spawn([YieldToken] + rest)
          case None => 0
          case Some(d) => LaunchIncrements(d, child, given)
  }

  /** Any launch adds its handler's increments exactly once, except a nested
      launch, which adds none. */
  lemma LaunchAddsHandlerOnce(args: seq<ArgType>, body: Body, given: nat)
    requires Spawn(args).Some?
    ensures var d := Spawn(args).value;
      LaunchIncrements(d, body, given)
        == BodyIncrements(body, given) + (if d.handler.ParentHandler? then 0 else HandlerIncrements(d.handler, given))
  {
    var d := Spawn(args).value;
    CallsHandlerUnlessNested(args);
    Launcher.HandlerCalledIffRequested(d, TaskContext, LaunchingContext);
  }

  /** `counting_handler`: a plain callable with no bound executor. */
  const Counter: ArgType := ArgType(Plain, false, false, PlainClassFacts, SystemExecutor)

  /** `bind_executor(ex, counting_handler(...))`. */
  function BoundCounter(k: ExecKind): ArgType {
    ArgType(Plain, false, false, PlainClassFacts, k)
  }

  /** An `io_context`. */
  const IoContext: ArgType := ArgType(Plain, false, true, PlainClassFacts, ContextExecutor)

  /** A `basic_yield_context` passed to a nested `spawn`. */
  const YieldToken: ArgType := ArgType(YieldContext, false, false, PlainClassFacts, SystemExecutor)

  /** `spawn(counting_handler)`: the task runs on a strand of the system
      executor, not on the `io_context`; the body counts once and the default
      handler adds nothing. */
  lemma SpawnFunction()
    ensures Spawn([Counter]).Some?
    ensures Spawn([Counter]).value.handler == DefaultHandler(StrandExecutor(SystemExecutor))
    ensures Underlying(Spawn([Counter]).value.handler.exec) != ContextExecutor
    ensures LaunchIncrements(Spawn([Counter]).value, Increment, 1) == 1
  {
    KnownTypes();
    FunctionLaunch(Counter, DefaultStack);
    LaunchAddsHandlerOnce([Counter], Increment, 1);
  }

  /** `spawn(bind_executor(strand, counting_handler), counting_handler)` with
      or without a stack allocator: body and handler count once each. */
  lemma SpawnHandler(s: ArgType)
    requires IsStackAllocator(s.facts)
    ensures Spawn([BoundCounter(StrandExecutor(ContextExecutor)), Counter]).Some?
    ensures LaunchIncrements(Spawn([BoundCounter(StrandExecutor(ContextExecutor)), Counter]).value, Increment, 1) == 2
    ensures Spawn([BoundCounter(StrandExecutor(ContextExecutor)), Counter, s]).Some?
    ensures LaunchIncrements(Spawn([BoundCounter(StrandExecutor(ContextExecutor)), Counter, s]).value, Increment, 1) == 2
  {
    KnownTypes();
    HandlerLaunch(BoundCounter(StrandExecutor(ContextExecutor)), Counter, s);
    LaunchAddsHandlerOnce([BoundCounter(StrandExecutor(ContextExecutor)), Counter], Increment, 1);
    LaunchAddsHandlerOnce([BoundCounter(StrandExecutor(ContextExecutor)), Counter, s], Increment, 1);
  }

  /** A body that launches a nested counting task from its yield token and
      then counts: the nested task counts once without calling the shared
      handler, the body counts once, the outer handler once — three. */
  lemma SpawnYieldContext()
    ensures Spawn([BoundCounter(ContextExecutor), Counter]).Some?
    ensures LaunchIncrements(Spawn([BoundCounter(ContextExecutor), Counter]).value,
      SpawnThenIncrement([Counter], Increment), 1) == 3
  {
    KnownTypes();
    var args := [BoundCounter(ContextExecutor), Counter];
    HandlerLaunch(BoundCounter(ContextExecutor), Counter, DefaultStack);
    NestedLaunch(YieldToken, Counter, DefaultStack);
    assert [YieldToken] + [Counter] == [YieldToken, Counter];
    LaunchAddsHandlerOnce([YieldToken, Counter], Increment, 1);
    LaunchAddsHandlerOnce(args, SpawnThenIncrement([Counter], Increment), 1);
  }

  /** `spawn(executor, counting_handler)`, `spawn(strand, counting_handler)`
      and `spawn(io_context, counting_handler)`: each task runs on a strand
      of the `io_context`'s executor, the body counts once and the default
      handler adds nothing. */
  lemma SpawnOnExecutorOrContext()
    ensures var e := ExecutorType(ContextExecutor);
      && Spawn([e, Counter]).Some?
      && Spawn([e, Counter]).value.handler == DefaultHandler(StrandExecutor(ContextExecutor))
      && LaunchIncrements(Spawn([e, Counter]).value, Increment, 1) == 1
    ensures var st := ExecutorType(StrandExecutor(ContextExecutor));
      && Spawn([st, Counter]).Some?
      && Spawn([st, Counter]).value.handler == DefaultHandler(StrandExecutor(ContextExecutor))
      && LaunchIncrements(Spawn([st, Counter]).value, Increment, 1) == 1
    ensures Spawn([IoContext, Counter]).Some?
      && Spawn([IoContext, Counter]).value.handler == DefaultHandler(StrandExecutor(ContextExecutor))
      && LaunchIncrements(Spawn([IoContext, Counter]).value, Increment, 1) == 1
  {
    KnownTypes();
    ExecutorLaunch(ExecutorType(ContextExecutor), Counter, DefaultStack);
    LaunchAddsHandlerOnce([ExecutorType(ContextExecutor), Counter], Increment, 1);
    ExecutorLaunch(ExecutorType(StrandExecutor(ContextExecutor)), Counter, DefaultStack);
    LaunchAddsHandlerOnce([ExecutorType(StrandExecutor(ContextExecutor)), Counter], Increment, 1);
    ContextLaunch(IoContext, Counter, DefaultStack);
    LaunchAddsHandlerOnce([IoContext, Counter], Increment, 1);
  }

  /** A body that waits on a timer and returns: only the handler counts. */
  lemma SpawnTimer()
    ensures Spawn([BoundCounter(ContextExecutor), Counter]).Some?
    ensures LaunchIncrements(Spawn([BoundCounter(ContextExecutor), Counter]).value, Wait, 1) == 1
  {
    KnownTypes();
    HandlerLaunch(BoundCounter(ContextExecutor), Counter, DefaultStack);
    LaunchAddsHandlerOnce([BoundCounter(ContextExecutor), Counter], Wait, 1);
  }

  /** Every three-argument overload requires its last argument to be a stack
      allocator, so a call whose last argument is not one — such as an
      attributes object — has no viable three-argument overload. */
  lemma ThirdArgumentMustBeAStack(a: ArgType, f: ArgType, s: ArgType)
    requires !IsStackAllocator(s.facts)
    ensures Resolve([a, f, s]) == None
    ensures Spawn([a, f, s]) == None
  {
    ResolveIsBest([a, f, s]);
  }
}
