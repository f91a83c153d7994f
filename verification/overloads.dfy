/** The `spawn` overload set: which overload a call selects, and how the
    selected overload forwards until it reaches one of the two that build
    `spawn_data` — the explicit-handler launch (handler called at the end)
    and the nested launch from a yield token (handler not called).

    Arguments are described by the properties the `enable_if` guards and the
    parameter patterns look at. Every argument the caller writes is taken to
    be a non-const lvalue, so each parameter can bind to it. */
module Overloads {
  import opened Options
  import opened StackAllocatorTrait
  import Launcher

  /** The executors the forwarding chain produces or a function may be bound to. */
  datatype ExecKind =
    | SystemExecutor                  // what a function with no bound executor is associated with
    | ContextExecutor                 // `io_context::executor_type`, from `get_executor()`
    | StrandExecutor(inner: ExecKind) // `strand<Executor>` wrapping `inner`
    | IoStrandExecutor                // `io_context::strand`

  /** The executor that finally runs what is submitted to `k`: a strand only
      serialises, and `io_context::strand` runs on its `io_context`. */
  function Underlying(k: ExecKind): (u: ExecKind)
    ensures u == SystemExecutor || u == ContextExecutor
  {
    match k
    case StrandExecutor(inner) => Underlying(inner)
    case IoStrandExecutor => ContextExecutor
    case _ => k
  }

  /** The class template an argument's type is an instance of, as far as the
      parameter patterns distinguish it. */
  datatype Family =
    | Plain                               // anything else
    | YieldContext                        // basic_yield_context<H>
    | StrandOf                            // strand<Executor>
    | IoContextStrand                     // io_context::strand
    | DefaultHandlerBinder(exec: ExecKind)// bind_executor(ex, &default_spawn_handler)

  datatype ArgType = ArgType(
    family: Family,
    isExecutor: bool,              // is_executor<decay<T>>
    isExecutionContext: bool,      // is_convertible<T&, execution_context&>
    facts: TypeFacts,              // what is_stack_allocator<decay<T>> inspects
    assocExecutor: ExecKind)       // get_associated_executor(x); for an executor, itself

  /** Type facts the library's own types satisfy. */
  predicate WellFormedArg(a: ArgType) {
    && !(a.isExecutor && a.isExecutionContext)
    && ((a.family.StrandOf? || a.family.IoContextStrand?) ==> a.isExecutor)
    && ((a.family.YieldContext? || a.family.DefaultHandlerBinder?) ==> !a.isExecutor && !a.isExecutionContext)
    && ((a.isExecutor || a.isExecutionContext || !a.family.Plain?) ==> !IsStackAllocator(a.facts))
    && (a.isExecutor ==> (a.family.StrandOf? <==> a.assocExecutor.StrandExecutor?))
    && (a.isExecutor ==> (a.family.IoContextStrand? <==> a.assocExecutor == IoStrandExecutor))
  }

  function ExecutorType(k: ExecKind): (a: ArgType)
    ensures WellFormedArg(a) && a.isExecutor
  {
    var family := match k
      case StrandExecutor(_) => StrandOf
      case IoStrandExecutor => IoContextStrand
      case _ => Plain;
    ArgType(family, true, false, PlainClassFacts, k)
  }

  function BinderType(k: ExecKind): (a: ArgType)
    ensures WellFormedArg(a) && !a.isExecutor
  {
    ArgType(DefaultHandlerBinder(k), false, false, PlainClassFacts, k)
  }

  /** `boost::context::default_stack()`. */
  const DefaultStack: ArgType := ArgType(Plain, false, false, DefaultStackFacts, SystemExecutor)

  datatype Overload =
    | FunctionAlloc     // spawn(Function&&, StackAllocator&&)
    | HandlerAlloc      // spawn(Handler&&, Function&&, StackAllocator&&)
    | YieldAlloc        // spawn(basic_yield_context<Handler>, Function&&, StackAllocator&&)
    | ExecutorAlloc     // spawn(const Executor&, Function&&, StackAllocator&&)
    | StrandAlloc       // spawn(const strand<Executor>&, Function&&, StackAllocator&&)
    | IoStrandAlloc     // spawn(const io_context::strand&, Function&&, StackAllocator&&)
    | ContextAlloc      // spawn(ExecutionContext&, Function&&, StackAllocator&&)
    | FunctionDefault   // spawn(Function&&)
    | HandlerDefault    // spawn(Handler&&, Function&&)
    | YieldDefault      // spawn(basic_yield_context<Handler>, Function&&)
    | ExecutorDefault   // spawn(const Executor&, Function&&)
    | StrandDefault     // spawn(const strand<Executor>&, Function&&)
    | IoStrandDefault   // spawn(const io_context::strand&, Function&&)
    | ContextDefault    // spawn(ExecutionContext&, Function&&)

  function Arity(o: Overload): nat {
    match o
    case FunctionDefault => 1
    case FunctionAlloc => 2
    case HandlerDefault => 2
    case YieldDefault => 2
    case ExecutorDefault => 2
    case StrandDefault => 2
    case IoStrandDefault => 2
    case ContextDefault => 2
    case _ => 3
  }

  /** The pattern of the first parameter: a specific class template, or any
      type (a forwarding reference or a deduced `const T&`/`T&`). */
  datatype Pattern = AnyType | YieldPattern | StrandPattern | IoStrandPattern

  function FirstPattern(o: Overload): Pattern {
    match o
    case YieldAlloc => YieldPattern
    case YieldDefault => YieldPattern
    case StrandAlloc => StrandPattern
    case StrandDefault => StrandPattern
    case IoStrandAlloc => IoStrandPattern
    case IoStrandDefault => IoStrandPattern
    case _ => AnyType
  }

  predicate PatternMatches(p: Pattern, a: ArgType) {
    match p
    case AnyType => true
    case YieldPattern => a.family.YieldContext?
    case StrandPattern => a.family.StrandOf?
    case IoStrandPattern => a.family.IoContextStrand?
  }

  /** The `enable_if` condition of each overload (true where there is none). */
  predicate Guard(o: Overload, args: seq<ArgType>)
    requires |args| == Arity(o)
  {
    match o
    case FunctionAlloc => IsStackAllocator(args[1].facts)
    case HandlerAlloc =>
      && !args[0].isExecutor && !args[0].isExecutionContext
      && !IsStackAllocator(args[1].facts) && IsStackAllocator(args[2].facts)
    case YieldAlloc => IsStackAllocator(args[2].facts)
    case ExecutorAlloc => args[0].isExecutor && IsStackAllocator(args[2].facts)
    case StrandAlloc => IsStackAllocator(args[2].facts)
    case IoStrandAlloc => IsStackAllocator(args[2].facts)
    case ContextAlloc => args[0].isExecutionContext && IsStackAllocator(args[2].facts)
    case FunctionDefault => true
    case HandlerDefault =>
      !args[0].isExecutor && !IsStackAllocator(args[1].facts) && !args[0].isExecutionContext
    case YieldDefault => true
    case ExecutorDefault => args[0].isExecutor
    case StrandDefault => true
    case IoStrandDefault => true
    case ContextDefault => args[0].isExecutionContext
  }

  /** An overload is viable when the call has its arity, the first argument
      fits its first parameter and its guard holds. */
  predicate Viable(o: Overload, args: seq<ArgType>) {
    |args| == Arity(o) && PatternMatches(FirstPattern(o), args[0]) && Guard(o, args)
  }

  /** How the first parameter takes the first argument. */
  datatype FirstForm =
    | Forwarding    // `Function&&`, `Handler&&`
    | LvalueRef     // `ExecutionContext&`
    | ConstRef      // `const Executor&`, `const strand<Executor>&`, `const io_context::strand&`
    | ByValue       // `basic_yield_context<Handler>`

  function Form(o: Overload): FirstForm {
    match o
    case FunctionAlloc => Forwarding
    case FunctionDefault => Forwarding
    case HandlerAlloc => Forwarding
    case HandlerDefault => Forwarding
    case ContextAlloc => LvalueRef
    case ContextDefault => LvalueRef
    case YieldAlloc => ByValue
    case YieldDefault => ByValue
    case _ => ConstRef
  }

  /** Ranking the conversion of a non-const lvalue first argument: a
      reference that binds it as it is beats one that adds `const`; a copy
      and a reference binding are indistinguishable. */
  predicate BindsBetter(a: Overload, b: Overload) {
    (Form(a) == Forwarding || Form(a) == LvalueRef) && Form(b) == ConstRef
  }

  /** Partial ordering of the first parameters: a class-template pattern is
      more specialised than any type, and among parameters taking any type an
      lvalue reference (`T&`, `const T&`) is more specialised than a
      forwarding reference. */
  predicate FirstMoreSpecialised(a: Overload, b: Overload) {
    || (FirstPattern(a) != AnyType && FirstPattern(b) == AnyType)
    || (FirstPattern(a) == AnyType && FirstPattern(b) == AnyType
        && Form(a) != Forwarding && Form(b) == Forwarding)
  }

  /** Overload `a` is better than `b` for the same call: its first argument
      converts better, or equally well and `a` is the more specialised
      template. All other parameters are forwarding references in every
      overload, so they never decide. */
  predicate Better(a: Overload, b: Overload) {
    && Arity(a) == Arity(b)
    && (BindsBetter(a, b) || (!BindsBetter(b, a) && FirstMoreSpecialised(a, b)))
  }

  /** The overloads taking `n` arguments, in order of preference: the
      yield-token overload, the execution-context one, `spawn(function,
      salloc)`, the explicit-handler one, the strand ones, the executor one. */
  function Preference(n: nat): (r: seq<Overload>)
    ensures forall o :: o in r <==> Arity(o) == n
  {
    if n == 1 then [FunctionDefault]
    else if n == 2 then
      [YieldDefault, ContextDefault, FunctionAlloc, HandlerDefault, StrandDefault, IoStrandDefault, ExecutorDefault]
    else if n == 3 then
      [YieldAlloc, ContextAlloc, HandlerAlloc, StrandAlloc, IoStrandAlloc, ExecutorAlloc]
    else []
  }

  /** Every overload in `order` is better than each later one that is viable
      for the same call. */
  predicate Ordered(order: seq<Overload>, args: seq<ArgType>) {
    forall i, j :: 0 <= i < j < |order| && Viable(order[i], args) && Viable(order[j], args) ==>
      Better(order[i], order[j])
  }

  function FirstViable(order: seq<Overload>, args: seq<ArgType>): (r: Option<Overload>)
    ensures r.Some? ==> r.value in order && Viable(r.value, args)
    ensures r.None? ==> forall o :: o in order ==> !Viable(o, args)
  {
    if |order| == 0 then None
    else if Viable(order[0], args) then Some(order[0])
    else FirstViable(order[1..], args)
  }

  /** Overload resolution: the first viable overload in order of preference,
      or `None` when no overload is viable (the call is then ill formed). */
  function Resolve(args: seq<ArgType>): Option<Overload> {
    FirstViable(Preference(|args|), args)
  }

  /** In an ordered list the first viable overload beats every other viable
      one in it. */
  lemma {:induction false} FirstViableBeatsRest(order: seq<Overload>, args: seq<ArgType>)
    requires Ordered(order, args)
    requires FirstViable(order, args).Some?
    ensures forall o :: o in order && Viable(o, args) && o != FirstViable(order, args).value ==>
      Better(FirstViable(order, args).value, o)
  {
    if !Viable(order[0], args) {
      assert Ordered(order[1..], args) by {
        forall i, j | 0 <= i < j < |order[1..]| && Viable(order[1..][i], args) && Viable(order[1..][j], args)
          ensures Better(order[1..][i], order[1..][j])
        {
          assert order[1..][i] == order[i + 1] && order[1..][j] == order[j + 1];
        }
      }
      FirstViableBeatsRest(order[1..], args);
      forall o | o in order && Viable(o, args) ensures o in order[1..] {
        if o == order[0] { } else {
          var k :| 0 <= k < |order| && order[k] == o;
          assert order[1..][k - 1] == o;
        }
      }
    } else {
      forall o | o in order && Viable(o, args) && o != order[0] ensures Better(order[0], o) {
        var k :| 0 <= k < |order| && order[k] == o;
      }
    }
  }

  /** The preference order agrees with the ranking of the overloads. */
  lemma PreferenceIsOrdered(args: seq<ArgType>)
    ensures Ordered(Preference(|args|), args)
  {
    if |args| == 2 {
      PairPreferenceIsOrdered(args);
    } else if |args| == 3 {
      TriplePreferenceIsOrdered(args);
    }
  }

  lemma PairPreferenceIsOrdered(args: seq<ArgType>)
    requires |args| == 2
    ensures Ordered(Preference(2), args)
  {
    var order := Preference(2);
    forall i, j | 0 <= i < j < |order| && Viable(order[i], args) && Viable(order[j], args)
      ensures Better(order[i], order[j])
    {
      ExplicitHandlerExclusive(args);
    }
  }

  lemma TriplePreferenceIsOrdered(args: seq<ArgType>)
    requires |args| == 3
    ensures Ordered(Preference(3), args)
  {
    var order := Preference(3);
    forall i, j | 0 <= i < j < |order| && Viable(order[i], args) && Viable(order[j], args)
      ensures Better(order[i], order[j])
    {
      ExplicitHandlerExclusive(args);
    }
  }

  /** The viable overload better than every other viable one. */
  predicate IsBest(w: Overload, args: seq<ArgType>) {
    Viable(w, args) && forall o :: Viable(o, args) && o != w ==> Better(w, o)
  }

  /** Resolution picks exactly the overload that beats every other viable
      one, and fails exactly when there is none. */
  lemma ResolveIsBest(args: seq<ArgType>)
    ensures Resolve(args).Some? ==> IsBest(Resolve(args).value, args)
    ensures Resolve(args).None? ==> forall w :: !IsBest(w, args)
  {
    if Resolve(args).Some? {
      PreferenceIsOrdered(args);
      FirstViableBeatsRest(Preference(|args|), args);
    }
  }

  /** Being better is asymmetric, so there is at most one best overload. */
  lemma BestIsUnique(args: seq<ArgType>, w: Overload, w': Overload)
    requires IsBest(w, args) && IsBest(w', args)
    ensures w == w'
  {
  }

  /** A best overload is the one resolution picks. */
  lemma ResolvesTo(args: seq<ArgType>, w: Overload)
    requires IsBest(w, args)
    ensures Resolve(args) == Some(w)
  {
    ResolveIsBest(args);
    if Resolve(args).Some? {
      BestIsUnique(args, w, Resolve(args).value);
    }
  }

  /** The overload set is never ambiguous: a call resolves exactly when some
      overload is viable for it. */
  lemma NeverAmbiguous(args: seq<ArgType>)
    ensures Resolve(args).Some? <==> exists o :: Viable(o, args)
  {
  }

  /** With a stack allocator as the second argument, an execution context
      selects `spawn(context, function)`: both it and `spawn(function,
      salloc)` bind the context as it is, and an lvalue reference is more
      specialised than a forwarding reference. */
  lemma ContextBeforeStack(c: ArgType, s: ArgType)
    requires WellFormedArg(c) && c.isExecutionContext && IsStackAllocator(s.facts)
    ensures Viable(FunctionAlloc, [c, s]) && Resolve([c, s]) == Some(ContextDefault)
  {
    ResolvesTo([c, s], ContextDefault);
  }

  /** With a stack allocator as the second argument, an executor selects
      `spawn(function, salloc)`: its forwarding reference binds the executor
      without adding `const`, which `spawn(const Executor&, function)` and
      the strand overloads do. */
  lemma ExecutorBeforeStack(e: ArgType, s: ArgType)
    requires WellFormedArg(e) && e.isExecutor && IsStackAllocator(s.facts)
    ensures Viable(ExecutorDefault, [e, s]) && Resolve([e, s]) == Some(FunctionAlloc)
  {
    ResolvesTo([e, s], FunctionAlloc);
  }

  /** The explicit-handler overload is selected only when the handler is
      neither an executor nor an execution context, the function is not a
      stack allocator and the last argument is one. */
  lemma ExplicitHandlerGuard(args: seq<ArgType>)
    requires Resolve(args) == Some(HandlerAlloc)
    ensures |args| == 3
    ensures !args[0].isExecutor && !args[0].isExecutionContext
    ensures !IsStackAllocator(args[1].facts) && IsStackAllocator(args[2].facts)
  {
    ResolveIsBest(args);
  }

  /** Those conditions make the explicit-handler overload exclusive with the
      executor and execution-context overloads: no call can have both
      viable, so partial ordering is never needed between them. */
  lemma ExplicitHandlerExclusive(args: seq<ArgType>)
    ensures !(Viable(HandlerAlloc, args) && Viable(ExecutorAlloc, args))
    ensures !(Viable(HandlerAlloc, args) && Viable(ContextAlloc, args))
    ensures !(Viable(HandlerDefault, args) && Viable(ExecutorDefault, args))
    ensures !(Viable(HandlerDefault, args) && Viable(ContextDefault, args))
    ensures !(Viable(HandlerDefault, args) && Viable(FunctionAlloc, args))
  {
  }

  /** Which handler a launch ends up with. */
  datatype HandlerOrigin =
    | GivenHandler(handler: ArgType)    // the caller's own handler
    | ParentHandler                     // the handler of the yield token's task
    | DefaultHandler(exec: ExecKind)    // `default_spawn_handler` bound to an executor

  type Launch = Launcher.SpawnData<HandlerOrigin, ArgType, ArgType>

  function OriginOf(h: ArgType): HandlerOrigin {
    if h.family.DefaultHandlerBinder? then DefaultHandler(h.family.exec) else GivenHandler(h)
  }

  /** How far a first argument still is from the explicit-handler launch:
      execution contexts forward to an executor, executors to a strand,
      strands to a bound default handler. */
  function Rank(a: ArgType): nat {
    if a.isExecutionContext then 3
    else if a.family.StrandOf? || a.family.IoContextStrand? then 1
    else if a.isExecutor then 2
    else 0
  }

  /** Each forwarding three-argument overload hands a first argument of lower
      rank to the next call. */
  lemma ForwardingLowersRank(a: ArgType, f: ArgType, s: ArgType)
    requires Resolve([a, f, s]).Some?
    ensures Resolve([a, f, s]) == Some(ExecutorAlloc) ==>
      Rank(ExecutorType(StrandExecutor(a.assocExecutor))) < Rank(a)
    ensures Resolve([a, f, s]) == Some(StrandAlloc) ==> Rank(BinderType(a.assocExecutor)) < Rank(a)
    ensures Resolve([a, f, s]) == Some(IoStrandAlloc) ==> Rank(BinderType(IoStrandExecutor)) < Rank(a)
    ensures Resolve([a, f, s]) == Some(ContextAlloc) ==> Rank(ExecutorType(ContextExecutor)) < Rank(a)
  {
    ResolveIsBest([a, f, s]);
    if Resolve([a, f, s]) == Some(ExecutorAlloc) {
      assert !Viable(StrandAlloc, [a, f, s]) && !Viable(IoStrandAlloc, [a, f, s]) by {
        assert !Better(ExecutorAlloc, StrandAlloc);
        assert !Better(ExecutorAlloc, IoStrandAlloc);
      }
    }
  }

  /** A three-argument call: resolve, then follow the forwarding chain down
      to the overload that builds the launch. */
  function Spawn3(a: ArgType, f: ArgType, s: ArgType): Option<Launch>
    decreases Rank(a)
  {
    match Resolve([a, f, s])
    case None => None
    case Some(o) =>
      ForwardingLowersRank(a, f, s);
      match o
      case HandlerAlloc => Some(Launcher.SpawnData(OriginOf(a), true, f, s))
      case YieldAlloc => Some(Launcher.SpawnData(ParentHandler, false, f, s))
      case ExecutorAlloc => Spawn3(ExecutorType(StrandExecutor(a.assocExecutor)), f, s)
      case StrandAlloc => Spawn3(BinderType(a.assocExecutor), f, s)
      case IoStrandAlloc => Spawn3(BinderType(IoStrandExecutor), f, s)
      case ContextAlloc => Spawn3(ExecutorType(ContextExecutor), f, s)
      case _ => None
  }

  /** A two-argument call. `spawn(function, salloc)` runs on the function's
      associated executor; every other two-argument overload appends
      `default_stack()`. */
  function Spawn2(a: ArgType, b: ArgType): Option<Launch> {
    match Resolve([a, b])
    case None => None
    case Some(o) =>
      if o == FunctionAlloc then Spawn3(ExecutorType(a.assocExecutor), a, b)
      else if Arity(o) == 2 then Spawn3(a, b, DefaultStack)
      else None
  }

  /** A call with any number of arguments. */
  function Spawn(args: seq<ArgType>): Option<Launch> {
    if |args| == 1 then
      (if Resolve(args) == Some(FunctionDefault) then Spawn2(args[0], DefaultStack) else None)
    else if |args| == 2 then Spawn2(args[0], args[1])
    else if |args| == 3 then Spawn3(args[0], args[1], args[2])
    else None
  }

  /** Every launch calls its handler exactly when it is not nested: the
      explicit-handler launch sets the flag, the yield-token launch clears it,
      and the forwarding overloads reach one of the two. */
  lemma {:induction false} Spawn3CallsHandlerUnlessNested(a: ArgType, f: ArgType, s: ArgType)
    requires Spawn3(a, f, s).Some?
    ensures Spawn3(a, f, s).value.callHandler <==> !Spawn3(a, f, s).value.handler.ParentHandler?
    ensures Spawn3(a, f, s).value.body == f && Spawn3(a, f, s).value.salloc == s
    ensures IsStackAllocator(s.facts)
    decreases Rank(a)
  {
    ForwardingLowersRank(a, f, s);
    ResolveIsBest([a, f, s]);
    match Resolve([a, f, s]).value
    case HandlerAlloc =>
    case YieldAlloc =>
    case ExecutorAlloc => Spawn3CallsHandlerUnlessNested(ExecutorType(StrandExecutor(a.assocExecutor)), f, s);
    case StrandAlloc => Spawn3CallsHandlerUnlessNested(BinderType(a.assocExecutor), f, s);
    case IoStrandAlloc => Spawn3CallsHandlerUnlessNested(BinderType(IoStrandExecutor), f, s);
    case ContextAlloc => Spawn3CallsHandlerUnlessNested(ExecutorType(ContextExecutor), f, s);
  }

  lemma Spawn2CallsHandlerUnlessNested(a: ArgType, b: ArgType)
    requires Spawn2(a, b).Some?
    ensures Spawn2(a, b).value.callHandler <==> !Spawn2(a, b).value.handler.ParentHandler?
    ensures IsStackAllocator(Spawn2(a, b).value.salloc.facts)
    ensures Resolve([a, b]) == Some(FunctionAlloc) ==>
      Spawn2(a, b).value.body == a && Spawn2(a, b).value.salloc == b
    ensures Resolve([a, b]) != Some(FunctionAlloc) ==>
      Spawn2(a, b).value.body == b && Spawn2(a, b).value.salloc == DefaultStack
  {
    if Resolve([a, b]) == Some(FunctionAlloc) {
      Spawn3CallsHandlerUnlessNested(ExecutorType(a.assocExecutor), a, b);
    } else {
      Spawn3CallsHandlerUnlessNested(a, b, DefaultStack);
    }
  }

  /** The same for calls of every arity: the handler is called unless the
      launch is nested, and the stack allocator used is always a stack
      allocator. */
  lemma CallsHandlerUnlessNested(args: seq<ArgType>)
    requires Spawn(args).Some?
    ensures Spawn(args).value.callHandler <==> !Spawn(args).value.handler.ParentHandler?
    ensures IsStackAllocator(Spawn(args).value.salloc.facts)
  {
    if |args| == 1 {
      Spawn2CallsHandlerUnlessNested(args[0], DefaultStack);
    } else if |args| == 2 {
      Spawn2CallsHandlerUnlessNested(args[0], args[1]);
    } else {
      Spawn3CallsHandlerUnlessNested(args[0], args[1], args[2]);
    }
  }

  /** The three-argument overload a `default_stack()` overload forwards to. */
  function Counterpart(o: Overload): (c: Overload)
    ensures Arity(o) == 2 && o != FunctionAlloc ==> Arity(c) == 3 && FirstPattern(c) == FirstPattern(o)
  {
    match o
    case FunctionDefault => FunctionAlloc
    case HandlerDefault => HandlerAlloc
    case YieldDefault => YieldAlloc
    case ExecutorDefault => ExecutorAlloc
    case StrandDefault => StrandAlloc
    case IoStrandDefault => IoStrandAlloc
    case ContextDefault => ContextAlloc
    case _ => o
  }

  /** Appending `default_stack()` to a call that resolved to a two-argument
      overload other than `spawn(function, salloc)` resolves to that
      overload's three-argument counterpart — so the two-argument launch is
      the three-argument launch with the default stack. */
  lemma DefaultStackForwarding(a: ArgType, b: ArgType)
    requires Resolve([a, b]).Some? && Resolve([a, b]) != Some(FunctionAlloc)
    ensures Resolve([a, b, DefaultStack]) == Some(Counterpart(Resolve([a, b]).value))
    ensures Spawn([a, b]) == Spawn([a, b, DefaultStack])
  {
    ResolveIsBest([a, b]);
    CounterpartIsBest(a, b, Resolve([a, b]).value);
    ResolvesTo([a, b, DefaultStack], Counterpart(Resolve([a, b]).value));
  }

  /** The counterpart of the best two-argument overload is the best
      three-argument one once `default_stack()` is appended: each viable
      three-argument overload is the counterpart of a viable two-argument
      one, and counterparts compare alike. */
  lemma CounterpartIsBest(a: ArgType, b: ArgType, o: Overload)
    requires IsBest(o, [a, b]) && o != FunctionAlloc
    ensures IsBest(Counterpart(o), [a, b, DefaultStack])
  {
    KnownTypes();
    var c := Counterpart(o);
    forall o3 | Viable(o3, [a, b, DefaultStack]) && o3 != c
      ensures Better(c, o3)
    {
      if FirstPattern(o3) == AnyType {
        var o2 := match o3
          case HandlerAlloc => HandlerDefault
          case ExecutorAlloc => ExecutorDefault
          case _ => ContextDefault;
        assert Viable(o2, [a, b]);
      } else {
        var o2 := match o3
          case YieldAlloc => YieldDefault
          case StrandAlloc => StrandDefault
          case _ => IoStrandDefault;
        assert Viable(o2, [a, b]);
      }
    }
  }

  /** `spawn(function)` always selects the one-argument overload, which is
      `spawn(function, default_stack())`. */
  lemma SingleArgumentForwarding(a: ArgType)
    ensures Resolve([a]) == Some(FunctionDefault)
    ensures Spawn([a]) == Spawn([a, DefaultStack])
  {
    ResolvesTo([a], FunctionDefault);
  }

  /** An argument that only a `Function` parameter would take: a plain
      callable, neither executor, execution context nor stack allocator. */
  predicate FunctionLike(f: ArgType) {
    WellFormedArg(f) && f.family.Plain? && !f.isExecutor && !f.isExecutionContext
    && !IsStackAllocator(f.facts)
  }

  /** An argument that only a `Handler` parameter would take. */
  predicate HandlerLike(h: ArgType) {
    (h.family.Plain? || h.family.DefaultHandlerBinder?) && !h.isExecutor && !h.isExecutionContext
  }

  /** `spawn(handler, function[, salloc])` launches the function with that
      handler, called at the end. */
  lemma HandlerLaunch(h: ArgType, f: ArgType, s: ArgType)
    requires HandlerLike(h) && FunctionLike(f) && IsStackAllocator(s.facts)
    ensures Spawn([h, f, s]) == Some(Launcher.SpawnData(OriginOf(h), true, f, s))
    ensures Spawn([h, f]) == Some(Launcher.SpawnData(OriginOf(h), true, f, DefaultStack))
  {
    KnownTypes();
    ResolvesTo([h, f, s], HandlerAlloc);
    ResolvesTo([h, f, DefaultStack], HandlerAlloc);
    ResolvesTo([h, f], HandlerDefault);
  }

  /** `spawn(yield, function[, salloc])` launches a nested task that shares
      the parent's handler and never calls it, whatever the function is. */
  lemma NestedLaunch(y: ArgType, f: ArgType, s: ArgType)
    requires y.family.YieldContext? && IsStackAllocator(s.facts)
    ensures Spawn([y, f, s]) == Some(Launcher.SpawnData(ParentHandler, false, f, s))
    ensures Spawn([y, f]) == Some(Launcher.SpawnData(ParentHandler, false, f, DefaultStack))
  {
    KnownTypes();
    ResolvesTo([y, f, s], YieldAlloc);
    ResolvesTo([y, f, DefaultStack], YieldAlloc);
    ResolvesTo([y, f], YieldDefault);
  }

  /** The strand a launch through executor `k` ends up serialised on: a
      strand stays itself, any other executor is wrapped in
      `strand<Executor>`. Either way it runs on the same underlying
      executor. */
  function StrandFor(k: ExecKind): (r: ExecKind)
    ensures r.StrandExecutor? || r == IoStrandExecutor
    ensures (k.StrandExecutor? || k == IoStrandExecutor) ==> r == k
    ensures !k.StrandExecutor? && k != IoStrandExecutor ==> r == StrandExecutor(k)
    ensures Underlying(r) == Underlying(k)
  {
    if k.StrandExecutor? || k == IoStrandExecutor then k else StrandExecutor(k)
  }

  /** The forwarding chain from any executor reaches the explicit-handler
      launch with `default_spawn_handler` bound to that executor's strand. */
  lemma {:induction false} ExecutorChain(k: ExecKind, f: ArgType, s: ArgType)
    requires FunctionLike(f) && IsStackAllocator(s.facts)
    ensures Spawn3(ExecutorType(k), f, s)
      == Some(Launcher.SpawnData(DefaultHandler(StrandFor(k)), true, f, s))
    decreases Rank(ExecutorType(k))
  {
    var e := ExecutorType(k);
    match k
    case StrandExecutor(_) =>
      StrandLaunch(e, f, s);
    case IoStrandExecutor =>
      IoStrandLaunch(e, f, s);
    case _ =>
      ResolvesTo([e, f, s], ExecutorAlloc);
      ExecutorChain(StrandExecutor(k), f, s);
  }

  /** `spawn(executor, function, salloc)` launches the function with the
      default handler on the executor's strand: the executor itself when it
      is a strand, otherwise a new `strand<Executor>` wrapping it. */
  lemma ExecutorAllocLaunch(e: ArgType, f: ArgType, s: ArgType)
    requires WellFormedArg(e) && e.isExecutor && FunctionLike(f) && IsStackAllocator(s.facts)
    ensures Spawn3(e, f, s) == Some(Launcher.SpawnData(DefaultHandler(StrandFor(e.assocExecutor)), true, f, s))
  {
    KnownTypes();
    if e.family.StrandOf? {
      StrandLaunch(e, f, s);
    } else if e.family.IoContextStrand? {
      IoStrandLaunch(e, f, s);
    } else {
      ResolvesTo([e, f, s], ExecutorAlloc);
      ExecutorChain(StrandExecutor(e.assocExecutor), f, s);
    }
  }

  /** `spawn(strand, function, salloc)` binds the default handler to that
      very strand. */
  lemma StrandLaunch(e: ArgType, f: ArgType, s: ArgType)
    requires WellFormedArg(e) && e.family.StrandOf? && FunctionLike(f) && IsStackAllocator(s.facts)
    ensures Spawn3(e, f, s) == Some(Launcher.SpawnData(DefaultHandler(e.assocExecutor), true, f, s))
  {
    ResolvesTo([e, f, s], StrandAlloc);
    ResolvesTo([BinderType(e.assocExecutor), f, s], HandlerAlloc);
  }

  /** `spawn(io_context::strand, function, salloc)` binds the default handler
      to that strand. */
  lemma IoStrandLaunch(e: ArgType, f: ArgType, s: ArgType)
    requires WellFormedArg(e) && e.family.IoContextStrand? && FunctionLike(f) && IsStackAllocator(s.facts)
    ensures Spawn3(e, f, s) == Some(Launcher.SpawnData(DefaultHandler(IoStrandExecutor), true, f, s))
  {
    ResolvesTo([e, f, s], IoStrandAlloc);
    ResolvesTo([BinderType(IoStrandExecutor), f, s], HandlerAlloc);
  }

  /** `spawn(executor, function[, salloc])` launches the function on a
      strand of the executor, with the default handler. */
  lemma ExecutorLaunch(e: ArgType, f: ArgType, s: ArgType)
    requires WellFormedArg(e) && e.isExecutor && FunctionLike(f) && IsStackAllocator(s.facts)
    ensures Spawn([e, f, s]) == Some(Launcher.SpawnData(DefaultHandler(StrandFor(e.assocExecutor)), true, f, s))
    ensures Spawn([e, f]) == Some(Launcher.SpawnData(DefaultHandler(StrandFor(e.assocExecutor)), true, f, DefaultStack))
  {
    KnownTypes();
    ExecutorAllocLaunch(e, f, s);
    ExecutorAllocLaunch(e, f, DefaultStack);
    assert Viable(ExecutorDefault, [e, f]) && !Viable(FunctionAlloc, [e, f]);
    DefaultStackForwarding(e, f);
  }

  /** `spawn(context, function, salloc)` launches the function on a strand
      of the context's executor, with the default handler. */
  lemma ContextAllocLaunch(c: ArgType, f: ArgType, s: ArgType)
    requires WellFormedArg(c) && c.isExecutionContext && FunctionLike(f) && IsStackAllocator(s.facts)
    ensures Spawn3(c, f, s) == Some(Launcher.SpawnData(DefaultHandler(StrandExecutor(ContextExecutor)), true, f, s))
  {
    ResolvesTo([c, f, s], ContextAlloc);
    ExecutorChain(ContextExecutor, f, s);
  }

  /** `spawn(context, function[, salloc])` launches the function on a strand
      of the context's executor, with the default handler. */
  lemma ContextLaunch(c: ArgType, f: ArgType, s: ArgType)
    requires WellFormedArg(c) && c.isExecutionContext && FunctionLike(f) && IsStackAllocator(s.facts)
    ensures Spawn([c, f, s]) == Some(Launcher.SpawnData(DefaultHandler(StrandExecutor(ContextExecutor)), true, f, s))
    ensures Spawn([c, f]) == Some(Launcher.SpawnData(DefaultHandler(StrandExecutor(ContextExecutor)), true, f, DefaultStack))
  {
    KnownTypes();
    ContextAllocLaunch(c, f, s);
    ContextAllocLaunch(c, f, DefaultStack);
    assert Viable(ContextDefault, [c, f]) && !Viable(FunctionAlloc, [c, f]);
    DefaultStackForwarding(c, f);
  }

  /** `spawn(function[, salloc])` launches the function on a strand of its
      associated executor, with the default handler. */
  lemma FunctionLaunch(f: ArgType, s: ArgType)
    requires FunctionLike(f) && IsStackAllocator(s.facts)
    ensures Spawn([f, s])
      == Some(Launcher.SpawnData(DefaultHandler(StrandFor(f.assocExecutor)), true, f, s))
    ensures Spawn([f])
      == Some(Launcher.SpawnData(DefaultHandler(StrandFor(f.assocExecutor)), true, f, DefaultStack))
  {
    KnownTypes();
    FunctionAllocLaunch(f, s);
    FunctionAllocLaunch(f, DefaultStack);
    ResolvesTo([f], FunctionDefault);
  }

  /** `spawn(function, salloc)` launches the function on its associated
      executor's strand, with the default handler. */
  lemma FunctionAllocLaunch(f: ArgType, s: ArgType)
    requires FunctionLike(f) && IsStackAllocator(s.facts)
    ensures Spawn2(f, s)
      == Some(Launcher.SpawnData(DefaultHandler(StrandFor(f.assocExecutor)), true, f, s))
  {
    ResolvesTo([f, s], FunctionAlloc);
    ExecutorChain(f.assocExecutor, f, s);
  }

  /** The attributes object of the library's tests. Neither the guards nor
      the parameter patterns inspect whether an argument can be called, so
      the routing cannot tell it from a plain function object: it is the
      same argument description as any plain callable. */
  const Attributes: ArgType := ArgType(Plain, false, false, PlainClassFacts, SystemExecutor)

  /** A function followed by an attributes object that is not a stack
      allocator resolves to the explicit-handler overload: the function is
      taken as the handler and the attributes object as the function. */
  lemma AttributesAreNotAStack(f: ArgType)
    requires FunctionLike(f)
    ensures Resolve([f, Attributes]) == Some(HandlerDefault)
    ensures Spawn([f, Attributes]) == Some(Launcher.SpawnData(GivenHandler(f), true, Attributes, DefaultStack))
  {
    KnownTypes();
    HandlerLaunch(f, Attributes, DefaultStack);
    ResolvesTo([f, Attributes], HandlerDefault);
  }
}
