# spawn: stackful coroutines over Boost.Asio, modelled in Dafny

This project models the core of `spawn`, a header-only library that runs a
function as a stackful coroutine on an Asio executor and lets the function
wait for an asynchronous operation by passing its yield token as the
completion handler.

The model covers five pieces.

- **The single-call rendezvous.** This is `coro_handler`, the completion
  handler that an asynchronous operation invokes, and
  `coro_async_result::get()`, where the task waits. The two sides share:
  - a readiness counter that starts at 2;
  - an error slot;
  - an optional value slot.

  Each side is split into steps:
  - completion side: write the error code, move the value, decrement and resume on zero;
  - task side: drop the strong reference to its own context, decrement and suspend unless zero (one step), then throw or return.

  A schedule is any sequence of these steps. The theorems quantify over every
  schedule, so over every interleaving of these steps (`rendezvous.dfy`).
  The task's decrement and its switch away are one step, and the completion
  is invoked at most once; "## Left out" gives the reasons.
- **The continuation pair.** This is reduced to which side is live
  (`continuation.dfy`).
- **The yield token `basic_yield_context`.** This covers its constructors and
  `operator[]`, which installs a caller-owned error slot (`yield_context.dfy`).
- **The `async_result` specialisations.** These map a completion signature to
  the rendezvous shape and value type. C++ types are modelled far enough for
  `decay` and parameter adjustment (`signatures.dfy`).
- **The launch.** This covers:
  - what `spawn_helper` does on the new stack (`launcher.dfy`);
  - the `is_stack_allocator` trait, including its ambiguity-based member probes (`stack_allocator.dfy`);
  - the whole `spawn` overload set. This means partial ordering, the `enable_if` guards, and the forwarding chain down to the two overloads that build `spawn_data` (`overloads.dfy`).

The library's usage scenarios are replayed on top in `scenarios.dfy`. Their
expected counter values follow from the routing and the launch lifecycle
together.

Where the two headers disagree, the model follows `impl/spawn.hpp`:

- The yield token's fields follow the ones the implementation reads:
  `callee_` (weak), `caller_`, `handler_` and `ec_`.
- `spawn_helper` builds the token from three arguments. The declared class in
  `spawn.hpp` instead has a single `yc_` field and a two-argument constructor.

The library's tests pass `boost::coroutines::attributes` where a stack
allocator is expected. The model shows that no three-argument overload
accepts such a call, because every one of them requires its last argument to
satisfy `is_stack_allocator` (`Scenarios.ThirdArgumentMustBeAStack`). With two
arguments, the call selects the explicit-handler overload and takes the
function as the handler (`Overloads.AttributesAreNotAStack`). The test file
itself notes this at line 42 and disables that test. The other
attribute-taking tests depend on code that is not part of this model.

## Model

| member | source | states |
|---|---|---|
| Continuation.Apply | include/spawn/spawn.hpp:58-66 | `resume()` is legal only from the caller side and lands on the callee side; `suspend()` is legal only from the callee side and lands on the caller side; a legal switch always changes the live side |
| Continuation.RunAlternates | include/spawn/spawn.hpp:58-66 | a sequence of switches is legal exactly when it alternates starting from the live side; it then ends on the starting side after an even number of switches and on the other side after an odd number |
| Continuation.ResumeThenSuspendReturnsToCaller | include/spawn/spawn.hpp:58-66 | `resume()` then `suspend()` gives control back to the caller; a `suspend()` from the caller side or a `resume()` from the callee side is rejected |
| YieldContext.Lock | include/spawn/impl/spawn.hpp:90-91 | upgrading the weak reference to the task's context succeeds exactly while that context is alive, and yields that context |
| YieldContext.Make | include/spawn/spawn.hpp:128-133 | the direct constructor binds the contexts and handler and leaves the error slot null |
| YieldContext.Convert | include/spawn/spawn.hpp:139-145 | the converting constructor copies the weak continuation, the caller and the error slot unchanged and converts the handler |
| YieldContext.WithErrorSlot | include/spawn/spawn.hpp:166-171 | `operator[](ec)` yields a token whose slot is `ec` and which differs from the original in nothing else |
| YieldContext.ErrorSlotLastWins | include/spawn/spawn.hpp:166-171 | installing two slots in a row keeps only the second |
| YieldContext.ConvertKeepsErrorSlot | include/spawn/spawn.hpp:139-171 | converting the handler type and installing a slot commute, and the slot survives conversion |
| YieldContext.MadeThenSlotted | include/spawn/spawn.hpp:128-171 | a directly constructed token given a slot is the same token with that slot and no other change, and differs from the unslotted one |
| Rendezvous.StoredError | include/spawn/impl/spawn.hpp:100-150 | the forms without an error argument store exactly the default-constructed code, which is not a failure; the error-code-first forms store exactly the supplied code |
| Rendezvous.Start | include/spawn/impl/spawn.hpp:205-214 | a new pending call has its counter at exactly 2. It uses the caller's error slot exactly when the token carried one, and holds a strong reference to the task's context exactly when that context is alive. Its internal error slot is not a failure and nothing has been delivered |
| Rendezvous.StartEstablishesInv | include/spawn/impl/spawn.hpp:90-98 | a pending call started while the task's context is alive satisfies the rendezvous invariant |
| Rendezvous.Next | include/spawn/impl/spawn.hpp:100-261 | no step changes the shape or the choice of error slot; only the two decrement steps lower the counter, each by exactly one; the model admits one invocation of the completion, and that step records what it was invoked with |
| Rendezvous.Exec | include/spawn/impl/spawn.hpp:100-261 | a whole schedule keeps the rendezvous shape and the choice of error slot |
| Rendezvous.NextPreservesInv | include/spawn/impl/spawn.hpp:100-261 | every enabled step keeps the rendezvous invariant. The invariant says: no bad resume happened; the counter is 2 minus the number of decrements; the slots hold what was delivered; only the suspended task has given up the live side; and who continued the task is determined by the order of the decrements |
| Rendezvous.ExecPreservesInv | include/spawn/impl/spawn.hpp:100-261 | every schedule keeps the invariant |
| Rendezvous.ArrivalsFollowSchedule | include/spawn/impl/spawn.hpp:104-112 | the decrements take effect in exactly the order the schedule lists them |
| Rendezvous.Reachable | include/spawn/impl/spawn.hpp:205-261 | every state reachable from a new pending call satisfies the invariant, and its decrement history is the schedule's |
| Rendezvous.NeverFaults | include/spawn/impl/spawn.hpp:104-105 | no schedule resumes the task through a null reference or while it is running; the counter stays between 0 and 2; the task suspends at most once and is resumed at most once |
| Rendezvous.SlotsWrittenBeforeContinuing | include/spawn/impl/spawn.hpp:100-114 | whenever the task can continue, the completion has arrived, the chosen error slot holds the stored code, the value slot holds the delivered value, and the task is on its own side |
| Rendezvous.CompletionWritesBeforeArriving | include/spawn/impl/spawn.hpp:100-150 | once the completion has decremented, both slots already hold what it delivered, and a value-carrying rendezvous has its value |
| Rendezvous.SuspendedWithoutOwnership | include/spawn/impl/spawn.hpp:216-222 | while suspended, the task owns no strong reference to its own context through the handler; it is the only party that has decremented; the counter is 1 and control is on the caller side |
| Rendezvous.ContinuesExactlyOnce | include/spawn/impl/spawn.hpp:221-222 | when `get()` has finished, the counter is 0 and the task continued exactly once. It was resumed by the completion exactly when it decremented first, and then it suspended exactly once. It continued without suspending exactly when the completion decremented first |
| Rendezvous.GetReturnsDelivery | include/spawn/impl/spawn.hpp:211-224 | with a caller slot, the delivered code lands in that slot and nothing is thrown. Without one, `system_error` is thrown exactly when the stored code is a failure, and it carries that code. Otherwise the delivered value is returned |
| Rendezvous.Progress | include/spawn/impl/spawn.hpp:216-225 | until the task is done some step is enabled; the completion can always be invoked while it has not been |
| Rendezvous.CompletionFirstShortCircuits | include/spawn/impl/spawn.hpp:216-224 | if the completion fires before the task reaches `get()`, the task finishes with the expected result, never suspends and is never resumed |
| Rendezvous.TaskFirstSuspendsOnce | include/spawn/impl/spawn.hpp:253-261 | if the task reaches `get()` first, it suspends once, is resumed once and finishes with the expected result |
| Signatures.RemoveCv | include/spawn/impl/spawn.hpp:288-299 | stripping qualifiers leaves no top-level qualifier and keeps a well-formed non-reference type well formed |
| Signatures.Decay | include/spawn/impl/spawn.hpp:288-299 | the decay of a well-formed type is never a reference, qualified, an array or a function |
| Signatures.DecayIdempotent | include/spawn/impl/spawn.hpp:288-299 | decaying twice is decaying once |
| Signatures.DecayOfQualifiedReference | include/spawn/impl/spawn.hpp:288-299 | for a plain object type, decay removes exactly a written reference and `const` |
| Signatures.Adjust | include/spawn/impl/spawn.hpp:275-327 | an adjusted parameter of a well-formed type is a reference as written or an unqualified non-array, non-function type that decay leaves unchanged, so adjusting is final |
| Signatures.MakeSignature | include/spawn/impl/spawn.hpp:275-327 | forming a signature keeps its return type and parameter count; each well-formed parameter comes out in adjusted form with the same decayed type as written |
| Signatures.SelectIsMostSpecialised | include/spawn/impl/spawn.hpp:275-327 | the chosen specialisation matches and is more specialised than every other matching one; there is none exactly when no pattern matches |
| Signatures.Bind | include/spawn/impl/spawn.hpp:275-327 | a signature binds a rendezvous exactly when some specialisation matches it |
| Signatures.DecayAfterAdjust | include/spawn/impl/spawn.hpp:288-299 | decaying an adjusted parameter type is decaying the written one |
| Signatures.SignatureMapping | include/spawn/impl/spawn.hpp:275-327 | `R()` and `R(error_code)` give a void rendezvous. `R(Arg1)` and `R(error_code, Arg2)` give a rendezvous whose value type is the decayed argument. Only the error-code-first forms have an error channel. Three parameters bind nothing |
| Signatures.ErrorCodeSpellings | include/spawn/impl/spawn.hpp:301-313 | a `const error_code` parameter selects the error channel; `const error_code&` selects the one-argument form, so the code is delivered as a value and never thrown |
| Signatures.InvocationFitsShape | include/spawn/impl/spawn.hpp:275-327 | each invocation an operation can make fits the selected rendezvous. It stores the supplied code exactly when there is an error channel, and a non-failure code otherwise. The rendezvous carries a value exactly for `R(Arg1)` and `R(error_code, Arg2)` |
| StackAllocatorTrait.MemberProbe | include/spawn/detail/is_stack_allocator.hpp:44-60 | the member probe is defined only for class types, and its size is other than 1 exactly when the type has the member |
| StackAllocatorTrait.TraitsProbe | include/spawn/detail/is_stack_allocator.hpp:62-66 | the `traits_type` probe has size 1 exactly when the type names a nested `traits_type` |
| StackAllocatorTrait.ProbeDetectsMember | include/spawn/detail/is_stack_allocator.hpp:27-51 | naming the member through the derived class is well formed exactly when the type lacks its own member (otherwise lookup is ambiguous); the probe size is 2 or 1 accordingly |
| StackAllocatorTrait.IsStackAllocatorIffInterface | include/spawn/detail/is_stack_allocator.hpp:68-83 | the trait holds exactly for class types with `allocate`, `deallocate` and `traits_type`; a non-class type never satisfies it |
| StackAllocatorTrait.KnownTypes | include/spawn/detail/is_stack_allocator.hpp:68-83 | `default_stack` satisfies the trait; coroutine attributes, a class without `traits_type` and a non-class type do not |
| Launcher.RunTask | include/spawn/impl/spawn.hpp:384-402 | the task acquires its stack, then runs the body with a token bound to its own context, the launching context and the handler. It then switches back and the stack is released. A handler call can occur only between the body and the switch back, and only with the launch's handler |
| Launcher.HandlerCalledIffRequested | include/spawn/impl/spawn.hpp:394-398 | the handler is called exactly once when the launch asks for it and never otherwise |
| Launcher.BodyTokenBindsTask | include/spawn/impl/spawn.hpp:393-394 | the body's token names the task's own context weakly and the launching context, carries the launch's handler and has no error slot |
| Overloads.ResolveIsBest | include/spawn/spawn.hpp:237-433 | resolution yields the viable overload that is better than every other viable one (its first argument converts better, or equally well and it is the more specialised template), and fails exactly when there is no such overload |
| Overloads.BestIsUnique | include/spawn/spawn.hpp:237-433 | no two different overloads can both be better than all the others |
| Overloads.ResolvesTo | include/spawn/spawn.hpp:237-433 | whichever overload is better than all other viable ones is the one resolution picks |
| Overloads.PreferenceIsOrdered | include/spawn/spawn.hpp:237-433 | in the order yield token, execution context, `spawn(function, salloc)`, explicit handler, strands, executor, each viable overload is better than every later viable one |
| Overloads.NeverAmbiguous | include/spawn/spawn.hpp:237-433 | the overload set has no ambiguous call: a call resolves exactly when some overload is viable for it |
| Overloads.ContextBeforeStack | include/spawn/spawn.hpp:237-241 | `spawn(context, salloc)` selects `spawn(ExecutionContext&, Function&&)` (lines 425-433) over the viable `spawn(function, salloc)`, because an lvalue reference is more specialised than a forwarding reference |
| Overloads.ExecutorBeforeStack | include/spawn/spawn.hpp:237-241 | `spawn(executor, salloc)` selects `spawn(function, salloc)` over the viable `spawn(const Executor&, Function&&)` (lines 338-345), because binding the executor does not add `const` |
| Overloads.ExplicitHandlerGuard | include/spawn/spawn.hpp:266-273 | the explicit-handler overload is selected only with three arguments: the handler is neither an executor nor an execution context, the function is not a stack allocator, and the last argument is one |
| Overloads.ExplicitHandlerExclusive | include/spawn/spawn.hpp:266-433 | no call has both the explicit-handler overload and the executor or execution-context overload viable, with or without an allocator |
| Overloads.ForwardingLowersRank | include/spawn/impl/spawn.hpp:558-607 | each forwarding overload passes on a first argument that is closer to the explicit-handler launch. An execution context becomes its executor; an executor becomes a strand; a strand becomes a bound default handler. So the forwarding chain ends |
| Overloads.Spawn3CallsHandlerUnlessNested | include/spawn/impl/spawn.hpp:503-607 | every three-argument launch calls its handler exactly when it is not nested. It keeps the function and allocator it was given, and that allocator satisfies the trait |
| Overloads.Spawn2CallsHandlerUnlessNested | include/spawn/impl/spawn.hpp:489-501 | two-argument launches call the handler exactly when not nested and use a stack allocator. `spawn(function, salloc)` launches that function with that allocator on its associated executor; every other two-argument call launches its second argument with `default_stack()` |
| Overloads.CallsHandlerUnlessNested | include/spawn/impl/spawn.hpp:489-607 | for calls of any arity, a launch calls its handler exactly when it is not nested, and always with a stack allocator |
| Overloads.DefaultStackForwarding | include/spawn/spawn.hpp:275-433 | a call resolved to a two-argument overload other than `spawn(function, salloc)` resolves, with `default_stack()` appended, to that overload's three-argument counterpart, and launches the same |
| Overloads.CounterpartIsBest | include/spawn/spawn.hpp:275-433 | if a two-argument overload other than `spawn(function, salloc)` is best for a call, its three-argument counterpart is best for the call with `default_stack()` appended |
| Overloads.SingleArgumentForwarding | include/spawn/spawn.hpp:243-248 | `spawn(function)` always selects the one-argument overload and launches as `spawn(function, default_stack())` |
| Overloads.HandlerLaunch | include/spawn/impl/spawn.hpp:503-529 | `spawn(handler, function[, salloc])` launches the function with the caller's handler (or the default handler it binds) and asks for it to be called |
| Overloads.NestedLaunch | include/spawn/impl/spawn.hpp:531-556 | `spawn(yield, function[, salloc])` launches with the parent's handler and does not call it, whatever the function is |
| Overloads.StrandFor | include/spawn/impl/spawn.hpp:558-594 | the strand an executor's launch is serialised on is that executor itself when it is a `strand<Executor>` or an `io_context::strand`, and otherwise a `strand<Executor>` wrapping exactly that executor; either way it runs on the same underlying executor |
| Overloads.ExecutorChain | include/spawn/impl/spawn.hpp:558-594 | from any executor, the forwarding chain reaches the explicit-handler launch with `default_spawn_handler` bound to that executor's strand |
| Overloads.StrandLaunch | include/spawn/impl/spawn.hpp:570-580 | `spawn(strand, function, salloc)` binds the default handler to that very strand and calls it |
| Overloads.IoStrandLaunch | include/spawn/impl/spawn.hpp:582-593 | `spawn(io_context::strand, function, salloc)` binds the default handler to that strand and calls it |
| Overloads.ExecutorAllocLaunch | include/spawn/impl/spawn.hpp:558-594 | `spawn(executor, function, salloc)` launches with the default handler on the given executor's strand, which wraps that executor unless it already is a strand, and calls it |
| Overloads.ExecutorLaunch | include/spawn/impl/spawn.hpp:558-594 | the same for `spawn(executor, function[, salloc])`, with `default_stack()` when no allocator is given |
| Overloads.ContextAllocLaunch | include/spawn/impl/spawn.hpp:596-607 | `spawn(context, function, salloc)` launches with the default handler on a `strand<Executor>` wrapping the context's `io_context::executor_type`, and calls it |
| Overloads.ContextLaunch | include/spawn/impl/spawn.hpp:596-607 | the same for `spawn(context, function[, salloc])` |
| Overloads.FunctionAllocLaunch | include/spawn/impl/spawn.hpp:489-501 | `spawn(function, salloc)` launches with the default handler on the strand of the function's own associated executor, and calls it |
| Overloads.FunctionLaunch | include/spawn/impl/spawn.hpp:489-501 | the same for `spawn(function[, salloc])`, with `default_stack()` when no allocator is given |
| Overloads.AttributesAreNotAStack | test/test_spawn.cc:42-52 | `spawn(function, attributes)` selects the explicit-handler overload, so the function becomes the handler and the attributes object becomes the body |
| Scenarios.HandlerIncrements | include/spawn/impl/spawn.hpp:485 | `default_spawn_handler` does nothing; the caller's handler does what it was given (the inherited-handler case exists only for totality, since a nested launch never calls it) |
| Scenarios.LaunchAddsHandlerOnce | include/spawn/impl/spawn.hpp:394-398 | every launch adds its handler's effect exactly once, except a nested launch, which adds none |
| Scenarios.SpawnFunction | test/test_spawn.cc:33-41 | `spawn(counting_handler)` runs on a strand of the system executor rather than the `io_context`, and counts once |
| Scenarios.SpawnHandler | test/test_spawn.cc:54-64 | a counting handler with a counting body counts twice, with or without an explicit stack allocator |
| Scenarios.SpawnYieldContext | test/test_spawn.cc:80-101 | a body that launches a nested counting task and then counts, under a counting handler, counts three times |
| Scenarios.SpawnOnExecutorOrContext | test/test_spawn.cc:127-182 | launching a counting body on the `io_context`'s executor, a strand of it or the `io_context` itself runs it on a strand of that executor and counts once |
| Scenarios.SpawnTimer | test/test_spawn.cc:197-221 | a body that only waits, under a counting handler, counts once |
| Scenarios.ThirdArgumentMustBeAStack | include/spawn/spawn.hpp:237-433 | no three-argument call whose last argument is not a stack allocator resolves or launches |

## Left out

- Stack switching itself is not modelled: Boost.Context `callcc`, `continuation::resume` and `jump_fcontext`. The continuation pair is reduced to which side is live.
- Atomics and memory ordering are not modelled. Each decrement of the shared counter is one atomic step, and the schedules enumerate every interleaving of the modelled steps.
- The Asio plumbing is a set of thin wrappers over libraries outside this model, so it is left out. This covers `dispatch`, `bind_executor`, the associated executor and allocator traits, and the handler allocate, invoke and continuation hooks (include/spawn/impl/spawn.hpp:160-196, 329-351, 467-483). Executors are reduced to the kinds the forwarding chain distinguishes.
- The `BOOST_CONTEXT_NO_CXX11` fcontext variant (include/spawn/impl/spawn.hpp:405-465) is not modelled; only the `continuation` variant is.
- Exceptions escaping the body, forced unwinding and destroying a suspended task without resuming it (test/test_spawn.cc:223-237) depend on Boost.Context unwinding. They are not modelled.
- Launcher.RunTask: the body is one opaque event. Its suspensions inside `get()` are modelled separately by the rendezvous, which assumes one asynchronous call per pending state.
- Rendezvous.NeverFaults: the asynchronous operation is taken to invoke its own moved copy of `coro_handler`. So `get()` resetting the handler it refers to (include/spawn/impl/spawn.hpp:219, 256) never clears the pointer the completion resumes through (lines 105, 113, 142, 149). This holds for Asio operations, which move the handler out of `async_completion`. A completion invoked on that same object after the reset would resume through a null pointer. The task's decrement and its switch away (lines 221-222, 258-259) are also taken as one atomic step. That is sound only when the completion runs serialised with the task, as it does when dispatched through the task's strand. Otherwise the completion could decrement to zero and resume the task between the two, while the task is still running.
- Rendezvous.Next: the asynchronous operation is taken to invoke its handler at most once, so the model disables a second invocation. Nothing in `coro_handler::operator()` (include/spawn/impl/spawn.hpp:100-150) enforces this. A second call would write the slots again and take the counter to -1.
- Rendezvous.Reachable: the theorems assume that the task's context is alive when the completion handler is built. It is, since the token is only used while the body runs; a dead context would make `resume` go through a null pointer.
- Overloads.ResolveIsBest: arguments are described by the properties the guards and patterns inspect. Every argument the caller writes is taken to be a non-const lvalue; other value categories and `const` arguments are not modelled. For a `const` executor, `spawn(executor, salloc)` would select `spawn(const Executor&, Function&&)` instead (Overloads.ExecutorBeforeStack). Only the first parameter is compared, because the other parameters are forwarding references in every overload. `const io_context::strand&` is taken to be more specialised than a parameter of any type.
- Overloads.ContextAllocLaunch: every execution context is taken to be an `io_context`, so its executor is `io_context::executor_type`. Executors are told apart only as the system executor, that executor, the strands wrapping them and `io_context::strand`.
- StackAllocatorTrait.MemberProbe: a `final` class, which cannot be derived from, is not distinguished. Neither are member kinds other than "declared or inherited with that name".
- Signatures.Decay: types are modelled far enough for `decay` and parameter adjustment. Templates, class hierarchies and conversions are not.
- The attribute-taking tests (test/test_spawn.cc:66-78, 103-125, 137-147, 161-172, 184-193) expect a count, but under the overloads shown no overload accepts their calls (Scenarios.ThirdArgumentMustBeAStack).
