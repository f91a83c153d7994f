/** `basic_yield_context`: the token handed to a task body. It names the
    task's continuation weakly, carries the handler the task was launched
    with, and optionally the address of a caller-declared `error_code`. The
    fields follow the ones the rendezvous reads (`callee_`, `caller_`,
    `handler_`, `ec_`). */
module YieldContext {
  import opened Options

  /** Identity of a `continuation_context` object. */
  type ContextId = nat

  /** `weak_ptr<continuation_context>`: names a context without owning it. */
  datatype WeakRef = WeakRef(target: ContextId)

  /** `weak_ptr::lock()`: upgrade to a strong reference, which succeeds
      exactly while the context is alive and yields null otherwise. */
  function Lock(w: WeakRef, alive: set<ContextId>): (r: Option<ContextId>)
    ensures r.Some? <==> w.target in alive
    ensures r.Some? ==> r.value == w.target
  {
    if w.target in alive then Some(w.target) else None
  }

  /** The `ec_` pointer: null, or the address of the caller's `error_code`. */
  datatype ErrorSlot = NoSlot | Slot(address: nat)

  datatype YieldToken<H> = YieldToken(
    callee: WeakRef,      // the task's own context, weakly
    caller: ContextId,    // the context that resumed the task
    handler: H,           // the handler the task was launched with
    ec: ErrorSlot)        // where a delivered error code goes, if anywhere

  /** The direct constructor: binds the task's contexts and handler and
      installs no error slot, so errors will be thrown. */
  function Make<H>(callee: WeakRef, caller: ContextId, handler: H): (t: YieldToken<H>)
    ensures t.ec == NoSlot
    ensures t.callee == callee && t.caller == caller && t.handler == handler
  {
    YieldToken(callee, caller, handler, NoSlot)
  }

  /** The converting constructor from a token of another handler type: the
      handler is converted and every other field is copied unchanged. */
  function Convert<H, G>(other: YieldToken<H>, conv: H -> G): (t: YieldToken<G>)
    ensures t.callee == other.callee && t.caller == other.caller
    ensures t.handler == conv(other.handler)
    ensures t.ec == other.ec
  {
    YieldToken(other.callee, other.caller, conv(other.handler), other.ec)
  }

  /** `operator[](ec)`: a copy of the token whose error slot is the given
      `error_code`. The operator is const, so the original is untouched; in
      this value model that is immediate. */
  function WithErrorSlot<H>(t: YieldToken<H>, address: nat): (r: YieldToken<H>)
    ensures r.ec == Slot(address)
    ensures r.(ec := t.ec) == t
  {
    t.(ec := Slot(address))
  }

  /** Installing a slot twice keeps only the second one. */
  lemma ErrorSlotLastWins<H>(t: YieldToken<H>, a: nat, b: nat)
    ensures WithErrorSlot(WithErrorSlot(t, a), b) == WithErrorSlot(t, b)
  {
  }

  /** Converting the handler type and installing an error slot commute: the
      slot survives conversion and conversion leaves the slot alone. */
  lemma ConvertKeepsErrorSlot<H, G>(t: YieldToken<H>, conv: H -> G, a: nat)
    ensures Convert(WithErrorSlot(t, a), conv) == WithErrorSlot(Convert(t, conv), a)
    ensures Convert(WithErrorSlot(t, a), conv).ec == Slot(a)
  {
  }

  /** A token made by the direct constructor and then given a slot differs
      from the plain token in nothing but that slot. */
  lemma MadeThenSlotted<H>(callee: WeakRef, caller: ContextId, handler: H, a: nat)
    ensures WithErrorSlot(Make(callee, caller, handler), a)
         == YieldToken(callee, caller, handler, Slot(a))
    ensures Make(callee, caller, handler) != WithErrorSlot(Make(callee, caller, handler), a)
  {
  }
}
