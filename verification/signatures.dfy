/** The `async_result` specialisations for yield tokens: which completion
    signatures turn an asynchronous call into a rendezvous, whether that
    rendezvous carries a value, and of which type. */
module Signatures {
  import opened Options
  import opened SystemError
  import Rendezvous

  /** C++ types as far as `decay` and the specialisations tell them apart. */
  datatype Ty =
    | ErrorCodeT                          // boost::system::error_code
    | Named(name: string)                 // any other object type
    | Const(of: Ty)
    | Volatile(of: Ty)
    | LRef(to: Ty)
    | RRef(to: Ty)
    | Pointer(to: Ty)
    | Array(elem: Ty)                     // T[N]; cv written outside applies to the elements
    | Function(ret: Ty, params: seq<Ty>)

  /** Types the language can form: a reference is never qualified, referred
      to, pointed to or an array element; an array holds objects; a function
      returns neither an array nor a function. */
  predicate WellFormed(t: Ty) {
    match t
    case ErrorCodeT => true
    case Named(_) => true
    case Const(u) => !IsRef(u) && WellFormed(u)
    case Volatile(u) => !IsRef(u) && WellFormed(u)
    case LRef(u) => !IsRef(u) && WellFormed(u)
    case RRef(u) => !IsRef(u) && WellFormed(u)
    case Pointer(u) => !IsRef(u) && WellFormed(u)
    case Array(e) => !IsRef(e) && !e.Function? && WellFormed(e)
    case Function(r, ps) =>
      && !r.Array? && !r.Function? && WellFormed(r)
      && forall i :: 0 <= i < |ps| ==> WellFormed(ps[i])
  }

  predicate IsRef(t: Ty) {
    t.LRef? || t.RRef?
  }

  predicate IsCv(t: Ty) {
    t.Const? || t.Volatile?
  }

  function RemoveRef(t: Ty): Ty {
    match t
    case LRef(u) => u
    case RRef(u) => u
    case _ => t
  }

  /** Strips every top-level `const` and `volatile`. */
  function RemoveCv(t: Ty): (r: Ty)
    ensures !IsCv(r)
    ensures WellFormed(t) && !IsRef(t) ==> !IsRef(r) && WellFormed(r)
  {
    match t
    case Const(u) => RemoveCv(u)
    case Volatile(u) => RemoveCv(u)
    case _ => t
  }

  /** Puts the top-level qualifiers of `q` around `e`: the element type of a
      cv-qualified array is that cv-qualified element. */
  function Requalify(q: Ty, e: Ty): Ty {
    match q
    case Const(u) => Const(Requalify(u, e))
    case Volatile(u) => Volatile(Requalify(u, e))
    case _ => e
  }

  /** `std::decay`: drop a reference, then turn an array into a pointer to its
      element and a function into a pointer to it, and otherwise drop the
      top-level qualifiers. */
  function Decay(t: Ty): (d: Ty)
    ensures WellFormed(t) ==> !IsRef(d) && !IsCv(d) && !d.Array? && !d.Function?
  {
    var u := RemoveRef(t);
    var c := RemoveCv(u);
    if c.Array? then Pointer(Requalify(u, c.elem))
    else if c.Function? then Pointer(c)
    else c
  }

  /** Decaying is idempotent. */
  lemma DecayIdempotent(t: Ty)
    requires WellFormed(t)
    ensures Decay(Decay(t)) == Decay(t)
  {
  }

  /** For an object type that is neither an array nor a function, decay
      removes exactly the reference and the qualifiers written around it. */
  lemma DecayOfQualifiedReference(x: Ty, constant: bool, rvalue: bool)
    requires !IsRef(x) && !IsCv(x) && !x.Array? && !x.Function?
    ensures var q := if constant then Const(x) else x;
      Decay(if rvalue then RRef(q) else LRef(q)) == x && Decay(q) == x
  {
    var q := if constant then Const(x) else x;
    assert RemoveCv(q) == x;
  }

  /** How a parameter type enters a function type: a reference is kept as
      written, anything else loses its top-level qualifiers and an array or a
      function becomes a pointer. */
  function Adjust(t: Ty): (a: Ty)
    ensures IsRef(t) ==> a == t
    ensures !IsRef(t) ==> a == Decay(t)
    ensures WellFormed(t) && !IsRef(t) ==> !IsCv(a) && !a.Array? && !a.Function?
    ensures WellFormed(t) && !IsRef(t) ==> Decay(a) == a
  {
    if IsRef(t) then t else Decay(t)
  }

  /** A completion signature `R(Params...)`, with its parameters adjusted as
      the language does when it forms the function type. */
  datatype Signature = Signature(ret: Ty, params: seq<Ty>)

  function MakeSignature(ret: Ty, params: seq<Ty>): (s: Signature)
    ensures s.ret == ret && |s.params| == |params|
    ensures forall i :: 0 <= i < |params| ==> s.params[i] == Adjust(params[i])
    ensures forall i :: 0 <= i < |params| && WellFormed(params[i]) ==>
      Adjust(s.params[i]) == s.params[i] && Decay(s.params[i]) == Decay(params[i])
  {
    Signature(ret, seq(|params|, i requires 0 <= i < |params| => Adjust(params[i])))
  }

  /** The four partial specialisations of `async_result<basic_yield_context<H>, Sig>`. */
  datatype Specialisation =
    | NoArgs       // R()
    | OneArg       // R(Arg1)
    | ErrorOnly    // R(error_code)
    | ErrorAndArg  // R(error_code, Arg2)

  /** Whether a specialisation's pattern matches the signature. */
  predicate Matches(spec: Specialisation, sig: Signature) {
    match spec
    case NoArgs => |sig.params| == 0
    case OneArg => |sig.params| == 1
    case ErrorOnly => |sig.params| == 1 && sig.params[0] == ErrorCodeT
    case ErrorAndArg => |sig.params| == 2 && sig.params[0] == ErrorCodeT
  }

  /** Partial ordering of the specialisations: `R(error_code)` is more
      specialised than `R(Arg1)`; no other pair matches a common signature. */
  predicate MoreSpecialised(a: Specialisation, b: Specialisation) {
    a == ErrorOnly && b == OneArg
  }

  /** The specialisation the compiler picks, or `None` when none matches and
      the primary template (no rendezvous) applies. */
  function Select(sig: Signature): Option<Specialisation> {
    if |sig.params| == 0 then Some(NoArgs)
    else if |sig.params| == 1 then
      (if sig.params[0] == ErrorCodeT then Some(ErrorOnly) else Some(OneArg))
    else if |sig.params| == 2 && sig.params[0] == ErrorCodeT then Some(ErrorAndArg)
    else None
  }

  /** The selection is the partial-ordering winner: it matches and is more
      specialised than every other matching specialisation, and it is absent
      exactly when nothing matches. */
  lemma SelectIsMostSpecialised(sig: Signature)
    ensures Select(sig).Some? ==> Matches(Select(sig).value, sig)
    ensures Select(sig).Some? ==> forall s :: Matches(s, sig) && s != Select(sig).value ==>
      MoreSpecialised(Select(sig).value, s)
    ensures Select(sig).None? <==> forall s :: !Matches(s, sig)
  {
    if Select(sig).Some? {
      assert Matches(Select(sig).value, sig);
    } else {
      forall s ensures !Matches(s, sig) {
        match s
        case NoArgs =>
        case OneArg =>
        case ErrorOnly =>
        case ErrorAndArg =>
      }
    }
  }

  /** What a selected specialisation binds: the value type of the
      `coro_async_result` it derives from (`None` for `void`) and whether the
      completion is invoked with an error code first. */
  datatype Binding = Binding(valueType: Option<Ty>, errorChannel: bool)

  function Bind(sig: Signature): (b: Option<Binding>)
    ensures b.Some? <==> Select(sig).Some?
  {
    match Select(sig)
    case None => None
    case Some(NoArgs) => Some(Binding(None, false))
    case Some(OneArg) => Some(Binding(Some(Decay(sig.params[0])), false))
    case Some(ErrorOnly) => Some(Binding(None, true))
    case Some(ErrorAndArg) => Some(Binding(Some(Decay(sig.params[1])), true))
  }

  function ShapeOf(b: Binding): Rendezvous.Shape {
    if b.valueType.Some? then Rendezvous.ValueResult else Rendezvous.VoidResult
  }

  /** Decay after adjustment is decay. */
  lemma DecayAfterAdjust(t: Ty)
    requires WellFormed(t)
    ensures Decay(Adjust(t)) == Decay(t)
  {
    if !IsRef(t) {
      DecayIdempotent(t);
    }
  }

  /** The signature mapping: `R()` and `R(error_code)` give a `void`
      rendezvous, `R(Arg1)` and `R(error_code, Arg2)` one whose value type is
      the decayed argument; only the error-code-first forms have an error
      channel. */
  lemma SignatureMapping(ret: Ty, arg1: Ty, arg2: Ty)
    requires WellFormed(arg1) && WellFormed(arg2)
    requires Adjust(arg1) != ErrorCodeT
    ensures Bind(MakeSignature(ret, [])) == Some(Binding(None, false))
    ensures Bind(MakeSignature(ret, [ErrorCodeT])) == Some(Binding(None, true))
    ensures Bind(MakeSignature(ret, [arg1])) == Some(Binding(Some(Decay(arg1)), false))
    ensures Bind(MakeSignature(ret, [ErrorCodeT, arg2])) == Some(Binding(Some(Decay(arg2)), true))
    ensures Bind(MakeSignature(ret, [arg1, arg2, arg1])).None?
  {
    DecayAfterAdjust(arg1);
    DecayAfterAdjust(arg2);
    assert MakeSignature(ret, [ErrorCodeT]).params[0] == ErrorCodeT;
    assert MakeSignature(ret, [arg1]).params[0] == Adjust(arg1);
    assert MakeSignature(ret, [ErrorCodeT, arg2]).params[0] == ErrorCodeT;
    assert MakeSignature(ret, [ErrorCodeT, arg2]).params[1] == Adjust(arg2);
  }

  /** Only the exact type `error_code` selects an error channel. A parameter
      declared `const error_code` is adjusted to `error_code` and does, but
      `const error_code&` matches `R(Arg1)`: the code is then delivered as the
      value and never thrown. */
  lemma ErrorCodeSpellings(ret: Ty)
    ensures Bind(MakeSignature(ret, [Const(ErrorCodeT)])) == Some(Binding(None, true))
    ensures Bind(MakeSignature(ret, [LRef(Const(ErrorCodeT))])) == Some(Binding(Some(ErrorCodeT), false))
  {
    assert MakeSignature(ret, [Const(ErrorCodeT)]).params[0] == ErrorCodeT;
    assert MakeSignature(ret, [LRef(Const(ErrorCodeT))]).params[0] == LRef(Const(ErrorCodeT));
  }

  /** How the operation invokes the handler for a binding: with the error
      code first when there is an error channel, with the value when there is
      a value type. */
  function InvocationFor<T>(b: Binding, ec: ErrorCode, v: T): Rendezvous.Invocation<T> {
    Rendezvous.Invocation(if b.errorChannel then Some(ec) else None,
                          if b.valueType.Some? then Some(v) else None)
  }

  /** Every invocation the operation can make is one the rendezvous of the
      selected shape accepts, and it stores the supplied code exactly when
      the signature has an error channel, a success code otherwise. */
  lemma InvocationFitsShape<T>(sig: Signature, ec: ErrorCode, v: T)
    requires Bind(sig).Some?
    ensures Rendezvous.Fits(ShapeOf(Bind(sig).value), InvocationFor(Bind(sig).value, ec, v))
    ensures var stored := Rendezvous.StoredError(InvocationFor(Bind(sig).value, ec, v));
      if Bind(sig).value.errorChannel then stored == ec else !Failed(stored)
    ensures (ShapeOf(Bind(sig).value) == Rendezvous.ValueResult) <==>
      (Select(sig) == Some(OneArg) || Select(sig) == Some(ErrorAndArg))
  {
  }
}
