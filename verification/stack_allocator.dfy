/** `is_stack_allocator<T>`: a structural check that `T` is a class with
    members named `allocate` and `deallocate` and a nested type `traits_type`.

    The member checks work by ambiguity. `stack_allocator_memfns_derived<T>`
    derives from both `T` and `stack_allocator_memfns_base`, which declares
    `allocate` and `deallocate`. Naming `&derived<T>::allocate` is well formed
    only when lookup finds the name in the base alone, that is when `T` has no
    member of that name; then the helper overload returning `char` (size 1) is
    viable and beats the ellipsis overload returning `char(&)[2]` (size 2).
    So a probe size other than 1 means `T` has the member. */
module StackAllocatorTrait {
  import opened Options

  /** What the probes can observe about a type. */
  datatype TypeFacts = TypeFacts(
    isClass: bool,
    hasAllocate: bool,     // a member named `allocate`, of any kind, declared or inherited
    hasDeallocate: bool,   // likewise for `deallocate`
    hasTraitsType: bool)   // `T::traits_type` names a type

  datatype MemberName = Allocate | Deallocate

  /** The two bases of `stack_allocator_memfns_derived<T>`. */
  datatype Base = UserType | MemfnsBase

  function HasMember(t: TypeFacts, name: MemberName): bool {
    match name
    case Allocate => t.hasAllocate
    case Deallocate => t.hasDeallocate
  }

  /** Member name lookup in `stack_allocator_memfns_derived<T>`: the class
      declares nothing itself, so the result merges what each base declares.
      Lookup is ambiguous when more than one base contributes. */
  function LookupInDerived(t: TypeFacts, name: MemberName): set<Base> {
    (if HasMember(t, name) then {UserType} else {}) + {MemfnsBase}
  }

  /** Whether `&stack_allocator_memfns_derived<T>::name` is a well-formed
      argument of `stack_allocator_memfns_check<void (base::*)(), ...>`: the
      lookup must be unambiguous, and it then finds the base's member, whose
      type is exactly the required pointer to member. */
  predicate MemberPointerWellFormed(t: TypeFacts, name: MemberName) {
    LookupInDerived(t, name) == {MemfnsBase}
  }

  /** `sizeof` of the result of calling a helper with `0`: the specific
      overload (returning `char`) wins whenever it is viable, because an
      ellipsis conversion ranks below every standard conversion; otherwise the
      ellipsis overload (returning `char(&)[2]`) is chosen. */
  function HelperSize(specificViable: bool): nat {
    if specificViable then 1 else 2
  }

  /** `sizeof(allocate_memfn_helper<T>(0))` and its `deallocate` twin, or
      `None` for a non-class type, for which deriving from `T` is ill formed
      (a hard error, not a substitution failure). */
  function MemberProbe(t: TypeFacts, name: MemberName): (n: Option<nat>)
    ensures n.Some? <==> t.isClass
    ensures n.Some? ==> (n.value != 1 <==> HasMember(t, name))
  {
    if !t.isClass then None
    else Some(HelperSize(MemberPointerWellFormed(t, name)))
  }

  /** `sizeof(traits_type_typedef_helper<T>(0))`: the specific overload takes
      `typename T::traits_type*`, viable exactly when that names a type. */
  function TraitsProbe(t: TypeFacts): (n: nat)
    ensures n == 1 <==> t.hasTraitsType
  {
    HelperSize(t.hasTraitsType)
  }

  /** `is_stack_allocator_class<T>`: only instantiated for class types. */
  predicate IsStackAllocatorClass(t: TypeFacts)
    requires t.isClass
  {
    && MemberProbe(t, Allocate).value != 1
    && MemberProbe(t, Deallocate).value != 1
    && TraitsProbe(t) == 1
  }

  /** `is_stack_allocator<T>`: `conditional` selects the class check only for
      class types, so the class probes are never instantiated otherwise. */
  predicate IsStackAllocator(t: TypeFacts) {
    t.isClass && IsStackAllocatorClass(t)
  }

  /** The capability the trait is meant to detect, stated directly. */
  predicate HasStackAllocatorInterface(t: TypeFacts) {
    t.isClass && t.hasAllocate && t.hasDeallocate && t.hasTraitsType
  }

  /** The ambiguity probe detects a member exactly when the type has one. */
  lemma ProbeDetectsMember(t: TypeFacts, name: MemberName)
    requires t.isClass
    ensures MemberPointerWellFormed(t, name) <==> !HasMember(t, name)
    ensures MemberProbe(t, name) == Some(if HasMember(t, name) then 2 else 1)
  {
    if HasMember(t, name) {
      assert UserType in LookupInDerived(t, name);
    }
  }

  /** The trait holds exactly for class types with all three members; a
      non-class type is never a stack allocator. */
  lemma IsStackAllocatorIffInterface(t: TypeFacts)
    ensures IsStackAllocator(t) <==> HasStackAllocatorInterface(t)
    ensures !t.isClass ==> !IsStackAllocator(t)
  {
    if t.isClass {
      ProbeDetectsMember(t, Allocate);
      ProbeDetectsMember(t, Deallocate);
    }
  }

  /** `boost::context::default_stack`. */
  const DefaultStackFacts: TypeFacts := TypeFacts(true, true, true, true)

  /** An ordinary class with none of the three members: a function object,
      a handler, or `boost::coroutines::attributes`, which the trait cannot
      tell apart. */
  const PlainClassFacts: TypeFacts := TypeFacts(true, false, false, false)

  /** The default stack qualifies; coroutine attributes, a class without
      `traits_type` and a non-class type do not. */
  lemma KnownTypes()
    ensures IsStackAllocator(DefaultStackFacts)
    ensures !IsStackAllocator(PlainClassFacts)
    ensures !IsStackAllocator(TypeFacts(true, true, true, false))
    ensures !IsStackAllocator(TypeFacts(false, true, true, true))
  {
    IsStackAllocatorIffInterface(DefaultStackFacts);
    IsStackAllocatorIffInterface(PlainClassFacts);
    IsStackAllocatorIffInterface(TypeFacts(true, true, true, false));
  }
}
