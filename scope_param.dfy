/** The composition rules of the `param` module of `src/scope.rs`.

    In the source these are trait implementations: for a parent scope type `P`
    and a requested scope kind (`ContextScope::new`, `HandleScope::new`,
    `EscapableHandleScope::new`, `TryCatch::new`), an associated type
    `NewScope` names the merged type of the scope that `new` returns.  Here the
    scope types are values of `ScopeType`, a lifetime is a label, and the trait
    table is the function `NewScope`; a kind that has no implementation for a
    parent type yields `None` (a compile error in the source). */
module ScopeParam {
  import opened Outcomes

  /** A label standing for a Rust lifetime such as `'s` or `'e`. */
  type Lifetime = nat

  /** `hasContext` is the `C` parameter: `true` for `Context`, `false` for `()`. */
  datatype ScopeType =
    | IsolateType                                                   // &mut Isolate, &mut OwnedIsolate
    | HandleScopeType(s: Lifetime, hasContext: bool)                 // HandleScope<'s, C>
    | EscapableHandleScopeType(s: Lifetime, e: Lifetime, hasContext: bool) // EscapableHandleScope<'s, 'e, C>
    | ContextScopeType(s: Lifetime, inner: ScopeType)                // ContextScope<'s, P>
    | TryCatchType(s: Lifetime, inner: ScopeType)                    // TryCatch<'s, P>
    | CallbackScopeType(s: Lifetime)                                 // CallbackScope<'s>

  datatype NewScopeKind = NewContextScope | NewHandleScope | NewEscapableHandleScope | NewTryCatch

  /** What a scope of a given type lets its holder do. */
  datatype Capability = CreateHandles | UseContext | EscapeValue | InspectException

  /** The scope types a program can obtain: a `ContextScope` always wraps a
      handle scope that has a context, and a `TryCatch` wraps a handle scope. */
  predicate WellFormed(t: ScopeType) {
    match t
    case ContextScopeType(_, p) =>
      (p.HandleScopeType? || p.EscapableHandleScopeType?) && p.hasContext
    case TryCatchType(_, p) =>
      p.HandleScopeType? || p.EscapableHandleScopeType?
    case _ => true
  }

  /** The `param` trait table: the type of the scope that `kind::new(param)`
      returns, where `s` is the lifetime of the new scope. */
  function NewScope(param: ScopeType, kind: NewScopeKind, s: Lifetime): (r: Option<ScopeType>)
    ensures kind == NewHandleScope ==>
              r.Some? && (r.value.HandleScopeType? || r.value.EscapableHandleScopeType?)
    ensures r.Some? && kind == NewEscapableHandleScope ==> r.value.EscapableHandleScopeType?
    ensures r.Some? ==> (r.value.ContextScopeType? <==> kind == NewContextScope)
  {
    match param
    case IsolateType =>
      if kind == NewHandleScope then Some(HandleScopeType(s, false)) else None
    case ContextScopeType(_, inner) =>
      if kind == NewContextScope then Some(ContextScopeType(s, inner))
      else NewScope(inner, kind, s)
    case HandleScopeType(p, c) =>
      (match kind
       case NewContextScope => Some(ContextScopeType(s, HandleScopeType(p, true)))
       case NewHandleScope => Some(HandleScopeType(s, c))
       case NewEscapableHandleScope => Some(EscapableHandleScopeType(s, p, c))
       case NewTryCatch => Some(TryCatchType(s, param)))
    case EscapableHandleScopeType(p, e, c) =>
      (match kind
       case NewContextScope => Some(ContextScopeType(s, EscapableHandleScopeType(p, e, true)))
       case NewHandleScope => Some(EscapableHandleScopeType(s, e, c))
       case NewEscapableHandleScope => Some(EscapableHandleScopeType(s, p, c))
       case NewTryCatch => Some(TryCatchType(s, param)))
    case TryCatchType(_, inner) =>
      if kind == NewTryCatch then Some(TryCatchType(s, inner))
      else NewScope(inner, kind, s)
    case CallbackScopeType(p) =>
      match kind
      case NewContextScope => Some(ContextScopeType(s, HandleScopeType(p, true)))
      case NewHandleScope => Some(HandleScopeType(s, true))
      case NewEscapableHandleScope => Some(EscapableHandleScopeType(s, p, true))
      case NewTryCatch => Some(TryCatchType(s, HandleScopeType(p, true)))
  }

  /** The lifetime of the local handles created through a scope of type `t`:
      the handle scope that `t` dereferences to. */
  function HandleLifetime(t: ScopeType): Option<Lifetime> {
    match t
    case IsolateType => None
    case HandleScopeType(s, _) => Some(s)
    case EscapableHandleScopeType(s, _, _) => Some(s)
    case ContextScopeType(_, inner) => HandleLifetime(inner)
    case TryCatchType(_, inner) => HandleLifetime(inner)
    case CallbackScopeType(s) => Some(s)
  }

  /** The lifetime `'e` that `escape()` hands a value to, if `t` can escape. */
  function EscapeTarget(t: ScopeType): Option<Lifetime> {
    match t
    case EscapableHandleScopeType(_, e, _) => Some(e)
    case ContextScopeType(_, inner) => EscapeTarget(inner)
    case TryCatchType(_, inner) => EscapeTarget(inner)
    case _ => None
  }

  /** Whether a `Context` is available through a scope of type `t`. */
  predicate HasContext(t: ScopeType) {
    match t
    case IsolateType => false
    case HandleScopeType(_, c) => c
    case EscapableHandleScopeType(_, _, c) => c
    case ContextScopeType(_, _) => true
    case TryCatchType(_, inner) => HasContext(inner)
    case CallbackScopeType(_) => true
  }

  function Capabilities(t: ScopeType): set<Capability> {
    (if HandleLifetime(t).Some? then {CreateHandles} else {})
    + (if HasContext(t) then {UseContext} else {})
    + (if EscapeTarget(t).Some? then {EscapeValue} else {})
    + (if t.TryCatchType? then {InspectException} else {})
  }

  /** Every scope type accepts every kind of child; a bare isolate accepts
      only a `HandleScope`. */
  lemma NewScopeDefined(param: ScopeType, kind: NewScopeKind, s: Lifetime)
    requires WellFormed(param)
    ensures NewScope(param, kind, s).Some? <==> (param != IsolateType || kind == NewHandleScope)
    ensures NewScope(param, kind, s).Some? ==> WellFormed(NewScope(param, kind, s).value)
  {
  }

  /** A `ContextScope` wrapper is erased before a child scope is set up: the
      child is created as if its parent were the wrapped type. */
  lemma ContextScopeErased(x: Lifetime, inner: ScopeType, kind: NewScopeKind, s: Lifetime)
    requires WellFormed(ContextScopeType(x, inner))
    ensures NewScope(ContextScopeType(x, inner), kind, s) == NewScope(inner, kind, s)
  {
  }

  /** The same holds for a `TryCatch` wrapper. */
  lemma TryCatchErased(x: Lifetime, inner: ScopeType, kind: NewScopeKind, s: Lifetime)
    requires WellFormed(TryCatchType(x, inner))
    ensures NewScope(TryCatchType(x, inner), kind, s) == NewScope(inner, kind, s)
  {
  }

  /** The Context capability is never lost, and a `ContextScope` always adds it. */
  lemma ContextNeverLost(param: ScopeType, kind: NewScopeKind, s: Lifetime)
    requires WellFormed(param) && NewScope(param, kind, s).Some?
    ensures HasContext(param) ==> HasContext(NewScope(param, kind, s).value)
    ensures kind == NewContextScope ==> HasContext(NewScope(param, kind, s).value)
  {
  }

  /** A new handle scope receives the new lifetime; a `ContextScope` or
      `TryCatch` keeps allocating handles in the parent's handle scope. */
  lemma NewScopeHandleLifetime(param: ScopeType, kind: NewScopeKind, s: Lifetime)
    requires WellFormed(param) && NewScope(param, kind, s).Some?
    ensures kind in {NewHandleScope, NewEscapableHandleScope} ==>
              HandleLifetime(NewScope(param, kind, s).value) == Some(s)
    ensures kind in {NewContextScope, NewTryCatch} ==>
              HandleLifetime(NewScope(param, kind, s).value) == HandleLifetime(param)
  {
  }

  /** An escapable scope escapes to the handle lifetime of its parent; every
      other kind of child keeps the parent's escape target, so a handle scope
      created inside an escapable scope is escapable to the same target. */
  lemma NewScopeEscapeTarget(param: ScopeType, kind: NewScopeKind, s: Lifetime)
    requires WellFormed(param) && NewScope(param, kind, s).Some?
    ensures kind == NewEscapableHandleScope ==>
              EscapeTarget(NewScope(param, kind, s).value) == HandleLifetime(param)
    ensures kind != NewEscapableHandleScope ==>
              EscapeTarget(NewScope(param, kind, s).value) == EscapeTarget(param)
  {
  }

  /** The `TryCatch` accessors are available exactly on the scope that
      `TryCatch::new` returns; any other child hides them. */
  lemma NewScopeExceptionAccess(param: ScopeType, kind: NewScopeKind, s: Lifetime)
    requires WellFormed(param) && NewScope(param, kind, s).Some?
    ensures NewScope(param, kind, s).value.TryCatchType? <==> kind == NewTryCatch
  {
  }

  /** Capabilities only grow from parent to child, except that the exception
      accessors of a `TryCatch` parent are hidden in the child. */
  lemma CapabilitiesMonotone(param: ScopeType, kind: NewScopeKind, s: Lifetime)
    requires WellFormed(param) && NewScope(param, kind, s).Some?
    ensures Capabilities(param) - {InspectException} <= Capabilities(NewScope(param, kind, s).value)
    ensures CreateHandles in Capabilities(NewScope(param, kind, s).value)
  {
    var child := NewScope(param, kind, s).value;
    ContextNeverLost(param, kind, s);
    NewScopeHandleLifetime(param, kind, s);
    NewScopeEscapeTarget(param, kind, s);
  }

  /** One constructor call: the kind of scope requested and its lifetime. */
  datatype Step = Step(kind: NewScopeKind, s: Lifetime)

  /** The type obtained by nesting the constructors `steps` inside a scope of
      type `t`, or `None` if one of them does not apply. */
  function Build(t: ScopeType, steps: seq<Step>): Option<ScopeType>
    decreases |steps|
  {
    if steps == [] then Some(t)
    else
      match NewScope(t, steps[0].kind, steps[0].s)
      case None => None
      case Some(child) => Build(child, steps[1..])
  }

  /** No sequence of constructors yields a scope with fewer capabilities than
      its ancestor had, except for the exception accessors of a `TryCatch`. */
  lemma {:induction false} BuildKeepsCapabilities(t: ScopeType, steps: seq<Step>)
    requires WellFormed(t) && Build(t, steps).Some?
    ensures WellFormed(Build(t, steps).value)
    ensures Capabilities(t) - {InspectException} <= Capabilities(Build(t, steps).value)
    decreases |steps|
  {
    if steps != [] {
      var child := NewScope(t, steps[0].kind, steps[0].s).value;
      NewScopeDefined(t, steps[0].kind, steps[0].s);
      CapabilitiesMonotone(t, steps[0].kind, steps[0].s);
      BuildKeepsCapabilities(child, steps[1..]);
    }
  }

  /** The instances checked by the `new_scope_types` test, with the
      lifetimes `l0`, `l1`, ... numbered by nesting depth. */
  lemma NewScopeTypesInstances()
    ensures NewScope(IsolateType, NewHandleScope, 0) == Some(HandleScopeType(0, false))
    // l1_cs = ContextScope::new(l0_hs)
    ensures NewScope(HandleScopeType(0, false), NewContextScope, 1)
         == Some(ContextScopeType(1, HandleScopeType(0, true)))
    ensures NewScope(ContextScopeType(1, HandleScopeType(0, true)), NewContextScope, 2)
         == Some(ContextScopeType(2, HandleScopeType(0, true)))
    ensures NewScope(ContextScopeType(1, HandleScopeType(0, true)), NewHandleScope, 2)
         == Some(HandleScopeType(2, true))
    ensures NewScope(HandleScopeType(2, true), NewEscapableHandleScope, 3)
         == Some(EscapableHandleScopeType(3, 2, true))
    // l2_ehs = EscapableHandleScope::new(l1_cs)
    ensures NewScope(ContextScopeType(1, HandleScopeType(0, true)), NewEscapableHandleScope, 2)
         == Some(EscapableHandleScopeType(2, 0, true))
    ensures NewScope(EscapableHandleScopeType(2, 0, true), NewContextScope, 3)
         == Some(ContextScopeType(3, EscapableHandleScopeType(2, 0, true)))
    ensures NewScope(EscapableHandleScopeType(2, 0, true), NewHandleScope, 3)
         == Some(EscapableHandleScopeType(3, 0, true))
    ensures NewScope(EscapableHandleScopeType(2, 0, true), NewEscapableHandleScope, 3)
         == Some(EscapableHandleScopeType(3, 2, true))
    // l1_ehs = EscapableHandleScope::new(l0_hs)
    ensures NewScope(HandleScopeType(0, false), NewEscapableHandleScope, 1)
         == Some(EscapableHandleScopeType(1, 0, false))
    ensures NewScope(EscapableHandleScopeType(1, 0, false), NewContextScope, 2)
         == Some(ContextScopeType(2, EscapableHandleScopeType(1, 0, true)))
    ensures NewScope(ContextScopeType(2, EscapableHandleScopeType(1, 0, true)), NewContextScope, 3)
         == Some(ContextScopeType(3, EscapableHandleScopeType(1, 0, true)))
    ensures NewScope(ContextScopeType(2, EscapableHandleScopeType(1, 0, true)), NewHandleScope, 3)
         == Some(EscapableHandleScopeType(3, 0, true))
    ensures NewScope(ContextScopeType(2, EscapableHandleScopeType(1, 0, true)), NewEscapableHandleScope, 3)
         == Some(EscapableHandleScopeType(3, 1, true))
    ensures NewScope(EscapableHandleScopeType(1, 0, false), NewHandleScope, 2)
         == Some(EscapableHandleScopeType(2, 0, false))
    ensures NewScope(EscapableHandleScopeType(2, 0, false), NewContextScope, 3)
         == Some(ContextScopeType(3, EscapableHandleScopeType(2, 0, true)))
    ensures NewScope(EscapableHandleScopeType(1, 0, false), NewEscapableHandleScope, 2)
         == Some(EscapableHandleScopeType(2, 1, false))
    // l0_cbs = CallbackScope::new(context)
    ensures NewScope(CallbackScopeType(1), NewContextScope, 2)
         == Some(ContextScopeType(2, HandleScopeType(1, true)))
    ensures NewScope(CallbackScopeType(1), NewHandleScope, 2) == Some(HandleScopeType(2, true))
    ensures NewScope(CallbackScopeType(1), NewEscapableHandleScope, 2)
         == Some(EscapableHandleScopeType(2, 1, true))
  {
  }

  /** The exception accessors of a `TryCatch` are not inherited: a handle
      scope created inside it has fewer capabilities than its parent. */
  lemma TryCatchCapabilityHidden()
    ensures InspectException in Capabilities(TryCatchType(1, HandleScopeType(0, true)))
    ensures NewScope(TryCatchType(1, HandleScopeType(0, true)), NewHandleScope, 2)
         == Some(HandleScopeType(2, true))
    ensures InspectException !in Capabilities(HandleScopeType(2, true))
  {
  }
}
