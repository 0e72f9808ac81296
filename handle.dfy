/** Handles and the isolate they belong to (`handle.rs`).  A handle reports
    its raw data pointer together with a `HostIsolate`: a local handle only
    knows that it lives in "the isolate of the current scope", a global one
    carries the isolate it was made in, which reads as disposed once that
    isolate is gone.  `Local::new`, `Global::get` and handle equality use the
    host isolate to refuse mixing handles of different isolates. */
module Handles {
  import opened Outcomes
  import opened ScopeChain

  /** A pointer that the type system keeps non-null (`NonNull<T>`, `&T`). */
  type NonNull = p: Ptr | p != NULL witness 1

  datatype HostIsolate = Scope | IsolatePtr(p: Ptr) | Disposed

  /** The panics of this module, and the scope-stack panics reached through
      `cast_local`. */
  datatype HandleFault =
    | ScopeFault(fault: Fault)
      /** A failed `assert!` that two handles share an isolate. */
    | IsolateMismatch
      /** "host Isolate for Handle not available". */
    | HostIsolateUnavailable
      /** The `unwrap` of a null handle returned by the engine. */
    | NoHandle

  /** `HostIsolate::new`: the isolate passed by reference. */
  function NewHost(isolate: NonNull): (h: HostIsolate)
    ensures h.IsolatePtr? && h.p == isolate
  {
    IsolatePtr(isolate)
  }

  /** `apply_scope`: an isolate-relative host becomes the given isolate;
      any other host is kept. */
  function ApplyScope(h: HostIsolate, scope: NonNull): (r: HostIsolate)
    ensures !r.Scope?
    ensures h.Scope? ==> r == IsolatePtr(scope)
    ensures !h.Scope? ==> r == h
  {
    match h
    case Scope => IsolatePtr(scope)
    case _ => h
  }

  /** `match_isolate`.  Two isolate-relative hosts, or one of them and a
      known isolate, are accepted (the source cannot yet tell which isolate
      the current scope belongs to); two known isolates must be the same;
      a disposed host matches nothing. */
  function MatchIsolate(a: HostIsolate, b: HostIsolate): bool {
    match (a, b)
    case (Scope, Scope) => true
    case (IsolatePtr(p1), IsolatePtr(p2)) => p1 == p2
    case (Disposed, _) => false
    case (_, Disposed) => false
    case _ => true
  }

  /** `get_isolate_ptr`: only a known, non-null isolate has a pointer. */
  function GetIsolatePtr(h: HostIsolate): (r: Outcome<NonNull, HandleFault>)
    ensures r.Ok? <==> h.IsolatePtr? && h.p != NULL
    ensures r.Ok? ==> r.value == h.p
    ensures r.Panic? ==> r.fault == HostIsolateUnavailable
  {
    match h
    case IsolatePtr(p) => if p != NULL then Ok(p) else Panic(HostIsolateUnavailable)
    case _ => Panic(HostIsolateUnavailable)
  }

  /** An `IsolateHandle` reports the isolate's pointer while the isolate is
      alive and `NULL` once it has been disposed. */
  datatype IsolateHandle = IsolateHandle(isolate: Ptr)

  /** `get_isolate_handle`: the thread-safe handle of the host's isolate. */
  function GetIsolateHandle(h: HostIsolate): (r: Outcome<IsolateHandle, HandleFault>)
    ensures r.Ok? <==> GetIsolatePtr(h).Ok?
    ensures r.Ok? ==> r.value.isolate == h.p && r.value.isolate != NULL
  {
    match GetIsolatePtr(h)
    case Ok(p) => Ok(IsolateHandle(p))
    case Panic(f) => Panic(f)
  }

  /** A `Local` is its non-null data pointer; `home` is the raw handle scope
      it was allocated in, which bounds how long it may be used. */
  datatype Local = Local(data: NonNull, home: HandleHome)

  /** A `Global` is its storage cell and the handle of its isolate. */
  datatype Global = Global(data: NonNull, isolateHandle: IsolateHandle)

  /** Anything implementing `Handle`: a local or a global, by value or by
      reference (the two behave alike). */
  datatype Handle = LocalRef(local: Local) | GlobalRef(global: Global)

  datatype RawInfo = RawInfo(data: Ptr, host: HostIsolate)

  /** `Handle::get_raw_info`. */
  function GetRawInfo(h: Handle): (r: RawInfo)
    ensures h.LocalRef? ==> r.host == Scope && r.data == h.local.data
    ensures h.GlobalRef? ==> !r.host.Scope?
    ensures r.host.Disposed? <==> h.GlobalRef? && h.global.isolateHandle.isolate == NULL
    ensures r.host.IsolatePtr? ==> r.host.p == h.global.isolateHandle.isolate && r.data == h.global.data
    ensures r.host.Disposed? <==> r.data == NULL
  {
    match h
    case LocalRef(l) => RawInfo(l.data, Scope)
    case GlobalRef(g) =>
      var p := g.isolateHandle.isolate;
      if p == NULL then RawInfo(NULL, Disposed) else RawInfo(g.data, IsolatePtr(p))
  }

  /** Whether a handle may be used in `isolate`: locals always (their
      isolate is that of the scope), globals only in the isolate they were
      made in, and never once that isolate is disposed. */
  predicate UsableIn(h: Handle, isolate: NonNull) {
    h.LocalRef? || h.global.isolateHandle.isolate == isolate
  }

  /** The result of `Local::new`: the scope stack after `cast_local` and the
      raw calls it made, with the new local or the panic. */
  datatype NewLocal = NewLocal(chain: Chain, events: seq<RawEvent>, outcome: Outcome<Local, HandleFault>)

  /** `Local::new` in the scope whose record is at depth `d` of `c`, in
      `isolate`.  `created` is the address the engine returns for the new
      local (`NULL` if it returned none).  Converting the scope to its
      isolate already touches it (`get_mut`), so a scope that cannot be
      made current panics before the isolates are compared. */
  function LocalNew(c: Chain, d: nat, isolate: NonNull, h: Handle, created: Ptr): (r: NewLocal)
    requires Touchable(c, d)
    ensures r.outcome == Panic(ScopeFault(ActiveScopeDropped)) <==> !Activatable(c, d)
    ensures r.outcome == Panic(IsolateMismatch) <==> Activatable(c, d) && !UsableIn(h, isolate)
    ensures r.outcome.Ok? <==> UsableIn(h, isolate) && Activatable(c, d) && created != NULL
    ensures r.outcome.Ok? ==>
              r.outcome.value.data == created && r.chain.top == d
              && r.outcome.value.home == InnermostHandleScope(c.frames, d)
              && LocalAlive(r.chain, r.outcome.value.home)
    ensures r.chain == TryActivateScope(c, d).chain && r.events == TryActivateScope(c, d).events
    ensures Wf(r.chain) && Replay(OpenScopes(c), r.events) == Some(OpenScopes(r.chain))
  {
    var t := TryActivateScope(c, d);
    if t.outcome.Panic? then NewLocal(t.chain, t.events, Panic(ScopeFault(t.outcome.fault)))
    else
      var info := GetRawInfo(h);
      if !MatchIsolate(NewHost(isolate), ApplyScope(info.host, isolate)) then
        NewLocal(t.chain, t.events, Panic(IsolateMismatch))
      else
        CastLocalTouched(c, d);
        var cl := CastLocal(t.chain, d);
        assert t.events + cl.events == t.events;
        if created == NULL then NewLocal(cl.chain, t.events + cl.events, Panic(NoHandle))
        else NewLocal(cl.chain, t.events + cl.events, Ok(Local(created, cl.outcome.value)))
  }

  /** `Global::new` in `isolate`, with `cell` the storage cell the engine
      creates.  The handle's own isolate wins over `isolate`: there is no
      check that the two agree. */
  function GlobalNew(isolate: NonNull, h: Handle, cell: NonNull): (r: Outcome<Global, HandleFault>)
    ensures r.Ok? <==> !(h.GlobalRef? && h.global.isolateHandle.isolate == NULL)
    ensures r.Panic? ==> r.fault == HostIsolateUnavailable
    ensures r.Ok? ==> r.value.data == cell
    ensures r.Ok? && h.LocalRef? ==> r.value.isolateHandle.isolate == isolate
    ensures r.Ok? && h.GlobalRef? ==> r.value.isolateHandle == h.global.isolateHandle
  {
    var info := GetRawInfo(h);
    var host := ApplyScope(info.host, isolate);
    match GetIsolateHandle(host)
    case Panic(f) => Panic(f)
    case Ok(ih) => Ok(Global(cell, ih))
  }

  /** `Global::get` in `isolate`: the data, if the global belongs to it. */
  function GlobalGet(g: Global, isolate: NonNull): (r: Outcome<NonNull, HandleFault>)
    ensures r.Ok? <==> g.isolateHandle.isolate == isolate
    ensures r.Ok? ==> r.value == g.data
    ensures r.Panic? ==> r.fault == IsolateMismatch
  {
    var info := GetRawInfo(GlobalRef(g));
    if MatchIsolate(info.host, NewHost(isolate)) then Ok(g.data) else Panic(IsolateMismatch)
  }

  /** `Global::clone`, with `cell` the new storage cell. */
  function GlobalClone(g: Global, cell: NonNull): (r: Outcome<Global, HandleFault>)
    ensures r.Ok? <==> g.isolateHandle.isolate != NULL
    ensures r.Panic? ==> r.fault == HostIsolateUnavailable
    ensures r.Ok? ==> r.value == Global(cell, g.isolateHandle)
  {
    var info := GetRawInfo(GlobalRef(g));
    match GetIsolateHandle(info.host)
    case Panic(f) => Panic(f)
    case Ok(ih) => Ok(Global(cell, ih))
  }

  /** `Global::drop`: the storage cell that is reset, if any. */
  function GlobalDrop(g: Global): (r: Option<NonNull>)
    ensures r.Some? <==> g.isolateHandle.isolate != NULL
    ensures r.Some? ==> r.value == g.data
  {
    if g.isolateHandle.isolate == NULL then None else Some(g.data)
  }

  /** `PartialEq` for handles, with `valueEq` the `PartialEq` of the values
      the two data pointers lead to.  The values are only compared when the
      isolates match, so neither pointer is null then. */
  function HandlesEqual(a: Handle, b: Handle, valueEq: (NonNull, NonNull) -> bool): (r: bool)
    ensures r ==> MatchIsolate(GetRawInfo(a).host, GetRawInfo(b).host)
    ensures r ==> GetRawInfo(a).data != NULL && GetRawInfo(b).data != NULL
    ensures r ==> valueEq(GetRawInfo(a).data, GetRawInfo(b).data)
  {
    var i1 := GetRawInfo(a);
    var i2 := GetRawInfo(b);
    MatchIsolate(i1.host, i2.host) && valueEq(i1.data, i2.data)
  }

  // ---------------------------------------------------------------------
  // Properties

  /** The truth table of `match_isolate`, stated without case analysis:
      a pair matches when neither side is disposed and two known isolates
      agree. */
  lemma MatchIsolateTable(a: HostIsolate, b: HostIsolate)
    ensures MatchIsolate(a, b) <==>
              !a.Disposed? && !b.Disposed? && (a.IsolatePtr? && b.IsolatePtr? ==> a.p == b.p)
  {
  }

  lemma MatchIsolateSymmetric(a: HostIsolate, b: HostIsolate)
    ensures MatchIsolate(a, b) == MatchIsolate(b, a)
  {
  }

  /** A disposed host matches nothing, not even another disposed host;
      every other host matches itself. */
  lemma MatchIsolateReflexive(a: HostIsolate)
    ensures MatchIsolate(a, a) <==> !a.Disposed?
  {
  }

  /** `apply_scope` is idempotent, and once applied a second scope has no
      effect. */
  lemma ApplyScopeIdempotent(h: HostIsolate, s1: NonNull, s2: NonNull)
    ensures ApplyScope(ApplyScope(h, s1), s2) == ApplyScope(h, s1)
  {
  }

  /** After `apply_scope` a host has a pointer exactly when it is not
      disposed. */
  lemma ApplyScopeGivesPointer(h: HostIsolate, scope: NonNull)
    requires h != IsolatePtr(NULL)
    ensures GetIsolatePtr(ApplyScope(h, scope)).Ok? <==> !h.Disposed?
  {
  }

  /** The isolate check of `Local::new` accepts a handle exactly when it is
      usable in the scope's isolate. */
  lemma LocalNewCheck(isolate: NonNull, h: Handle)
    ensures MatchIsolate(NewHost(isolate), ApplyScope(GetRawInfo(h).host, isolate)) <==> UsableIn(h, isolate)
  {
  }

  /** A global of a disposed isolate equals no handle, itself included. */
  lemma DisposedGlobalEqualsNothing(g: Global, other: Handle, valueEq: (NonNull, NonNull) -> bool)
    requires g.isolateHandle.isolate == NULL
    ensures !HandlesEqual(GlobalRef(g), other, valueEq)
    ensures !HandlesEqual(other, GlobalRef(g), valueEq)
  {
  }

  /** Handles of live isolates are equal exactly when their isolates are
      compatible and their values are equal. */
  lemma HandlesEqualLive(a: Handle, b: Handle, valueEq: (NonNull, NonNull) -> bool)
    requires a.GlobalRef? ==> a.global.isolateHandle.isolate != NULL
    requires b.GlobalRef? ==> b.global.isolateHandle.isolate != NULL
    ensures HandlesEqual(a, b, valueEq) <==>
              (a.GlobalRef? && b.GlobalRef? ==> a.global.isolateHandle == b.global.isolateHandle)
              && valueEq(GetRawInfo(a).data, GetRawInfo(b).data)
  {
  }

  /** A global made from a handle can be read back in the isolate the handle
      belongs to, and dropping it resets its cell. */
  lemma GlobalRoundTrip(isolate: NonNull, h: Handle, cell: NonNull)
    requires UsableIn(h, isolate)
    ensures GlobalNew(isolate, h, cell).Ok?
    ensures GlobalGet(GlobalNew(isolate, h, cell).value, isolate) == Ok(cell)
    ensures GlobalDrop(GlobalNew(isolate, h, cell).value) == Some(cell)
  {
  }
}
