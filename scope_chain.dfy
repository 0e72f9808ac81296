/** The scope stack of one isolate (`data::ScopeData` in `src/scope.rs`),
    stated as functions over values.

    The source links heap-allocated `ScopeData` records through `previous`
    and `next`.  A record's `next` is allocated once and never replaced, so
    the chain is laid out here as a sequence indexed by depth: the record at
    index `i` has `previous` at `i - 1` and `next` at `i + 1`, index 0 is the
    root.  `top` is the record the isolate's current-scope pointer designates;
    records above it are the free list.

    The raw V8 calls (enter/exit a context, construct/destruct a raw handle
    scope or try-catch, allocate an escape slot) are not modelled; each
    operation instead returns the sequence of those calls it makes, as
    `RawEvent`s.  A panic of the source is an `Outcome.Panic` together with
    the state the stack was left in when it happened. */
module ScopeChain {
  import opened Outcomes

  /** A raw address; `NULL` is the null pointer.  An `Option<NonNull<T>>`
      is represented by its address, `NULL` standing for `None`. */
  type Ptr = nat
  const NULL: Ptr := 0

  datatype ScopeStatus = Free | Current(zombie: bool) | Shadowed(zombie: bool)

  function Zombie(st: ScopeStatus): bool {
    match st
    case Free => false
    case Current(z) => z
    case Shadowed(z) => z
  }

  /** The raw handle scope a local handle is allocated in: the one the
      handle-scope record at `depth` constructed, the one V8 opened around
      the callback whose `CallbackScope` record is at `depth`, or one outside
      this stack altogether (below the root). */
  datatype HandleHome =
    | OuterHandleScope
    | FrameHandleScope(depth: nat)
    | CallbackHandleScope(depth: nat)

  /** `ScopeTypeSpecificData`.  An escapable frame holds its raw escape slot,
      which is an address inside the handle scope `home` it was allocated in;
      `None` once `escape()` has taken it. */
  datatype TypeSpecificData =
    | NoData
    | ContextScopeData(context: Ptr)
    | HandleScopeData
    | EscapableHandleScopeData(rawEscapeSlot: Option<HandleHome>)
    | TryCatchData

  predicate HasHandleScope(d: TypeSpecificData) {
    d.HandleScopeData? || d.EscapableHandleScopeData?
  }

  /** One `ScopeData` record.  `context` caches the current context (`NULL`
      when not cached), `escapeSlot` is the depth of the escapable frame whose
      slot this scope may fill, and `tryCatch` says whether the record's
      `try_catch` pointer has been set. */
  datatype ScopeData = ScopeData(
    status: ScopeStatus,
    context: Ptr,
    escapeSlot: Option<nat>,
    tryCatch: bool,
    specific: TypeSpecificData)

  /** A freshly allocated record (`ScopeData::boxed`). */
  const Boxed: ScopeData := ScopeData(Free, NULL, None, false, NoData)

  /** The raw V8 calls the scope stack makes. */
  datatype RawEvent =
    | ContextEnter(context: Ptr)
    | ContextExit(context: Ptr)
    | HandleScopeConstruct(depth: nat)
    | HandleScopeDestruct(depth: nat)
    | TryCatchConstruct(depth: nat)
    | TryCatchDestruct(depth: nat)
    | EscapeSlotNew(home: HandleHome)

  /** What `new_scope_data_with` is asked to set up: one per `new_*_data`. */
  datatype ScopeRequest =
    | ContextScopeRequest(context: Ptr)
    | HandleScopeRequest
    | EscapableHandleScopeRequest
    | TryCatchRequest
    | CallbackScopeRequest(context: Ptr)

  /** A `Local<Context>` is never null. */
  predicate RequestOk(req: ScopeRequest) {
    req.ContextScopeRequest? ==> req.context != NULL
  }

  /** The panics of the scope stack, named after their messages. */
  datatype Fault =
    | ActiveScopeDropped        // "active scope can't be dropped"
    | NoEscapeSlot              // "internal error: EscapableHandleScope has no escape slot"
    | EscapeCalledTwice         // "EscapableHandleScope::escape() called twice"
    | ContextIsolateMismatch    // "... and Context do not belong to the same Isolate"
    | NoContext                 // `unwrap()` of a null current context

  datatype Chain = Chain(frames: seq<ScopeData>, top: nat)

  /** The state after an operation, the raw calls it made, and its result. */
  datatype Run<T> = Run(chain: Chain, events: seq<RawEvent>, outcome: Outcome<T, Fault>)

  // ---------------------------------------------------------------------
  // Shape of the chain

  /** A `CallbackScope` record: one above the root that holds no data of
      its own.  V8 opened a handle scope around the callback before it. */
  predicate IsCallbackRecord(frames: seq<ScopeData>, k: nat)
    requires k < |frames|
  {
    0 < k && frames[k].specific == NoData
  }

  /** The innermost raw handle scope at or below depth `k`: that of the
      nearest handle-scope or callback record. */
  function InnermostHandleScope(frames: seq<ScopeData>, k: nat): (h: HandleHome)
    requires k < |frames|
    ensures h.FrameHandleScope? ==> h.depth <= k && HasHandleScope(frames[h.depth].specific)
    ensures h.CallbackHandleScope? ==> h.depth <= k && IsCallbackRecord(frames, h.depth)
    ensures h.OuterHandleScope? ==>
              forall i :: 0 <= i <= k ==> !HasHandleScope(frames[i].specific) && !IsCallbackRecord(frames, i)
    decreases k
  {
    if HasHandleScope(frames[k].specific) then FrameHandleScope(k)
    else if k == 0 then OuterHandleScope
    else if frames[k].specific == NoData then CallbackHandleScope(k)
    else InnermostHandleScope(frames, k - 1)
  }

  /** The escape-slot pointer of record `i` designates an escapable record at
      or below it (never the root). */
  predicate SlotLinked(frames: seq<ScopeData>, i: nat)
    requires i < |frames|
  {
    match frames[i].escapeSlot
    case None => true
    case Some(j) => 1 <= j <= i && frames[j].specific.EscapableHandleScopeData?
  }

  /** An untaken escape slot of record `j` lives in the innermost raw handle
      scope below `j`: the handle scope of the parent. */
  predicate SlotHomed(frames: seq<ScopeData>, j: nat)
    requires 0 < j < |frames|
  {
    match frames[j].specific
    case EscapableHandleScopeData(Some(home)) => home == InnermostHandleScope(frames, j - 1)
    case _ => true
  }

  /** Every record below `top` is shadowed, `top` is current, and every
      record above it is free and holds no type-specific data (so it can be
      reused). */
  predicate StatusShape(frames: seq<ScopeData>, top: nat)
    requires top < |frames|
  {
    && frames[top].status.Current?
    && (forall i :: 0 <= i < top ==> frames[i].status.Shadowed?)
    && (forall i :: top < i < |frames| ==> frames[i].status == Free && frames[i].specific == NoData)
  }

  /** The root is never a zombie and holds nothing. */
  predicate RootShape(frames: seq<ScopeData>)
    requires 0 < |frames|
  {
    !Zombie(frames[0].status) && frames[0].specific == NoData && frames[0].escapeSlot == None
  }

  /** Only handle scopes become zombies. */
  predicate ZombiesHoldHandles(frames: seq<ScopeData>, top: nat)
    requires top < |frames|
  {
    forall i :: 0 < i <= top && Zombie(frames[i].status) ==> HasHandleScope(frames[i].specific)
  }

  /** Escape-slot pointers lead to escapable records whose slot lives in
      their parent's handle scope. */
  predicate SlotsSound(frames: seq<ScopeData>, top: nat)
    requires top < |frames|
  {
    && (forall i :: 0 <= i <= top ==> SlotLinked(frames, i))
    && (forall j :: 0 < j <= top ==> SlotHomed(frames, j))
  }

  /** The chain invariant. */
  predicate Wf(c: Chain) {
    && c.top < |c.frames|
    && StatusShape(c.frames, c.top)
    && RootShape(c.frames)
    && ZombiesHoldHandles(c.frames, c.top)
    && SlotsSound(c.frames, c.top)
  }

  /** A scope that its owner may still touch: in the stack and not dropped. */
  predicate Touchable(c: Chain, d: nat) {
    Wf(c) && d <= c.top && !Zombie(c.frames[d].status)
  }

  /** Touching the scope at depth `d` succeeds: every record above it is a
      zombie. */
  predicate Activatable(c: Chain, d: nat)
    requires c.top < |c.frames|
  {
    forall i :: d < i <= c.top ==> Zombie(c.frames[i].status)
  }

  /** Whether a local handle allocated in `home` may still be used. */
  predicate LocalAlive(c: Chain, home: HandleHome) {
    match home
    case OuterHandleScope => true
    case FrameHandleScope(k) => k <= c.top && k < |c.frames| && HasHandleScope(c.frames[k].specific)
    case CallbackHandleScope(k) => k <= c.top && k < |c.frames| && IsCallbackRecord(c.frames, k)
  }

  // ---------------------------------------------------------------------
  // The raw scopes that are open

  datatype RawScope = RawContextScope(context: Ptr) | RawHandleScope(depth: nat) | RawTryCatch(depth: nat)

  /** The raw scope a record holds. */
  function RawOf(d: TypeSpecificData, depth: nat): seq<RawScope> {
    match d
    case NoData => []
    case ContextScopeData(cx) => [RawContextScope(cx)]
    case HandleScopeData => [RawHandleScope(depth)]
    case EscapableHandleScopeData(_) => [RawHandleScope(depth)]
    case TryCatchData => [RawTryCatch(depth)]
  }

  /** The raw scopes held by the records at depths `0..hi`, innermost last. */
  function OpenRaw(frames: seq<ScopeData>, hi: nat): seq<RawScope>
    requires hi < |frames|
    decreases hi
  {
    (if hi == 0 then [] else OpenRaw(frames, hi - 1)) + RawOf(frames[hi].specific, hi)
  }

  function OpenScopes(c: Chain): seq<RawScope>
    requires c.top < |c.frames|
  {
    OpenRaw(c.frames, c.top)
  }

  /** Replays raw calls against the stack of open raw scopes: a construct
      opens one, a destruct must close the innermost one (else `None`). */
  function Replay(open: seq<RawScope>, events: seq<RawEvent>): Option<seq<RawScope>>
    decreases |events|
  {
    if events == [] then Some(open)
    else
      match Step(open, events[0])
      case None => None
      case Some(next) => Replay(next, events[1..])
  }

  /** The effect of one raw call on the open raw scopes. */
  function Step(open: seq<RawScope>, e: RawEvent): Option<seq<RawScope>> {
    match e
    case ContextEnter(cx) => Some(open + [RawContextScope(cx)])
    case HandleScopeConstruct(k) => Some(open + [RawHandleScope(k)])
    case TryCatchConstruct(k) => Some(open + [RawTryCatch(k)])
    case EscapeSlotNew(_) => Some(open)
    case ContextExit(cx) => Close(open, RawContextScope(cx))
    case HandleScopeDestruct(k) => Close(open, RawHandleScope(k))
    case TryCatchDestruct(k) => Close(open, RawTryCatch(k))
  }

  function Close(open: seq<RawScope>, s: RawScope): Option<seq<RawScope>> {
    if open != [] && open[|open| - 1] == s then Some(open[..|open| - 1]) else None
  }

  lemma {:induction false} ReplayConcat(open: seq<RawScope>, a: seq<RawEvent>, b: seq<RawEvent>)
    requires Replay(open, a).Some?
    ensures Replay(open, a + b) == Replay(Replay(open, a).value, b)
    decreases |a|
  {
    if a != [] {
      var ab := a + b;
      assert ab[0] == a[0] && ab[1..] == a[1..] + b;
      var next := Step(open, a[0]);
      assert Replay(open, a) == Replay(next.value, a[1..]);
      assert Replay(open, ab) == Replay(next.value, ab[1..]);
      ReplayConcat(next.value, a[1..], b);
    } else {
      assert a + b == b;
    }
  }

  /** Regrouping raw-call sequences, stated once so that proofs about long
      runs call it where needed instead of leaving the solver to rediscover
      sequence associativity in every large context. */
  lemma EventsAssoc(a: seq<RawEvent>, b: seq<RawEvent>, c: seq<RawEvent>)
    ensures a + (b + c) == (a + b) + c
  {
  }

  // ---------------------------------------------------------------------
  // Frame lemmas: what the derived views depend on

  lemma {:induction false} InnermostFrame(f1: seq<ScopeData>, f2: seq<ScopeData>, k: nat)
    requires k < |f1| && k < |f2|
    requires forall i :: 0 <= i <= k ==>
               HasHandleScope(f1[i].specific) == HasHandleScope(f2[i].specific)
               && (f1[i].specific == NoData) == (f2[i].specific == NoData)
    ensures InnermostHandleScope(f1, k) == InnermostHandleScope(f2, k)
    decreases k
  {
    if k > 0 && !HasHandleScope(f1[k].specific) && f1[k].specific != NoData {
      InnermostFrame(f1, f2, k - 1);
    }
  }

  lemma {:induction false} OpenRawFrame(f1: seq<ScopeData>, f2: seq<ScopeData>, hi: nat)
    requires hi < |f1| && hi < |f2|
    requires forall i :: 0 <= i <= hi ==> RawOf(f1[i].specific, i) == RawOf(f2[i].specific, i)
    ensures OpenRaw(f1, hi) == OpenRaw(f2, hi)
    decreases hi
  {
    assert RawOf(f1[hi].specific, hi) == RawOf(f2[hi].specific, hi);
    if hi > 0 {
      OpenRawFrame(f1, f2, hi - 1);
    }
  }

  /** Records are updated without changing their kind of data. */
  predicate SameKinds(f1: seq<ScopeData>, f2: seq<ScopeData>, hi: nat)
    requires hi < |f1| && hi < |f2|
  {
    forall i :: 0 <= i <= hi ==> f1[i].specific == f2[i].specific
  }

  lemma SameKindsViews(f1: seq<ScopeData>, f2: seq<ScopeData>, hi: nat)
    requires hi < |f1| && hi < |f2| && SameKinds(f1, f2, hi)
    ensures OpenRaw(f1, hi) == OpenRaw(f2, hi)
    ensures forall k :: 0 <= k <= hi ==> InnermostHandleScope(f1, k) == InnermostHandleScope(f2, k)
  {
    OpenRawFrame(f1, f2, hi);
    forall k | 0 <= k <= hi
      ensures InnermostHandleScope(f1, k) == InnermostHandleScope(f2, k)
    {
      InnermostFrame(f1, f2, k);
    }
  }

  // ---------------------------------------------------------------------
  // Raw calls made when a record is set up or torn down

  /** The raw destructor that dropping a record's type-specific data runs. */
  function Teardown(d: TypeSpecificData, depth: nat): seq<RawEvent> {
    match d
    case NoData => []
    case ContextScopeData(cx) => [ContextExit(cx)]
    case HandleScopeData => [HandleScopeDestruct(depth)]
    case EscapableHandleScopeData(_) => [HandleScopeDestruct(depth)]
    case TryCatchData => [TryCatchDestruct(depth)]
  }

  /** The raw destructors run when the records at depths `hi` down to `lo`
      are exited, in that order. */
  function Teardowns(frames: seq<ScopeData>, lo: nat, hi: nat): seq<RawEvent>
    requires 0 < lo && hi < |frames|
    decreases hi
  {
    if hi < lo then [] else Teardown(frames[hi].specific, hi) + Teardowns(frames, lo, hi - 1)
  }

  lemma TeardownCloses(open: seq<RawScope>, d: TypeSpecificData, depth: nat)
    ensures Replay(open + RawOf(d, depth), Teardown(d, depth)) == Some(open)
  {
    var t := Teardown(d, depth);
    if t != [] {
      assert t[1..] == [];
      assert (open + RawOf(d, depth))[..|open|] == open;
    } else {
      assert open + RawOf(d, depth) == open;
    }
  }

  lemma {:induction false} TeardownsFrame(f1: seq<ScopeData>, f2: seq<ScopeData>, lo: nat, hi: nat)
    requires 0 < lo && hi < |f1| && hi < |f2| && SameKinds(f1, f2, hi)
    ensures Teardowns(f1, lo, hi) == Teardowns(f2, lo, hi)
    decreases hi
  {
    if hi >= lo {
      var t1, t2 := Teardowns(f1, lo, hi - 1), Teardowns(f2, lo, hi - 1);
      TeardownsFrame(f1, f2, lo, hi - 1);
      var h := f1[hi].specific;
      assert h == f2[hi].specific;
      assert Teardowns(f1, lo, hi) == Teardown(h, hi) + t1;
      assert Teardowns(f2, lo, hi) == Teardown(h, hi) + t2;
    }
  }

  /** The record set up by one `new_*_data` call, and the raw calls made. */
  datatype Init = Init(data: ScopeData, events: seq<RawEvent>)

  /** The `init_fn` closures of `new_context_scope_data`, `new_handle_scope_data`,
      `new_escapable_handle_scope_data`, `new_try_catch_data` and
      `new_callback_scope_data`.  `home` is the raw handle scope that is current
      when the closure runs: the escape slot is allocated there, before the
      new raw handle scope is constructed. */
  function InitScope(data: ScopeData, req: ScopeRequest, depth: nat, home: HandleHome): Init {
    match req
    case ContextScopeRequest(cx) =>
      Init(data.(specific := ContextScopeData(cx), context := cx), [ContextEnter(cx)])
    case HandleScopeRequest =>
      Init(data.(specific := HandleScopeData), [HandleScopeConstruct(depth)])
    case EscapableHandleScopeRequest =>
      Init(data.(specific := EscapableHandleScopeData(Some(home)), escapeSlot := Some(depth)),
           [EscapeSlotNew(home), HandleScopeConstruct(depth)])
    case TryCatchRequest =>
      Init(data.(specific := TryCatchData, tryCatch := true), [TryCatchConstruct(depth)])
    case CallbackScopeRequest(cx) =>
      Init(data.(context := cx), [])
  }

  lemma SetupOpens(open: seq<RawScope>, data: ScopeData, req: ScopeRequest, depth: nat, home: HandleHome)
    requires data.specific == NoData
    ensures Replay(open, InitScope(data, req, depth, home).events)
         == Some(open + RawOf(InitScope(data, req, depth, home).data.specific, depth))
  {
    var init := InitScope(data, req, depth, home);
    if req.EscapableHandleScopeRequest? {
      var ev := init.events;
      assert ev[1..] == [HandleScopeConstruct(depth)] && ev[1..][1..] == [];
      assert Replay(open, ev) == Replay(open, ev[1..]);
      assert Replay(open, ev[1..]) == Replay(open + [RawHandleScope(depth)], []);
    } else if req.CallbackScopeRequest? {
      assert open + RawOf(init.data.specific, depth) == open;
    } else {
      assert init.events[1..] == [];
    }
  }

  // ---------------------------------------------------------------------
  // Operations of `data::ScopeData`

  /** `exit_scope`: drop the current record's type-specific data (running its
      raw destructor), mark it free, and make its parent current again with the
      zombie flag it had when it was shadowed. */
  function ExitScope(c: Chain): (r: Run<nat>)
    requires Wf(c) && 0 < c.top
    ensures Wf(r.chain) && r.chain.top == c.top - 1 && r.outcome == Ok(c.top - 1)
    ensures |r.chain.frames| == |c.frames|
    ensures forall i :: 0 <= i < c.top - 1 ==> r.chain.frames[i] == c.frames[i]
    ensures r.chain.frames[c.top - 1]
         == c.frames[c.top - 1].(status := Current(Zombie(c.frames[c.top - 1].status)))
    ensures r.chain.frames[c.top].status == Free && r.chain.frames[c.top].specific == NoData
    ensures forall i :: c.top < i < |c.frames| ==> r.chain.frames[i] == c.frames[i]
    ensures r.events == Teardown(c.frames[c.top].specific, c.top)
    ensures Replay(OpenScopes(c), r.events) == Some(OpenScopes(r.chain))
  {
    var f := c.frames[c.top];
    var frames := ExitedFrames(c);
    assert OpenRaw(c.frames, c.top) == OpenRaw(c.frames, c.top - 1) + RawOf(f.specific, c.top);
    TeardownCloses(OpenRaw(c.frames, c.top - 1), f.specific, c.top);
    Run(Chain(frames, c.top - 1), Teardown(f.specific, c.top), Ok(c.top - 1))
  }

  /** The records after the current one is freed and its parent made
      current again. */
  function ExitedFrames(c: Chain): (frames: seq<ScopeData>)
    requires Wf(c) && 0 < c.top
    ensures Wf(Chain(frames, c.top - 1)) && |frames| == |c.frames|
    ensures forall i :: 0 <= i < c.top - 1 ==> frames[i] == c.frames[i]
    ensures frames[c.top - 1] == c.frames[c.top - 1].(status := Current(Zombie(c.frames[c.top - 1].status)))
    ensures frames[c.top].status == Free && frames[c.top].specific == NoData
    ensures forall i :: c.top < i < |c.frames| ==> frames[i] == c.frames[i]
    ensures OpenRaw(frames, c.top - 1) == OpenRaw(c.frames, c.top - 1)
  {
    var f := c.frames[c.top];
    var p := c.frames[c.top - 1];
    var frames := c.frames[c.top := f.(status := Free, specific := NoData)]
                          [c.top - 1 := p.(status := Current(Zombie(p.status)))];
    ExitFramesWf(c, frames);
    frames
  }

  /** `new_scope_data_with` with `allocate_or_reuse_scope_data`: shadow the
      current record, take the free record above it (or allocate one), make it
      current with the parent's context and escape slot, and run the kind's
      initialiser.  The reused record is free and empty by `Wf`, which is
      what the source's debug assertions and `init_with` check. */
  function NewScopeDataWith(c: Chain, req: ScopeRequest): (r: Run<nat>)
    requires Wf(c) && RequestOk(req)
    ensures Wf(r.chain) && r.chain.top == c.top + 1 && r.outcome == Ok(c.top + 1)
    ensures |r.chain.frames| == if c.top + 1 < |c.frames| then |c.frames| else |c.frames| + 1
    ensures forall i :: 0 <= i < c.top ==> r.chain.frames[i] == c.frames[i]
    ensures r.chain.frames[c.top]
         == c.frames[c.top].(status := Shadowed(Zombie(c.frames[c.top].status)))
    ensures r.chain.frames[c.top + 1].status == Current(false)
    ensures forall i :: c.top + 1 < i < |c.frames| ==> r.chain.frames[i] == c.frames[i]
    ensures Replay(OpenScopes(c), r.events) == Some(OpenScopes(r.chain))
  {
    var d := c.top + 1;
    var parent := c.frames[c.top];
    var reused := if d < |c.frames| then c.frames[d] else Boxed;
    assert reused.specific == NoData;
    var child := reused.(status := Current(false), context := parent.context, escapeSlot := parent.escapeSlot);
    var home := InnermostHandleScope(c.frames, c.top);
    var init := InitScope(child, req, d, home);
    var frames := Pushed(c, init.data);
    PushFramesWf(c, req, frames, init.data);
    SetupOpens(OpenRaw(c.frames, c.top), child, req, d, home);
    Run(Chain(frames, d), init.events, Ok(d))
  }

  /** The records after the current one is shadowed and `child` is placed
      above it, in the next record of the chain or in a new one. */
  function Pushed(c: Chain, child: ScopeData): (frames: seq<ScopeData>)
    requires c.top < |c.frames|
    ensures |frames| == if c.top + 1 < |c.frames| then |c.frames| else |c.frames| + 1
    ensures forall i :: 0 <= i < c.top ==> frames[i] == c.frames[i]
    ensures frames[c.top] == c.frames[c.top].(status := Shadowed(Zombie(c.frames[c.top].status)))
    ensures frames[c.top + 1] == child
    ensures forall i :: c.top + 1 < i < |frames| ==> i < |c.frames| && frames[i] == c.frames[i]
  {
    var parent := c.frames[c.top];
    var shadowed := c.frames[c.top := parent.(status := Shadowed(Zombie(parent.status)))];
    if c.top + 1 < |c.frames| then shadowed[c.top + 1 := child] else shadowed + [child]
  }

  // ---------------------------------------------------------------------
  // Why the operations keep the chain well formed

  /** Escape slots stay sound while no record up to `top` changes its kind
      of data or its escape-slot pointer. */
  lemma SlotsKept(f1: seq<ScopeData>, f2: seq<ScopeData>, top: nat)
    requires top < |f1| && top < |f2| && SlotsSound(f1, top)
    requires forall i :: 0 <= i <= top ==>
               f1[i].specific == f2[i].specific && f1[i].escapeSlot == f2[i].escapeSlot
    ensures SlotsSound(f2, top)
  {
    assert SameKinds(f1, f2, top);
    SameKindsViews(f1, f2, top);
    forall i | 0 <= i <= top
      ensures SlotLinked(f2, i)
    {
      assert SlotLinked(f1, i);
    }
    forall j | 0 < j <= top
      ensures SlotHomed(f2, j)
    {
      assert SlotHomed(f1, j);
    }
  }

  /** Soundness of the slots up to `top` gives it up to any lower depth; a
      separate lemma so that the quantifier is instantiated only where a
      proof asks for it. */
  lemma SlotsSoundBelow(frames: seq<ScopeData>, top: nat, k: nat)
    requires k <= top < |frames| && SlotsSound(frames, top)
    ensures SlotsSound(frames, k)
  {
  }

  lemma ExitFramesWf(c: Chain, frames: seq<ScopeData>)
    requires Wf(c) && 0 < c.top && |frames| == |c.frames|
    requires forall i :: 0 <= i < c.top - 1 ==> frames[i] == c.frames[i]
    requires frames[c.top - 1] == c.frames[c.top - 1].(status := Current(Zombie(c.frames[c.top - 1].status)))
    requires frames[c.top].status == Free && frames[c.top].specific == NoData
    requires forall i :: c.top < i < |frames| ==> frames[i] == c.frames[i]
    ensures Wf(Chain(frames, c.top - 1))
    ensures OpenRaw(frames, c.top - 1) == OpenRaw(c.frames, c.top - 1)
  {
    var k := c.top - 1;
    assert forall i :: 0 <= i <= k ==>
      c.frames[i].specific == frames[i].specific && c.frames[i].escapeSlot == frames[i].escapeSlot;
    SlotsSoundBelow(c.frames, c.top, k);
    SlotsKept(c.frames, frames, k);
    assert SameKinds(c.frames, frames, k);
    SameKindsViews(c.frames, frames, k);
    assert StatusShape(frames, k);
    assert ZombiesHoldHandles(frames, k);
  }

  /** `frames` is `c.frames` with the current record shadowed and `child`
      placed just above it. */
  predicate PushedFrom(c: Chain, frames: seq<ScopeData>, child: ScopeData)
  {
    && c.top + 1 < |frames| && c.top < |c.frames| && |c.frames| <= |frames|
    && (forall i :: 0 <= i < c.top ==> frames[i] == c.frames[i])
    && frames[c.top] == c.frames[c.top].(status := Shadowed(Zombie(c.frames[c.top].status)))
    && frames[c.top + 1] == child
    && (forall i :: c.top + 1 < i < |frames| ==> i < |c.frames| && frames[i] == c.frames[i])
  }

  /** Pushing keeps each record up to the old top's kind of data and slot. */
  lemma PushedKeepsData(c: Chain, frames: seq<ScopeData>, child: ScopeData)
    requires PushedFrom(c, frames, child)
    ensures forall i :: 0 <= i <= c.top ==>
              c.frames[i].specific == frames[i].specific && c.frames[i].escapeSlot == frames[i].escapeSlot
              && Zombie(c.frames[i].status) == Zombie(frames[i].status)
  {
  }

  lemma PushedStatusShape(c: Chain, frames: seq<ScopeData>, child: ScopeData)
    requires Wf(c) && PushedFrom(c, frames, child) && child.status == Current(false)
    ensures StatusShape(frames, c.top + 1) && ZombiesHoldHandles(frames, c.top + 1) && RootShape(frames)
  {
    PushedKeepsData(c, frames, child);
  }

  lemma PushedChildSlot(c: Chain, frames: seq<ScopeData>, child: ScopeData)
    requires Wf(c) && PushedFrom(c, frames, child)
    requires child.escapeSlot == c.frames[c.top].escapeSlot
          || (child.escapeSlot == Some(c.top + 1) && child.specific.EscapableHandleScopeData?)
    requires child.specific.EscapableHandleScopeData? ==>
               child.specific == EscapableHandleScopeData(Some(InnermostHandleScope(c.frames, c.top)))
    ensures SlotLinked(frames, c.top + 1) && SlotHomed(frames, c.top + 1)
  {
    PushedKeepsData(c, frames, child);
    assert SameKinds(c.frames, frames, c.top);
    SameKindsViews(c.frames, frames, c.top);
    assert SlotLinked(c.frames, c.top);
  }

  lemma PushFramesWf(c: Chain, req: ScopeRequest, frames: seq<ScopeData>, child: ScopeData)
    requires Wf(c) && PushedFrom(c, frames, child)
    requires child.status == Current(false)
    requires child.escapeSlot == c.frames[c.top].escapeSlot
          || (child.escapeSlot == Some(c.top + 1) && child.specific.EscapableHandleScopeData?)
    requires child.specific.EscapableHandleScopeData? ==>
               child.specific == EscapableHandleScopeData(Some(InnermostHandleScope(c.frames, c.top)))
    ensures Wf(Chain(frames, c.top + 1))
    ensures OpenRaw(frames, c.top) == OpenRaw(c.frames, c.top)
  {
    PushedKeepsData(c, frames, child);
    assert SameKinds(c.frames, frames, c.top);
    SameKindsViews(c.frames, frames, c.top);
    PushedSlotsSound(c, frames, child);
    PushedStatusShape(c, frames, child);
  }

  lemma PushedSlotsSound(c: Chain, frames: seq<ScopeData>, child: ScopeData)
    requires Wf(c) && PushedFrom(c, frames, child)
    requires child.escapeSlot == c.frames[c.top].escapeSlot
          || (child.escapeSlot == Some(c.top + 1) && child.specific.EscapableHandleScopeData?)
    requires child.specific.EscapableHandleScopeData? ==>
               child.specific == EscapableHandleScopeData(Some(InnermostHandleScope(c.frames, c.top)))
    ensures SlotsSound(frames, c.top + 1)
  {
    PushedKeepsData(c, frames, child);
    SlotsKept(c.frames, frames, c.top);
    PushedChildSlot(c, frames, child);
    PushSlotsSound(frames, c.top);
  }

  lemma PushSlotsSound(frames: seq<ScopeData>, k: nat)
    requires k + 1 < |frames| && SlotsSound(frames, k)
    requires SlotLinked(frames, k + 1) && SlotHomed(frames, k + 1)
    ensures SlotsSound(frames, k + 1)
  {
  }

  /** `try_exit_scope` on the record at depth `d`: exit every record from the
      current one down to `d`, innermost first, each of which must be a
      zombie; the first live one met stops the walk with a panic, leaving
      it current.  What it does is stated by `TryExitScopeSpec`. */
  function TryExitScope(c: Chain, d: nat): (r: Run<nat>)
    requires Wf(c) && 0 < d <= c.top
    ensures Wf(r.chain) && |r.chain.frames| == |c.frames| && d - 1 <= r.chain.top <= c.top
    decreases c.top
  {
    if !Zombie(c.frames[c.top].status) then
      Run(c, [], Panic(ActiveScopeDropped))
    else
      var e := ExitScope(c);
      if c.top == d then e
      else
        var rest := TryExitScope(e.chain, d);
        Run(rest.chain, e.events + rest.events, rest.outcome)
  }

  /** What `try_exit_scope` from depth `d` promises about its outcome: the
      walk succeeds exactly when every record from `d` up is a zombie, and
      then leaves `d - 1` current; a panic leaves current the highest live
      record, which is at or above `d`. */
  predicate ExitOutcome(c: Chain, d: nat, r: Run<nat>)
    requires 0 < d <= c.top < |c.frames| && r.chain.top <= c.top
  {
    && (r.outcome.Ok? <==> (forall i :: d <= i <= c.top ==> Zombie(c.frames[i].status)))
    && (r.outcome.Ok? ==> r.outcome.value == d - 1 && r.chain.top == d - 1)
    && (r.outcome.Panic? ==>
          r.outcome.fault == ActiveScopeDropped && d <= r.chain.top
          && !Zombie(c.frames[r.chain.top].status))
    && (forall i :: r.chain.top < i <= c.top ==> Zombie(c.frames[i].status))
  }

  /** What exiting records down to the new current one does to the chain:
      records below it are untouched, it becomes current again, exactly the
      exited records run their raw destructors, innermost first, and those
      destructors close the raw scopes in last-in first-out order. */
  predicate ExitEffect(c: Chain, r: Run<nat>)
    requires c.top < |c.frames| && r.chain.top < |r.chain.frames| && r.chain.top <= c.top
  {
    && (forall i :: 0 <= i < r.chain.top ==> r.chain.frames[i] == c.frames[i])
    && r.chain.frames[r.chain.top]
       == c.frames[r.chain.top].(status := Current(Zombie(c.frames[r.chain.top].status)))
    && TornDown(c, r)
    && Replay(OpenScopes(c), r.events) == Some(OpenScopes(r.chain))
  }

  /** The raw calls of a run that exits the records above the new current
      one are their destructors, innermost first. */
  predicate TornDown<T>(c: Chain, r: Run<T>)
    requires c.top < |c.frames| && r.chain.top <= c.top
  {
    r.events == Teardowns(c.frames, r.chain.top + 1, c.top)
  }

  lemma {:induction false} TryExitScopeSpec(c: Chain, d: nat)
    requires Wf(c) && 0 < d <= c.top
    ensures ExitOutcome(c, d, TryExitScope(c, d))
    ensures ExitEffect(c, TryExitScope(c, d))
    decreases c.top
  {
    if !Zombie(c.frames[c.top].status) {
      TryExitLive(c, d);
      TryExitStops(c, d);
    } else if c.top == d {
      TryExitZombie(c, d);
      TryExitLast(c, d, ExitScope(c));
    } else {
      var e := ExitScope(c);
      var rest := TryExitScope(e.chain, d);
      TryExitScopeSpec(e.chain, d);
      TryExitZombie(c, d);
      TryExitStep(c, d, e, rest);
    }
  }

  /** The case of `TryExitScopeSpec` where the current record is live. */
  lemma TryExitStops(c: Chain, d: nat)
    requires Wf(c) && 0 < d <= c.top && !Zombie(c.frames[c.top].status)
    ensures ExitOutcome(c, d, Run(c, [], Panic(ActiveScopeDropped)))
    ensures ExitEffect(c, Run(c, [], Panic(ActiveScopeDropped)))
  {
    assert Teardowns(c.frames, c.top + 1, c.top) == [];
  }

  /** The case of `TryExitScopeSpec` where the current record is the last
      one to exit. */
  lemma TryExitLast(c: Chain, d: nat, e: Run<nat>)
    requires Wf(c) && 0 < d == c.top && Zombie(c.frames[c.top].status)
    requires e == ExitScope(c)
    ensures ExitOutcome(c, d, e)
    ensures ExitEffect(c, e)
  {
    assert Teardowns(c.frames, c.top, c.top) == e.events;
  }

  /** The recursive case of `TryExitScopeSpec`. */
  lemma TryExitStep(c: Chain, d: nat, e: Run<nat>, rest: Run<nat>)
    requires Wf(c) && 0 < d < c.top && Zombie(c.frames[c.top].status)
    requires e == ExitScope(c)
    requires rest.chain.top < |rest.chain.frames| && d - 1 <= rest.chain.top <= c.top - 1
    requires ExitOutcome(e.chain, d, rest) && ExitEffect(e.chain, rest)
    ensures ExitOutcome(c, d, Run(rest.chain, e.events + rest.events, rest.outcome))
    ensures ExitEffect(c, Run(rest.chain, e.events + rest.events, rest.outcome))
  {
    ExitOutcomeStep(c, d, e.chain, rest);
    ExitEffectStep(c, e, rest);
  }

  /** One more exited zombie above a walk keeps the outcome's description. */
  lemma ExitOutcomeStep(c: Chain, d: nat, e: Chain, rest: Run<nat>)
    requires 0 < d < c.top < |c.frames| && Zombie(c.frames[c.top].status)
    requires e.top == c.top - 1 && |e.frames| == |c.frames|
    requires forall i :: 0 <= i < c.top - 1 ==> e.frames[i] == c.frames[i]
    requires e.frames[c.top - 1]
          == c.frames[c.top - 1].(status := Current(Zombie(c.frames[c.top - 1].status)))
    requires rest.chain.top <= c.top - 1 && ExitOutcome(e, d, rest)
    ensures ExitOutcome(c, d, Run(rest.chain, [], rest.outcome))
  {
    assert forall i :: d <= i < c.top ==> Zombie(e.frames[i].status) == Zombie(c.frames[i].status);
  }

  /** One more exited record above a walk keeps the effect's description. */
  lemma ExitEffectStep(c: Chain, e: Run<nat>, rest: Run<nat>)
    requires 0 < c.top < |c.frames|
    requires e.chain.top == c.top - 1 && |e.chain.frames| == |c.frames|
    requires forall i :: 0 <= i < c.top - 1 ==> e.chain.frames[i] == c.frames[i]
    requires e.chain.frames[c.top - 1]
          == c.frames[c.top - 1].(status := Current(Zombie(c.frames[c.top - 1].status)))
    requires e.events == Teardown(c.frames[c.top].specific, c.top)
    requires Replay(OpenScopes(c), e.events) == Some(OpenScopes(e.chain))
    requires rest.chain.top < |rest.chain.frames| && rest.chain.top <= c.top - 1
    requires ExitEffect(e.chain, rest)
    ensures ExitEffect(c, Run(rest.chain, e.events + rest.events, rest.outcome))
  {
    var r := Run(rest.chain, e.events + rest.events, rest.outcome);
    ExitFramesStep(c.frames, e.chain.frames, rest.chain.frames, c.top, rest.chain.top);
    ExitEventsStep(c, e, rest);
    ReplayStep(OpenScopes(c), OpenScopes(e.chain), OpenScopes(rest.chain), e.events, rest.events);
    ExitEffectIntro(c, r);
  }

  lemma ExitEffectIntro(c: Chain, r: Run<nat>)
    requires c.top < |c.frames| && r.chain.top < |r.chain.frames| && r.chain.top <= c.top
    requires forall i :: 0 <= i < r.chain.top ==> r.chain.frames[i] == c.frames[i]
    requires r.chain.frames[r.chain.top]
          == c.frames[r.chain.top].(status := Current(Zombie(c.frames[r.chain.top].status)))
    requires TornDown(c, r)
    requires Replay(OpenScopes(c), r.events) == Some(OpenScopes(r.chain))
    ensures ExitEffect(c, r)
  {
  }

  /** The raw-call part of `ExitEffectStep`. */
  lemma ExitEventsStep(c: Chain, e: Run<nat>, rest: Run<nat>)
    requires 0 < c.top < |c.frames|
    requires e.chain.top == c.top - 1 && |e.chain.frames| == |c.frames|
    requires SameKinds(c.frames, e.chain.frames, c.top - 1)
    requires e.events == Teardown(c.frames[c.top].specific, c.top)
    requires rest.chain.top <= c.top - 1 && TornDown(e.chain, rest)
    ensures TornDown(c, Run(rest.chain, e.events + rest.events, rest.outcome))
  {
    TeardownsStep(c.frames, e.chain.frames, rest.chain.top + 1, c.top, e.events, rest.events);
  }

  lemma TeardownsStep(f1: seq<ScopeData>, f2: seq<ScopeData>, lo: nat, hi: nat,
                      a: seq<RawEvent>, b: seq<RawEvent>)
    requires 0 < lo <= hi < |f1| && hi - 1 < |f2| && SameKinds(f1, f2, hi - 1)
    requires a == Teardown(f1[hi].specific, hi) && b == Teardowns(f2, lo, hi - 1)
    ensures a + b == Teardowns(f1, lo, hi)
  {
    assert SameKinds(f1, f2, hi - 1);
    TeardownsFrame(f1, f2, lo, hi - 1);
    assert Teardowns(f1, lo, hi) == Teardown(f1[hi].specific, hi) + Teardowns(f1, lo, hi - 1);
  }

  lemma ReplayStep(o1: seq<RawScope>, o2: seq<RawScope>, o3: seq<RawScope>, a: seq<RawEvent>, b: seq<RawEvent>)
    requires Replay(o1, a) == Some(o2) && Replay(o2, b) == Some(o3)
    ensures Replay(o1, a + b) == Some(o3)
  {
    ReplayConcat(o1, a, b);
  }

  /** The record-level part of `ExitEffectStep`: `ef` is `cf` after exiting
      the record at `top`, and `rf` is `ef` after exiting down to `t`. */
  lemma ExitFramesStep(cf: seq<ScopeData>, ef: seq<ScopeData>, rf: seq<ScopeData>, top: nat, t: nat)
    requires 0 < top < |cf| && |ef| == |cf| && t <= top - 1 && t < |rf|
    requires forall i :: 0 <= i < top - 1 ==> ef[i] == cf[i]
    requires ef[top - 1] == cf[top - 1].(status := Current(Zombie(cf[top - 1].status)))
    requires forall i :: 0 <= i < t ==> rf[i] == ef[i]
    requires rf[t] == ef[t].(status := Current(Zombie(ef[t].status)))
    ensures SameKinds(cf, ef, top - 1)
    ensures forall i :: 0 <= i < t ==> rf[i] == cf[i]
    ensures rf[t] == cf[t].(status := Current(Zombie(cf[t].status)))
  {
    forall i | 0 <= i <= top - 1
      ensures cf[i].specific == ef[i].specific
    {
      if i < top - 1 {
        assert ef[i] == cf[i];
      }
    }
    if t < top - 1 {
      assert ef[t] == cf[t];
    }
  }

  /** `try_activate_scope` (the work of `get` and `get_mut`): a live current
      record is returned as is; a live shadowed one first exits the zombies
      stacked above it, and panics if one of them is still alive. */
  function TryActivateScope(c: Chain, d: nat): (r: Run<nat>)
    requires Touchable(c, d)
    ensures Wf(r.chain) && |r.chain.frames| == |c.frames|
    ensures r.outcome.Ok? <==> Activatable(c, d)
    ensures r.outcome.Ok? ==>
              r.outcome.value == d && r.chain.top == d
              && r.chain.frames[d] == c.frames[d].(status := Current(false))
    ensures r.outcome.Panic? ==> r.outcome.fault == ActiveScopeDropped && d < r.chain.top <= c.top
    ensures forall i :: 0 <= i < d ==> r.chain.frames[i] == c.frames[i]
    ensures TornDown(c, r)
    ensures Replay(OpenScopes(c), r.events) == Some(OpenScopes(r.chain))
  {
    if c.frames[d].status.Current? then
      CurrentIsActivatable(c, d);
      Run(c, [], Ok(d))
    else
      var r := TryExitScope(c, d + 1);
      TryExitScopeSpec(c, d + 1);
      ActivateOutcome(c, d, r);
      ActivateEffect(c, d, r);
      r
  }

  lemma CurrentIsActivatable(c: Chain, d: nat)
    requires Touchable(c, d) && c.frames[d].status.Current?
    ensures d == c.top && Activatable(c, d)
    ensures c.frames[d] == c.frames[d].(status := Current(false))
    ensures Teardowns(c.frames, c.top + 1, c.top) == []
  {
  }

  /** Touching a shadowed scope exits every record above it: what
      `TryExitScopeSpec` says about the walk, read for the touched scope. */
  lemma ActivateOutcome(c: Chain, d: nat, r: Run<nat>)
    requires d < c.top < |c.frames| && !Zombie(c.frames[d].status) && r.chain.top <= c.top
    requires ExitOutcome(c, d + 1, r)
    ensures r.outcome.Ok? <==> Activatable(c, d)
    ensures r.outcome.Ok? ==> r.outcome.value == d && r.chain.top == d
    ensures r.outcome.Panic? ==> r.outcome.fault == ActiveScopeDropped && d < r.chain.top <= c.top
  {
  }

  lemma ActivateEffect(c: Chain, d: nat, r: Run<nat>)
    requires d < c.top < |c.frames| && c.frames[d].status == Shadowed(false)
    requires r.chain.top < |r.chain.frames| && d <= r.chain.top <= c.top
    requires ExitEffect(c, r)
    ensures r.chain.top == d ==> r.chain.frames[d] == c.frames[d].(status := Current(false))
    ensures forall i :: 0 <= i < d ==> r.chain.frames[i] == c.frames[i]
    ensures TornDown(c, r)
    ensures Replay(OpenScopes(c), r.events) == Some(OpenScopes(r.chain))
  {
  }

  /** `get_root_mut`: exit every scope above the root; all must be zombies. */
  function GetRootMut(c: Chain): (r: Run<nat>)
    requires Wf(c)
    ensures Wf(r.chain) && |r.chain.frames| == |c.frames|
    ensures r.outcome.Ok? <==> Activatable(c, 0)
    ensures r.outcome.Ok? ==>
              r.outcome.value == 0 && r.chain.top == 0
              && r.chain.frames[0] == c.frames[0].(status := Current(false))
    ensures r.outcome.Panic? ==> r.outcome.fault == ActiveScopeDropped && 0 < r.chain.top
    ensures Replay(OpenScopes(c), r.events) == Some(OpenScopes(r.chain))
  {
    if c.top == 0 then Run(c, [], Ok(0))
    else
      var r := TryExitScope(c, 1);
      TryExitScopeSpec(c, 1);
      r
  }

  /** `notify_scope_dropped` on the (live) current record: a handle scope
      becomes a zombie and stays on the stack; any other kind is exited at
      once. */
  function NotifyScopeDropped(c: Chain): (r: Run<()>)
    requires Wf(c) && 0 < c.top && !Zombie(c.frames[c.top].status)
    ensures Wf(r.chain) && r.outcome.Ok? && |r.chain.frames| == |c.frames|
    ensures HasHandleScope(c.frames[c.top].specific) ==>
              r.chain.top == c.top && r.events == []
              && r.chain.frames == c.frames[c.top := c.frames[c.top].(status := Current(true))]
    ensures !HasHandleScope(c.frames[c.top].specific) ==>
              r.chain == ExitScope(c).chain && r.events == ExitScope(c).events
    ensures Replay(OpenScopes(c), r.events) == Some(OpenScopes(r.chain))
  {
    var f := c.frames[c.top];
    if HasHandleScope(f.specific) then
      var frames := c.frames[c.top := f.(status := Current(true))];
      assert SameKinds(c.frames, frames, c.top);
      SameKindsViews(c.frames, frames, c.top);
      assert forall j :: 0 < j <= c.top ==> SlotHomed(c.frames, j) ==> SlotHomed(frames, j);
      assert forall i :: 0 <= i <= c.top ==> SlotLinked(c.frames, i) ==> SlotLinked(frames, i);
      Run(Chain(frames, c.top), [], Ok(()))
    else
      var e := ExitScope(c);
      Run(e.chain, e.events, Ok(()))
  }

  /** The `Drop` of every public scope type: `get_mut` on the dropped scope's
      record, then `notify_scope_dropped`. */
  function DropScope(c: Chain, d: nat): (r: Run<()>)
    requires Touchable(c, d) && 0 < d
    ensures Wf(r.chain) && |r.chain.frames| == |c.frames|
    ensures r.outcome.Ok? <==> Activatable(c, d)
    ensures r.outcome.Panic? ==> r.outcome.fault == ActiveScopeDropped
    ensures r.outcome.Ok? && HasHandleScope(c.frames[d].specific) ==>
              r.chain.top == d && r.chain.frames[d].status == Current(true)
              && r.chain.frames[d].specific == c.frames[d].specific
              && (forall i :: 0 <= i < d ==> r.chain.frames[i] == c.frames[i])
    ensures r.outcome.Ok? && !HasHandleScope(c.frames[d].specific) ==>
              r.chain.top == d - 1 && r.chain.frames[d].status == Free
    ensures r.outcome.Ok? && HasHandleScope(c.frames[d].specific) ==>
              r.events == TryActivateScope(c, d).events
    ensures r.outcome.Ok? && !HasHandleScope(c.frames[d].specific) ==>
              var t := TryActivateScope(c, d);
              && 0 < t.chain.top
              && r.chain == ExitScope(t.chain).chain
              && r.events == t.events + Teardown(c.frames[d].specific, d)
    ensures Replay(OpenScopes(c), r.events) == Some(OpenScopes(r.chain))
  {
    var t := TryActivateScope(c, d);
    if t.outcome.Panic? then Run(t.chain, t.events, Panic(t.outcome.fault))
    else
      var n := NotifyScopeDropped(t.chain);
      ReplayConcat(OpenScopes(c), t.events, n.events);
      Run(n.chain, t.events + n.events, n.outcome)
  }

  /** The escapable record at depth `j` gives up its raw escape slot. */
  function TakeSlot(c: Chain, j: nat): (r: Chain)
    requires Wf(c) && 0 < j <= c.top && c.frames[j].specific.EscapableHandleScopeData?
    ensures Wf(r) && r.top == c.top && |r.frames| == |c.frames|
    ensures r.frames[j].specific == EscapableHandleScopeData(None)
    ensures forall i :: 0 <= i < |c.frames| && i != j ==> r.frames[i] == c.frames[i]
    ensures OpenScopes(r) == OpenScopes(c)
  {
    var frames := c.frames[j := c.frames[j].(specific := EscapableHandleScopeData(None))];
    TakeSlotWf(c, j, frames);
    Chain(frames, c.top)
  }

  lemma TakeSlotWf(c: Chain, j: nat, frames: seq<ScopeData>)
    requires Wf(c) && 0 < j <= c.top && c.frames[j].specific.EscapableHandleScopeData?
    requires frames == c.frames[j := c.frames[j].(specific := EscapableHandleScopeData(None))]
    ensures Wf(Chain(frames, c.top))
    ensures OpenRaw(frames, c.top) == OpenRaw(c.frames, c.top)
  {
    OpenRawFrame(c.frames, frames, c.top);
    forall k | 0 <= k <= c.top
      ensures InnermostHandleScope(frames, k) == InnermostHandleScope(c.frames, k)
    {
      InnermostFrame(frames, c.frames, k);
    }
    forall i | 0 <= i <= c.top
      ensures SlotLinked(frames, i)
    {
      assert SlotLinked(c.frames, i);
    }
    forall i | 0 < i <= c.top
      ensures SlotHomed(frames, i)
    {
      assert SlotHomed(c.frames, i);
    }
    assert SlotsSound(frames, c.top);
    assert StatusShape(frames, c.top);
    assert ZombiesHoldHandles(frames, c.top);
  }

  /** A successful touch of depth `d` changes no record's data or escape
      slot up to `d`. */
  lemma TouchKeepsData(c: Chain, d: nat, t: Chain)
    requires Touchable(c, d) && Wf(t) && t.top == d && |t.frames| == |c.frames|
    requires forall i :: 0 <= i < d ==> t.frames[i] == c.frames[i]
    requires t.frames[d] == c.frames[d].(status := Current(false))
    ensures forall i :: 0 <= i <= d ==>
              t.frames[i].specific == c.frames[i].specific && t.frames[i].escapeSlot == c.frames[i].escapeSlot
    ensures SlotLinked(c.frames, d) && SlotLinked(t.frames, d)
  {
    assert SlotLinked(c.frames, d);
  }

  /** `EscapableHandleScope::escape`: `get_mut` on the scope, then take the
      raw escape slot its record points to (the slot of the nearest
      escapable scope).  The escaped value is written into that slot, so the
      result is the raw handle scope the escaped local lives in. */
  function Escape(c: Chain, d: nat): (r: Run<HandleHome>)
    requires Touchable(c, d)
    ensures Wf(r.chain)
    ensures Replay(OpenScopes(c), r.events) == Some(OpenScopes(r.chain))
    ensures !Activatable(c, d) ==> r.outcome == Panic(ActiveScopeDropped)
    ensures Activatable(c, d) && c.frames[d].escapeSlot.None? ==> r.outcome == Panic(NoEscapeSlot)
    ensures Activatable(c, d) && c.frames[d].escapeSlot.Some? ==>
              var j := c.frames[d].escapeSlot.value;
              && 0 < j <= d && c.frames[j].specific.EscapableHandleScopeData?
              && (c.frames[j].specific.rawEscapeSlot.None? ==> r.outcome == Panic(EscapeCalledTwice))
              && (c.frames[j].specific.rawEscapeSlot.Some? ==>
                    r.outcome == Ok(c.frames[j].specific.rawEscapeSlot.value)
                    && r.chain == TakeEscapeSlot(TryActivateScope(c, d).chain).chain)
  {
    var t := TryActivateScope(c, d);
    if t.outcome.Panic? then Run(t.chain, t.events, Panic(t.outcome.fault))
    else
      TouchKeepsData(c, d, t.chain);
      var e := TakeEscapeSlot(t.chain);
      Run(e.chain, t.events, e.outcome)
  }

  /** The slot-taking half of `escape`, on the current record. */
  function TakeEscapeSlot(t: Chain): (r: Run<HandleHome>)
    requires Wf(t)
    ensures Wf(r.chain) && OpenScopes(r.chain) == OpenScopes(t)
    ensures t.frames[t.top].escapeSlot.None? ==> r.outcome == Panic(NoEscapeSlot)
    ensures t.frames[t.top].escapeSlot.Some? ==>
              var j := t.frames[t.top].escapeSlot.value;
              && 0 < j <= t.top && t.frames[j].specific.EscapableHandleScopeData?
              && (t.frames[j].specific.rawEscapeSlot.None? ==> r.outcome == Panic(EscapeCalledTwice))
              && (t.frames[j].specific.rawEscapeSlot.Some? ==>
                    r.outcome == Ok(t.frames[j].specific.rawEscapeSlot.value)
                    && r.chain == TakeSlot(t, j))
  {
    assert SlotLinked(t.frames, t.top);
    match t.frames[t.top].escapeSlot
    case None => Run(t, [], Panic(NoEscapeSlot))
    case Some(j) =>
      match t.frames[j].specific.rawEscapeSlot
      case None => Run(t, [], Panic(EscapeCalledTwice))
      case Some(home) => Run(TakeSlot(t, j), [], Ok(home))
  }

  /** `ScopeData::get_current_context` on a touched scope: the cached context,
      or else the host's current context (`hostContext`, possibly null), which
      is then cached. */
  function GetCurrentContext(c: Chain, d: nat, hostContext: Ptr): (r: Run<Ptr>)
    requires Touchable(c, d)
    ensures Wf(r.chain)
    ensures Replay(OpenScopes(c), r.events) == Some(OpenScopes(r.chain))
    ensures !Activatable(c, d) ==> r.outcome == Panic(ActiveScopeDropped)
    ensures Activatable(c, d) && c.frames[d].context != NULL ==>
              r.outcome == Ok(c.frames[d].context) && r.chain == TryActivateScope(c, d).chain
    ensures Activatable(c, d) && c.frames[d].context == NULL ==>
              var t := TryActivateScope(c, d).chain;
              r.outcome == Ok(hostContext)
              && r.chain == Chain(t.frames[d := t.frames[d].(context := hostContext)], d)
  {
    var t := TryActivateScope(c, d);
    if t.outcome.Panic? then Run(t.chain, t.events, Panic(t.outcome.fault))
    else
      var f := t.chain.frames[d];
      if f.context != NULL then Run(t.chain, t.events, Ok(f.context))
      else
        CacheContextWf(t.chain, hostContext);
        Run(CacheContext(t.chain, hostContext), t.events, Ok(hostContext))
  }

  /** The current record with `context` cached. */
  function CacheContext(c: Chain, context: Ptr): Chain
    requires c.top < |c.frames|
  {
    Chain(c.frames[c.top := c.frames[c.top].(context := context)], c.top)
  }

  /** Caching a context changes neither the invariant nor the open raw
      scopes. */
  lemma CacheContextWf(c: Chain, context: Ptr)
    requires Wf(c)
    ensures Wf(CacheContext(c, context))
    ensures OpenScopes(CacheContext(c, context)) == OpenScopes(c)
  {
    var c2 := CacheContext(c, context);
    assert forall i :: 0 <= i <= c.top ==>
      c.frames[i].specific == c2.frames[i].specific && c.frames[i].escapeSlot == c2.frames[i].escapeSlot;
    SlotsKept(c.frames, c2.frames, c.top);
    assert SameKinds(c.frames, c2.frames, c.top);
    SameKindsViews(c.frames, c2.frames, c.top);
    assert StatusShape(c2.frames, c2.top);
  }

  /** `HandleScope::get_current_context`: the context as a local handle,
      which must not be null. */
  function CurrentContext(c: Chain, d: nat, hostContext: Ptr): (r: Run<Ptr>)
    requires Touchable(c, d)
    ensures Wf(r.chain) && r.chain == GetCurrentContext(c, d, hostContext).chain
    ensures r.outcome.Ok? ==> r.outcome.value != NULL
    ensures r.outcome == Panic(NoContext) <==>
              GetCurrentContext(c, d, hostContext).outcome == Ok(NULL)
  {
    var g := GetCurrentContext(c, d, hostContext);
    if g.outcome.Ok? && g.outcome.value == NULL then Run(g.chain, g.events, Panic(NoContext))
    else g
  }

  /** `cast_local`: `get_mut` on the scope, after which the engine allocates
      the new local in its current raw handle scope. */
  function CastLocal(c: Chain, d: nat): (r: Run<HandleHome>)
    requires Touchable(c, d)
    ensures Wf(r.chain)
    ensures Replay(OpenScopes(c), r.events) == Some(OpenScopes(r.chain))
    ensures r.outcome.Ok? <==> Activatable(c, d)
    ensures r.outcome.Panic? ==> r.outcome.fault == ActiveScopeDropped
    ensures r.outcome.Ok? ==>
              r.chain.top == d && r.outcome.value == InnermostHandleScope(c.frames, d)
              && LocalAlive(r.chain, r.outcome.value)
  {
    var t := TryActivateScope(c, d);
    if t.outcome.Panic? then Run(t.chain, t.events, Panic(t.outcome.fault))
    else
      assert SameKinds(c.frames, t.chain.frames, d);
      SameKindsViews(c.frames, t.chain.frames, d);
      Run(t.chain, t.events, Ok(InnermostHandleScope(t.chain.frames, d)))
  }

  /** Once a scope has been touched it is current, so a second `cast_local`
      on it changes nothing and finds the same handle scope. */
  lemma CastLocalTouched(c: Chain, d: nat)
    requires Touchable(c, d) && Activatable(c, d)
    ensures var t := TryActivateScope(c, d);
            && Touchable(t.chain, d)
            && CastLocal(t.chain, d).chain == t.chain
            && CastLocal(t.chain, d).events == []
            && CastLocal(t.chain, d).outcome == CastLocal(c, d).outcome
  {
    var t := TryActivateScope(c, d);
    CurrentIsActivatable(t.chain, d);
  }

  // ---------------------------------------------------------------------
  // The public scope constructors

  /** What a new scope is made from: the isolate itself, or a live scope. */
  datatype Parent = IsolateParent | ScopeParent(depth: nat)

  function ParentDepth(p: Parent): nat {
    match p
    case IsolateParent => 0
    case ScopeParent(d) => d
  }

  predicate ParentOk(c: Chain, p: Parent) {
    Wf(c) && (p.ScopeParent? ==> Touchable(c, p.depth))
  }

  /** `GetScopeData::get_scope_data_mut`: `get_root_mut` for an isolate,
      `get_mut` for a scope. */
  function GetScopeDataMut(c: Chain, p: Parent): (r: Run<nat>)
    requires ParentOk(c, p)
    ensures Wf(r.chain) && |r.chain.frames| == |c.frames|
    ensures Replay(OpenScopes(c), r.events) == Some(OpenScopes(r.chain))
    ensures r.outcome.Ok? <==> Activatable(c, ParentDepth(p))
    ensures r.outcome.Panic? ==> r.outcome.fault == ActiveScopeDropped
    ensures r.outcome.Ok? ==> r.outcome.value == ParentDepth(p) && r.chain.top == ParentDepth(p)
  {
    match p
    case IsolateParent => GetRootMut(c)
    case ScopeParent(d) => TryActivateScope(c, d)
  }

  /** Push a record for `req` on top of a touched parent. */
  function OpenOn(g: Run<nat>, c: Chain, req: ScopeRequest): (r: Run<nat>)
    requires Wf(g.chain) && RequestOk(req) && c.top < |c.frames| && g.chain.top < |g.chain.frames|
    requires Replay(OpenScopes(c), g.events) == Some(OpenScopes(g.chain))
    ensures Wf(r.chain) && r == Run(r.chain, r.events, Ok(g.chain.top + 1))
    ensures r.chain == NewScopeDataWith(g.chain, req).chain
    ensures Replay(OpenScopes(c), r.events) == Some(OpenScopes(r.chain))
  {
    var n := NewScopeDataWith(g.chain, req);
    ReplayConcat(OpenScopes(c), g.events, n.events);
    Run(n.chain, g.events + n.events, n.outcome)
  }

  /** `HandleScope::new`, `EscapableHandleScope::new` and `TryCatch::new`:
      touch the parent, then push the new scope's record on it. */
  function NewScope(c: Chain, p: Parent, req: ScopeRequest): (r: Run<nat>)
    requires ParentOk(c, p)
    requires req == HandleScopeRequest || req == EscapableHandleScopeRequest || req == TryCatchRequest
    requires p.IsolateParent? ==> req == HandleScopeRequest
    ensures Wf(r.chain)
    ensures Replay(OpenScopes(c), r.events) == Some(OpenScopes(r.chain))
    ensures r.outcome.Ok? <==> Activatable(c, ParentDepth(p))
    ensures r.outcome.Panic? ==> r.outcome.fault == ActiveScopeDropped
    ensures r.outcome.Ok? ==>
              r.outcome.value == ParentDepth(p) + 1 && r.chain.top == ParentDepth(p) + 1
              && r.chain == NewScopeDataWith(GetScopeDataMut(c, p).chain, req).chain
  {
    var g := GetScopeDataMut(c, p);
    if g.outcome.Panic? then Run(g.chain, g.events, Panic(g.outcome.fault))
    else OpenOn(g, c, req)
  }

  /** `ContextScope::new`: touch the parent, refuse a context of another
      isolate (after the touch), then push a record that enters the
      context. */
  function ContextScopeNew(c: Chain, p: Parent, context: Ptr, contextIsolate: Ptr, isolate: Ptr): (r: Run<nat>)
    requires ParentOk(c, p) && p.ScopeParent? && context != NULL
    ensures Wf(r.chain)
    ensures Replay(OpenScopes(c), r.events) == Some(OpenScopes(r.chain))
    ensures !Activatable(c, ParentDepth(p)) ==> r.outcome == Panic(ActiveScopeDropped)
    ensures Activatable(c, ParentDepth(p)) && contextIsolate != isolate ==>
              r.outcome == Panic(ContextIsolateMismatch) && r.chain.top == ParentDepth(p)
    ensures r.outcome.Ok? <==> Activatable(c, ParentDepth(p)) && contextIsolate == isolate
    ensures r.outcome.Ok? ==>
              r.outcome.value == ParentDepth(p) + 1 && r.chain.top == ParentDepth(p) + 1
              && r.chain.frames[r.chain.top].specific == ContextScopeData(context)
              && r.chain.frames[r.chain.top].context == context
  {
    var g := GetScopeDataMut(c, p);
    if g.outcome.Panic? then Run(g.chain, g.events, Panic(g.outcome.fault))
    else if isolate != contextIsolate then Run(g.chain, g.events, Panic(ContextIsolateMismatch))
    else OpenOn(g, c, ContextScopeRequest(context))
  }

  /** `CallbackScope::new`: no touch (the current record may be a zombie);
      push a record whose context cache is the callback's context, if any. */
  function CallbackScopeNew(c: Chain, maybeContext: Ptr): (r: Run<nat>)
    requires Wf(c)
    ensures Wf(r.chain) && r.outcome == Ok(c.top + 1) && r.chain.top == c.top + 1
    ensures r.chain.frames[r.chain.top].context == maybeContext
    ensures r.chain.frames[r.chain.top].specific == NoData
    ensures r.events == []
    ensures Replay(OpenScopes(c), r.events) == Some(OpenScopes(r.chain))
  {
    NewScopeDataWith(c, CallbackScopeRequest(maybeContext))
  }

  // ---------------------------------------------------------------------
  // The walks of `try_exit_scope` and `get_root_mut`, one record at a time

  /** `try_exit_scope` from `start` is the raw calls `done` already made,
      followed by `try_exit_scope` from `c`. */
  ghost predicate ExitWalk(start: Chain, d: nat, c: Chain, done: seq<RawEvent>) {
    && Wf(start) && 0 < d <= start.top && Wf(c) && d <= c.top
    && var r := TryExitScope(c, d);
       var whole := TryExitScope(start, d);
       whole.chain == r.chain && whole.events == done + r.events && whole.outcome == r.outcome
  }

  /** A live current record ends the walk with a panic. */
  lemma ExitWalkEnd(start: Chain, d: nat, c: Chain, done: seq<RawEvent>)
    requires ExitWalk(start, d, c, done) && !Zombie(c.frames[c.top].status)
    ensures TryExitScope(start, d) == Run(c, done, Panic(ActiveScopeDropped))
  {
    assert TryExitScope(c, d) == Run(c, [], Panic(ActiveScopeDropped));
    assert done + [] == done;
  }

  /** A zombie current record is exited; at depth `d` that ends the walk. */
  lemma ExitWalkStep(start: Chain, d: nat, c: Chain, done: seq<RawEvent>)
    requires ExitWalk(start, d, c, done) && Zombie(c.frames[c.top].status)
    ensures var e := ExitScope(c);
      && (c.top == d ==>
            TryExitScope(start, d) == Run(e.chain, done + e.events, e.outcome))
      && (c.top != d ==> ExitWalk(start, d, e.chain, done + e.events))
  {
    var e := ExitScope(c);
    TryExitZombie(c, d);
    if c.top != d {
      ExitWalkAppend(start, d, c, done, e.chain, e.events);
    }
  }

  lemma ExitWalkAppend(start: Chain, d: nat, c: Chain, done: seq<RawEvent>, c2: Chain, ev: seq<RawEvent>)
    requires ExitWalk(start, d, c, done) && Wf(c2) && d <= c2.top
    requires var r := TryExitScope(c2, d);
      TryExitScope(c, d) == Run(r.chain, ev + r.events, r.outcome)
    ensures ExitWalk(start, d, c2, done + ev)
  {
    var r := TryExitScope(c2, d);
    var t := TryExitScope(c, d);
    assert t.events == ev + r.events;
    EventsAssoc(done, ev, r.events);
  }

  /** `get_root_mut` from `start` is the raw calls `done` already made,
      followed by `get_root_mut` from `c`. */
  ghost predicate RootWalk(start: Chain, c: Chain, done: seq<RawEvent>) {
    && Wf(start) && Wf(c)
    && var r := GetRootMut(c);
       var whole := GetRootMut(start);
       whole.chain == r.chain && whole.events == done + r.events && whole.outcome == r.outcome
  }

  /** The walk ends once the root is current. */
  lemma RootWalkDone(start: Chain, c: Chain, done: seq<RawEvent>)
    requires RootWalk(start, c, done) && c.top == 0
    ensures GetRootMut(start).chain == c && GetRootMut(start).events == done
    ensures GetRootMut(start).outcome == Ok(0)
  {
    RootMutUnfold(c);
    assert done + [] == done;
  }

  /** `get_root_mut` works one record at a time: `try_exit_scope` on the
      current record either panics, ending the walk, or exits it. */
  lemma RootWalkStep(start: Chain, c: Chain, done: seq<RawEvent>)
    requires RootWalk(start, c, done) && 0 < c.top
    ensures var t := TryExitScope(c, c.top);
      && (t.outcome.Panic? ==> GetRootMut(start) == Run(t.chain, done + t.events, t.outcome))
      && (t.outcome.Ok? ==> RootWalk(start, t.chain, done + t.events) && t.chain.top < c.top)
  {
    if !Zombie(c.frames[c.top].status) {
      RootWalkLive(start, c, done);
    } else if c.top == 1 {
      RootWalkLast(start, c, done);
    } else {
      RootWalkZombie(start, c, done);
    }
  }

  lemma RootWalkLive(start: Chain, c: Chain, done: seq<RawEvent>)
    requires RootWalk(start, c, done) && 0 < c.top && !Zombie(c.frames[c.top].status)
    ensures TryExitScope(c, c.top) == Run(c, [], Panic(ActiveScopeDropped))
    ensures GetRootMut(start) == Run(c, done, Panic(ActiveScopeDropped))
  {
    RootMutUnfold(c);
    TryExitLive(c, 1);
    TryExitLive(c, c.top);
    assert done + [] == done;
  }

  lemma RootWalkLast(start: Chain, c: Chain, done: seq<RawEvent>)
    requires RootWalk(start, c, done) && c.top == 1 && Zombie(c.frames[c.top].status)
    ensures var t := TryExitScope(c, c.top);
      t.outcome.Ok? && RootWalk(start, t.chain, done + t.events)
  {
    var t := TryExitScope(c, c.top);
    RootMutUnfold(c);
    TryExitZombie(c, 1);
    var e := ExitScope(c);
    assert t == e && e.chain.top == 0;
    RootMutUnfold(e.chain);
    assert GetRootMut(e.chain).events == [];
    assert done + e.events == (done + e.events) + [];
  }

  lemma RootWalkZombie(start: Chain, c: Chain, done: seq<RawEvent>)
    requires RootWalk(start, c, done) && 1 < c.top && Zombie(c.frames[c.top].status)
    ensures var t := TryExitScope(c, c.top);
      t.outcome.Ok? && RootWalk(start, t.chain, done + t.events) && t.chain.top < c.top
  {
    var e := ExitScope(c);
    TryExitZombie(c, c.top);
    RootMutZombie(c);
    RootWalkAppend(start, c, done, e.chain, e.events);
  }

  /** Exiting a zombie above the root is the first step of `get_root_mut`. */
  lemma RootMutZombie(c: Chain)
    requires Wf(c) && 1 < c.top && Zombie(c.frames[c.top].status)
    ensures var e := ExitScope(c);
      var r := GetRootMut(e.chain);
      GetRootMut(c) == Run(r.chain, e.events + r.events, r.outcome)
  {
    var e := ExitScope(c);
    RootMutUnfold(c);
    TryExitZombie(c, 1);
    RootMutUnfold(e.chain);
  }

  lemma RootWalkAppend(start: Chain, c: Chain, done: seq<RawEvent>, c2: Chain, ev: seq<RawEvent>)
    requires RootWalk(start, c, done) && Wf(c2)
    requires var r := GetRootMut(c2);
      GetRootMut(c) == Run(r.chain, ev + r.events, r.outcome)
    ensures RootWalk(start, c2, done + ev)
  {
    var r := GetRootMut(c2);
    var t := GetRootMut(c);
    assert t.events == ev + r.events;
    EventsAssoc(done, ev, r.events);
  }

  /** One unfolding of `GetRootMut`.  This lemma and the `...Unfold`,
      `TryExitLive` and `TryExitZombie` lemmas below each expose one step of
      a function's definition, so that the method proofs of
      `ScopeDataStack` see that step without unfolding the function's whole
      body, and its contract, at every call site. */
  lemma RootMutUnfold(c: Chain)
    requires Wf(c)
    ensures c.top == 0 ==> GetRootMut(c) == Run(c, [], Ok(0))
    ensures 0 < c.top ==> GetRootMut(c) == TryExitScope(c, 1)
  {
  }

  /** `try_exit_scope` stops at once on a live current record. */
  lemma TryExitLive(c: Chain, d: nat)
    requires Wf(c) && 0 < d <= c.top && !Zombie(c.frames[c.top].status)
    ensures TryExitScope(c, d) == Run(c, [], Panic(ActiveScopeDropped))
  {
  }

  /** `try_exit_scope` exits a zombie current record and goes on below it. */
  lemma TryExitZombie(c: Chain, d: nat)
    requires Wf(c) && 0 < d <= c.top && Zombie(c.frames[c.top].status)
    ensures var e := ExitScope(c);
      && (c.top == d ==> TryExitScope(c, d) == e)
      && (c.top != d ==>
            var r := TryExitScope(e.chain, d);
            TryExitScope(c, d) == Run(r.chain, e.events + r.events, r.outcome))
  {
  }

  /** One unfolding of `NewScope`: touch the parent, then push. */
  lemma NewScopeUnfold(c: Chain, p: Parent, req: ScopeRequest)
    requires ParentOk(c, p)
    requires req == HandleScopeRequest || req == EscapableHandleScopeRequest || req == TryCatchRequest
    requires p.IsolateParent? ==> req == HandleScopeRequest
    ensures var g := GetScopeDataMut(c, p);
      && (g.outcome.Panic? ==> NewScope(c, p, req) == Run(g.chain, g.events, Panic(g.outcome.fault)))
      && (g.outcome.Ok? ==>
            var n := NewScopeDataWith(g.chain, req);
            NewScope(c, p, req) == Run(n.chain, g.events + n.events, n.outcome))
  {
  }

  /** One unfolding of `ContextScopeNew`: touch the parent, then push. */
  lemma ContextScopeNewUnfold(c: Chain, p: Parent, context: Ptr, contextIsolate: Ptr, isolate: Ptr)
    requires ParentOk(c, p) && p.ScopeParent? && context != NULL
    ensures var g := GetScopeDataMut(c, p);
      var r := ContextScopeNew(c, p, context, contextIsolate, isolate);
      && (g.outcome.Panic? ==> r == Run(g.chain, g.events, Panic(g.outcome.fault)))
      && (g.outcome.Ok? && isolate != contextIsolate ==>
            r == Run(g.chain, g.events, Panic(ContextIsolateMismatch)))
      && (g.outcome.Ok? && isolate == contextIsolate ==>
            var n := NewScopeDataWith(g.chain, ContextScopeRequest(context));
            r == Run(n.chain, g.events + n.events, n.outcome))
  {
  }

  /** One unfolding of `DropScope`: touch, then notify. */
  lemma DropScopeUnfold(c: Chain, d: nat)
    requires Touchable(c, d) && 0 < d
    ensures var t := TryActivateScope(c, d);
      && (t.outcome.Panic? ==> DropScope(c, d) == Run(t.chain, t.events, Panic(t.outcome.fault)))
      && (t.outcome.Ok? ==>
            var n := NotifyScopeDropped(t.chain);
            DropScope(c, d) == Run(n.chain, t.events + n.events, n.outcome))
  {
  }
}
