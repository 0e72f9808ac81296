# Scope stack, handle isolates and isolate parameters of the V8 Rust binding

This project models three parts of the Rust binding to the V8 JavaScript
engine and proves what they promise.

* **The scope stack** (`src/scope.rs`, modules `data` and `param`). Every
  isolate owns a chain of `ScopeData` records that starts at a root record.
  The record the isolate points at is `Current`, the records below it are
  `Shadowed`, and the records above it are `Free` and kept for reuse.
  Creating a scope (`HandleScope::new`, `EscapableHandleScope::new`,
  `ContextScope::new`, `TryCatch::new`, `CallbackScope::new`) first touches
  the parent. Touching exits any dropped handle scopes stacked on the
  parent (zombies), and panics if a live scope is in the way. It then
  pushes a record, reusing the free record above when there is one.
  Dropping a handle scope only marks it a zombie. Dropping any other scope
  exits it at once. `escape()` takes a one-shot escape slot that nested
  scopes share. `get_current_context` caches the context.
  * `ScopeChain` states all of this as functions over
    `Chain(frames, top)`. Record `i`'s `previous` is record `i - 1`.
    Panics are `Outcome.Panic` values that carry the state reached at the
    panic. The raw V8 calls become `RawEvent`s. `Replay` checks that these
    events open and close raw scopes in last-in first-out order.
  * `ScopeDataStack.Isolate` is the imperative version. It is a class with
    the record chain, the current-record pointer and a ghost trace of raw
    calls. Its methods update these in place, and `try_exit_scope` and
    `get_root_mut` keep their loops. Each method is proved to reach the
    state, raw calls and result of its `ScopeChain` function.
  * `ScopeParam` models the `param` trait table. The table gives the type
    of scope created from a given parent type.
* **Handle isolates** (`src/handle.rs`, module `Handles`).
  * `HostIsolate` and its operations.
  * `get_raw_info` for locals and globals.
  * The isolate checks in `Local::new` and `Global::get`.
  * Handle equality, and `Global::new`, `clone` and `drop`.
* **Isolate creation parameters** (`src/isolate_create_params.rs`, module
  `IsolateCreateParams`). These are the builder methods of `CreateParams`.
  The main one is the classification and normalisation of the external
  references list.

## Model

| member | source | states |
|---|---|---|
| ScopeParam.NewScope | src/scope.rs:582-700 | Whatever the parent, a `HandleScope` can be created in it and is a plain or escapable handle scope. A new escapable scope is always escapable. The child is a `ContextScope` exactly when one was requested. |
| ScopeParam.NewScopeDefined | src/scope.rs:582-700 | Every scope type has a rule for every kind of child, and a bare isolate has one only for `HandleScope`. Every result is a well-formed scope type: a `ContextScope` wraps a handle scope that has a context, and a `TryCatch` wraps a handle scope. |
| ScopeParam.ContextScopeErased | src/scope.rs:622-682 | Creating a handle scope, escapable scope or `TryCatch` inside a `ContextScope` gives the same type as creating it inside the wrapped scope. |
| ScopeParam.TryCatchErased | src/scope.rs:600-670 | Creating a context, handle or escapable scope inside a `TryCatch` gives the same type as creating it inside the scope the `TryCatch` wraps. |
| ScopeParam.ContextNeverLost | src/scope.rs:586-608 | A child of a scope that has a context has one too, and a new `ContextScope` always has one. |
| ScopeParam.NewScopeHandleLifetime | src/scope.rs:610-644 | A new handle or escapable scope makes locals of its own lifetime. A new `ContextScope` or `TryCatch` keeps the parent's handle lifetime. |
| ScopeParam.NewScopeEscapeTarget | src/scope.rs:646-674 | A new escapable scope escapes into its parent's handle lifetime. Any other child keeps the parent's escape target, so a handle scope inside an escapable one is escapable with the same target. |
| ScopeParam.NewScopeExceptionAccess | src/scope.rs:676-700 | The result is a `TryCatch` exactly when a `TryCatch` was requested. |
| ScopeParam.CapabilitiesMonotone | src/scope.rs:582-700 | A child keeps every capability of its parent except exception inspection, and can always create handles. |
| ScopeParam.BuildKeepsCapabilities | src/scope.rs:582-700 | The same holds for any sequence of nested scope creations, by induction. |
| ScopeParam.NewScopeTypesInstances | src/scope.rs:1531-1675 | The concrete types asserted by the `new_scope_types` test. |
| ScopeParam.TryCatchCapabilityHidden | src/scope.rs:51-59 | A handle scope created inside a `TryCatch` no longer gives access to the caught exception. |
| ScopeChain.ExitScope | src/scope.rs:1035-1057 | The current record loses its type-specific data and becomes `Free`. Its raw destructor runs, which closes the innermost raw scope. The parent goes from `Shadowed{z}` to `Current{z}` with the same zombie flag. No other record changes, and the chain stays well formed. |
| ScopeChain.NewScopeDataWith | src/scope.rs:920-974 | The parent goes from `Current{z}` to `Shadowed{z}`. The record above it is reused (it is free and empty), or one is appended. That record becomes current and live. The chain grows only when there was no free record, records above the child are untouched, and the raw calls open exactly the child's raw scope. |
| ScopeProperties.PushInherits | src/scope.rs:833-951 | The new record inherits the parent's context and escape slot, except that a context scope or callback scope sets its own context and an escapable scope points the slot at itself. Its type-specific data is that of the requested kind. An escapable scope's slot is allocated in the handle scope current at the parent. That is the parent's nearest handle scope, or the one V8 opened around a callback when a callback scope comes first. |
| ScopeProperties.PushThenExitRestores | src/scope.rs:920-951 | Pushing a scope and then exiting it restores every record up to the parent and the set of open raw scopes. The pushed record is left `Free`, and the raw calls pair up in last-in first-out order. |
| ScopeChain.TryExitScope | src/scope.rs:1020-1033 | The walk keeps the chain well formed and its number of records, and leaves the current record between `d - 1` and the old top. |
| ScopeChain.TryExitScopeSpec | src/scope.rs:1020-1033 | `try_exit_scope` from depth `d` succeeds exactly when every record from `d` up is a zombie, and then leaves `d - 1` current. Otherwise it panics with `ActiveScopeDropped`, leaving the highest live record current. Only records above the new current one are exited, their destructors run innermost first, and the raw calls close raw scopes in last-in first-out order. |
| ScopeChain.TryActivateScope | src/scope.rs:1005-1018 | Touching a live scope succeeds exactly when every record above it is a zombie. It then makes the scope current and live, and exits exactly the records above it. Otherwise it panics with `ActiveScopeDropped`. Records below the scope never change. |
| ScopeChain.GetRootMut | src/scope.rs:815-825 | Unwinding to the root succeeds exactly when every record above the root is a zombie, and then leaves the root current. Otherwise it panics. The raw calls close what the exited records held. |
| ScopeProperties.RootHasNothingOpen | src/scope.rs:815-832 | Once the root is current again, no raw scope is left open. |
| ScopeChain.NotifyScopeDropped | src/scope.rs:1078-1095 | A dropped handle or escapable scope only becomes `Current{zombie: true}`, with no raw call. Any other kind is exited at once. |
| ScopeChain.DropScope | src/scope.rs:529-545 | Dropping a scope touches it first. This panics exactly when a live scope is stacked on it. A handle scope is then left as a zombie with its data and the records below it untouched, and only the touch makes raw calls. Any other scope is exited from the touched chain: the chain is that of `ExitScope` on it, and the raw calls are the touch's followed by the scope's own teardown. |
| ScopeProperties.DroppedHandleScopeLingers | src/scope.rs:1059-1095 | A dropped handle scope stays on the stack as a zombie. No raw call is made, and its locals stay usable. |
| ScopeProperties.ParentTouchExitsZombie | src/scope.rs:1005-1033 | The parent of a dropped handle scope can still be touched. Touching it destroys that raw handle scope and nothing else. The parent is restored exactly as it was, and the zombie's locals stop being usable. |
| ScopeProperties.OtherScopesExitAtOnce | src/scope.rs:1078-1095 | Dropping a context scope, `TryCatch` or callback scope exits it immediately, runs its destructor and restores the open raw scopes. |
| ScopeProperties.ExitScopeLocals | src/scope.rs:1035-1057 | After an exit, a local is usable exactly when it was usable before and does not belong to the exited record. A handle-scope record takes its own handle scope with it. A callback record takes the handle scope V8 opened around the callback. |
| ScopeChain.Escape | src/scope.rs:223-237 | `escape()` panics with `ActiveScopeDropped` if the scope cannot be touched, and with the "no escape slot" fault if no escape slot is inherited. It panics with the "called twice" fault if the slot was already taken. Otherwise it takes the slot of the nearest escapable scope and returns the handle scope the slot lives in. |
| ScopeProperties.CallbackLocalsDieWithCallback | src/scope.rs:61-63 | A local made through a new `CallbackScope` lives in the handle scope V8 opened around the callback, even when Rust handle scopes lie below. That scope is open while the callback scope lives, and the local is dead once the callback scope is dropped. |
| ScopeProperties.EscapeTargetsParentHandleScope | src/scope.rs:864-888 | An escaped local lives in the handle scope that was current below the escapable scope when it was opened, which is still open. That is a Rust handle scope or a callback's handle scope, and it belongs to a record strictly below the escapable one. |
| ScopeProperties.EscapeOnlyOnce | src/scope.rs:223-237 | A second `escape()` on the same scope panics with the "called twice" fault. |
| ScopeProperties.EscapeCalledTwicePanics | src/scope.rs:223-237 | Any scope that shares the same slot also panics on a later `escape()`, because nested scopes copy the slot pointer. |
| ScopeChain.GetCurrentContext | src/scope.rs:1109-1130 | Returns the cached context, or the host's current context, which is then cached in the touched record. |
| ScopeProperties.ContextCacheSticks | src/scope.rs:1109-1130 | Once a non-null context is cached, later calls return it without consulting the host and change nothing. |
| ScopeChain.CurrentContext | src/scope.rs:146-151 | `HandleScope::get_current_context` panics exactly when the context is null, and otherwise returns it. |
| ScopeChain.CastLocal | src/scope.rs:186-191 | After a successful touch, a new local is placed in the handle scope V8 is using at the scope, which is open. That is the one of the nearest handle-scope record at or below it, or, when a callback record comes first, the one V8 opened around that callback. |
| ScopeChain.GetScopeDataMut | src/scope.rs:1240-1262 | From an isolate this is `get_root_mut`, and from a scope it is `get_mut`. It succeeds exactly when nothing live is stacked above, and leaves the parent current. |
| ScopeChain.NewScope | src/scope.rs:137-144 | `HandleScope::new`, `EscapableHandleScope::new` and `TryCatch::new` succeed exactly when the parent can be touched, and a bare isolate is only given a `HandleScope`. They push the new record on top of the parent, and the raw calls keep last-in first-out order. |
| ScopeChain.ContextScopeNew | src/scope.rs:103-117 | `ContextScope::new` takes a scope, never a bare isolate. It panics with `ContextIsolateMismatch` when the context belongs to another isolate. Otherwise it pushes a record that enters the context and caches it. |
| ScopeChain.CallbackScopeNew | src/scope.rs:419-425 | `CallbackScope::new` pushes without touching, makes no raw call, and caches the context it is given. |
| ScopeDataStack.Isolate.constructor | src/scope.rs:797-805 | An isolate starts with no scope records and no raw calls made. |
| ScopeDataStack.Isolate.NewRoot | src/scope.rs:797-805 | `new_root` creates the root as `Current{zombie: false}` when no current record exists. |
| ScopeDataStack.Isolate.GetCurrentMut | src/scope.rs:782-795 | Returns the current record, which is `Current`. |
| ScopeDataStack.Isolate.ExitScope | src/scope.rs:1035-1057 | In-place `exit_scope`, proved equal to `ScopeChain.ExitScope`. |
| ScopeDataStack.Isolate.TryExitScope | src/scope.rs:1020-1033 | The loop of `try_exit_scope`, proved equal to `ScopeChain.TryExitScope` in chain, raw calls and outcome. |
| ScopeDataStack.Isolate.TryActivateScope | src/scope.rs:1005-1018 | In-place `try_activate_scope`, proved equal to `ScopeChain.TryActivateScope`. |
| ScopeDataStack.Isolate.GetRootMut | src/scope.rs:815-825 | The loop of `get_root_mut`, proved equal to `ScopeChain.GetRootMut`. |
| ScopeDataStack.Isolate.DropRoot | src/scope.rs:827-832 | `drop_root` unwinds to the root and then releases the whole chain, leaving no current record. It panics as `get_root_mut` does. |
| ScopeDataStack.Isolate.NewScopeDataWith | src/scope.rs:920-974 | In-place push, proved equal to `ScopeChain.NewScopeDataWith`. |
| ScopeDataStack.Isolate.NotifyScopeDropped | src/scope.rs:1078-1095 | In-place `notify_scope_dropped`, proved equal to `ScopeChain.NotifyScopeDropped`. |
| ScopeDataStack.Isolate.DropScope | src/scope.rs:529-545 | The `Drop` of every scope type, proved equal to `ScopeChain.DropScope`. |
| ScopeDataStack.Isolate.Escape | src/scope.rs:223-237 | In-place `escape()`, proved equal to `ScopeChain.Escape`. |
| ScopeDataStack.Isolate.GetCurrentContext | src/scope.rs:1109-1130 | In-place context lookup and cache, proved equal to `ScopeChain.GetCurrentContext`. |
| ScopeDataStack.Isolate.GetScopeDataMut | src/scope.rs:1240-1262 | Proved equal to `ScopeChain.GetScopeDataMut`. |
| ScopeDataStack.Isolate.NewScope | src/scope.rs:137-144 | Proved equal to `ScopeChain.NewScope`. |
| ScopeDataStack.Isolate.ContextScopeNew | src/scope.rs:103-117 | Proved equal to `ScopeChain.ContextScopeNew`, with the isolate's own address as the scope's isolate. |
| ScopeDataStack.Isolate.CallbackScopeNew | src/scope.rs:419-425 | Proved equal to `ScopeChain.CallbackScopeNew`. |
| Handles.MatchIsolateTable | src/handle.rs:269-279 | Two hosts match exactly when neither is disposed and two known isolates are the same. A scope-relative host matches any live host. |
| Handles.MatchIsolateSymmetric | src/handle.rs:269-279 | `match_isolate` is symmetric. |
| Handles.MatchIsolateReflexive | src/handle.rs:269-279 | Every host matches itself except `Disposed`, which does not even match `Disposed`. |
| Handles.ApplyScope | src/handle.rs:262-267 | `Scope` becomes the given isolate, and any other host is kept. The result is never `Scope`. |
| Handles.ApplyScopeIdempotent | src/handle.rs:262-267 | Applying a scope twice is applying it once. |
| Handles.ApplyScopeGivesPointer | src/handle.rs:262-286 | After `apply_scope`, a host has an isolate pointer exactly when it is not disposed. |
| Handles.GetIsolatePtr | src/handle.rs:281-286 | Gives a pointer exactly for a known non-null isolate. Otherwise it panics with "host Isolate for Handle not available". |
| Handles.GetIsolateHandle | src/handle.rs:288-290 | Succeeds exactly when `get_isolate_ptr` does, with a handle for that isolate. |
| Handles.GetRawInfo | src/handle.rs:190-226 | A local reports `Scope` and its data. A global reports `(null, Disposed)` exactly when its isolate is gone, and otherwise its data and isolate. |
| Handles.NewHost | src/handle.rs:258-260 | `HostIsolate::new` gives a host that is the isolate's own pointer. |
| Handles.LocalNew | src/handle.rs:64-81 | `Local::new` first touches the scope, because converting the scope to its isolate (`AsMut<Isolate>`, generated at src/scope.rs:436-440) goes through `get_mut`. It panics with `ActiveScopeDropped` exactly when the scope cannot be touched. Otherwise it fails its isolate assertion exactly when the handle is not usable in the scope's isolate. It returns a local exactly when the touch succeeds, the handle is usable and the engine returns a non-null address. The chain and raw calls are those of the touch alone, and a new local lives in the open handle scope that `ScopeChain.CastLocal` finds. For a callback scope that is the callback's own handle scope. |
| Handles.LocalNewCheck | src/handle.rs:64-72 | The isolate assertion of `Local::new` accepts exactly the handles usable in that isolate. |
| Handles.GlobalNew | src/handle.rs:133-146 | A global is created from any handle whose isolate is not disposed. It belongs to the handle's own isolate, or to the given isolate for a local. |
| Handles.GlobalGet | src/handle.rs:148-152 | `Global::get` returns the data exactly when the global belongs to the given isolate, and otherwise fails its assertion. |
| Handles.GlobalClone | src/handle.rs:155-168 | A clone has a new cell and the same isolate. Cloning a global of a disposed isolate panics. |
| Handles.GlobalDrop | src/handle.rs:171-183 | Dropping a global resets its cell exactly when its isolate has not been disposed. |
| Handles.GlobalRoundTrip | src/handle.rs:133-183 | A global made from a handle usable in an isolate can be read back there, and dropping it resets its cell. |
| Handles.HandlesEqual | src/handle.rs:228-248 | Equal handles have isolates that `match_isolate` accepts, non-null data and equal values. |
| Handles.HandlesEqualLive | src/handle.rs:228-248 | Handles of live isolates are equal exactly when their isolates are compatible and their values are equal. |
| Handles.DisposedGlobalEqualsNothing | src/handle.rs:228-248 | A global of a disposed isolate equals no handle, on either side. |
| IsolateCreateParams.BoxedHeader | src/isolate_create_params.rs:186-191 | The header points at the data and records its length. It panics on empty data (the index `data[0]`) and on a length above `INT_MAX`. |
| IsolateCreateParams.SnapshotBlob | src/isolate_create_params.rs:28-35 | The raw parameters point at the header, and both the data and the header are kept alive. It panics exactly when `boxed_header` does. |
| IsolateCreateParams.LastNonNull | src/isolate_create_params.rs:55-60 | The index found is that of the last non-zero entry: non-zero, with only zeros after it. There is none exactly when every entry is zero. |
| IsolateCreateParams.FirstNull | src/isolate_create_params.rs:61-65 | The index found is that of the first zero entry: zero, with only non-zero entries before it. There is none exactly when no entry is zero. |
| IsolateCreateParams.ExternalReferences | src/isolate_create_params.rs:51-89 | The setter's only panic is the unexpected-null one. On success it changes the raw external-references pointer and its allocation and nothing else. |
| IsolateCreateParams.ExternalReferencesPanics | src/isolate_create_params.rs:51-89 | The setter panics exactly when a zero comes before a later non-zero entry. |
| IsolateCreateParams.ExternalReferencesEmpty | src/isolate_create_params.rs:66-70 | An empty or all-zero list sets the pointer to null and keeps no allocation. |
| IsolateCreateParams.ExternalReferencesAppends | src/isolate_create_params.rs:71-78 | A list with no zero is copied with one `0` appended, and the pointer points at the copy. |
| IsolateCreateParams.ExternalReferencesKeeps | src/isolate_create_params.rs:79-84 | A list whose zeros all follow its non-zero entries is stored unchanged, trailing extra zeros included. |
| IsolateCreateParams.ExternalReferencesStored | src/isolate_create_params.rs:51-89 | Whatever is stored is null, or a kept list with no zero before its last non-zero entry and with a zero at the end. The raw pointer leads to it. |
| IsolateCreateParams.SettersKeepSnapshot | src/isolate_create_params.rs:93-115 | Each scalar setter and the external-references setter keep the snapshot blob and its allocations. |
| IsolateCreateParams.SetFallbackDefaults | src/isolate_create_params.rs:117-122 | The default allocator is installed only when none is set, and an allocator is always set afterwards. |
| IsolateCreateParams.FallbackDefaultsIdempotent | src/isolate_create_params.rs:117-128 | Applying the defaults twice is applying them once, and `finalize` keeps an explicitly set allocator. |
| IsolateCreateParams.ArrayBufferAllocator | src/isolate_create_params.rs:39-45 | The allocator is set to the one given, and every other field and allocation is kept. |
| IsolateCreateParams.AllowAtomicsWait | src/isolate_create_params.rs:93-96 | The flag is set to the value given, and every other field and allocation is kept. |
| IsolateCreateParams.OnlyTerminateInSafeScope | src/isolate_create_params.rs:99-102 | The flag is set to the value given, and every other field and allocation is kept. |
| IsolateCreateParams.EmbedderWrapperTypeInfoOffsets | src/isolate_create_params.rs:107-115 | Both offsets are set to the values given, and every other field and allocation is kept. |
| IsolateCreateParams.Finalize | src/isolate_create_params.rs:124-128 | The raw parameters always carry an allocator. They differ from the builder's raw parameters in the allocator field alone, and not at all if an allocator was already set. The allocations are handed over unchanged. |
| IsolateCreateParams.FinalizeKeepsAllocations | src/isolate_create_params.rs:117-128 | After `finalize`, the raw snapshot and external-reference pointers still lead to data the returned allocations own, whenever they did before. |

## Left out

- The `raw` module and the `extern "C"` declarations (src/scope.rs:1265-1447) are foreign calls into V8. Each raw constructor and destructor is a `RawEvent` in the run's event list. `Replay` states how these events may pair up. The TryCatch accessors (`has_caught`, `exception`, `message`, `stack_trace` and the rest) only call into V8 and are not modelled.
- `HandleScope::get_entered_or_microtask_context` and `throw_exception` only call into V8. `throw_exception` allocates through `cast_local`, which is modelled.
- `ScopeCast`, the `Layout` assertions, the scope-to-scope `impl_as!` and `impl_deref!` casts and `ScopeData::boxed` only reinterpret pointers. A record is modelled by its depth in the chain. Converting a scope to its `Isolate` is different: `AsMut<Isolate>` and `AsRef<Isolate>` (src/scope.rs:428-441, and the `Deref` to `Isolate` at line 518 that uses them) go through `ScopeData::get_mut` or `get`, so they touch the scope. The model includes that touch where `Local::new` makes it, in `Handles.LocalNew`. The other modelled operations that take an `&mut Isolate` (`Global::new`, `Global::get`) receive the isolate as a parameter, so a caller that converts a scope to get it has touched the scope before the call.
- The debug-build handshake in which `new_scope_data_with` sets the zombie flag and `as_scope` clears it is not modelled. The model follows release builds, where a new record starts live.
- Rust lifetimes and the borrow checker are not modelled. A local handle is tagged with the raw handle scope it lives in (`HandleHome`), and `LocalAlive` says when that scope is still open. A raw handle scope is named by the depth of the record that owns it. A callback record owns the handle scope V8 opened around the callback. `OuterHandleScope`, below the root, is only reached from the root record. If a later record of the same kind reuses that depth, `LocalAlive` counts an old local as usable again. In the source, lifetimes forbid using such a local.
- The `unreachable!()` branches on `Free` or zombie records, and the `unwrap` of a missing current record, are ruled out by preconditions (`Touchable`, `Wf`, `current.Some?`). The type system guarantees these in the source. Real panics are `Outcome.Panic` values.
- Pointers are natural numbers, with 0 as null. An `IsolateHandle` is modelled as the isolate pointer it reports, which is null once the isolate is disposed. The host's current context and the addresses the engine returns for new handles, cells and allocations are parameters.
- Handles.GlobalNew: like the source, it does not check that the handle's isolate is the isolate passed in.
- A reading in which every child scope offers every capability of its parent does not match the code. A handle scope created inside a `TryCatch` hides the exception accessors (src/scope.rs:57-59). The model follows the code: `CapabilitiesMonotone` excludes that one capability, and `TryCatchCapabilityHidden` exhibits it.
- The fields of V8's raw `CreateParams` that the builder never sets, and the `Default` constructor that fills them in V8, are not modelled. `new_default_allocator` is the `defaultAllocator` parameter of `SetFallbackDefaults`, and `Allocation::of` is the `at`/`copyAt` address parameters.
- `src/binding.cc`, the thin wrappers in the other `src/*.rs` files, `src/scope2.rs`, `src/lib.rs` and `tests/test_api.rs` are not part of this model.
