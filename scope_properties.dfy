/** Properties of the scope stack that relate several operations: the
    last-in first-out discipline, the deferred exit of dropped handle scopes,
    escaping at most once into the parent's handle scope, the context cache,
    and which local handles stay usable. */
module ScopeProperties {
  import opened Outcomes
  import opened ScopeChain

  /** Opening a scope and exiting it again gives back the stack it started
      from: the same current record with the same zombie flag, the same
      records below it, and every raw scope it opened closed again. */
  lemma PushThenExitRestores(c: Chain, req: ScopeRequest)
    requires Wf(c) && RequestOk(req)
    ensures var p := NewScopeDataWith(c, req);
      var e := ExitScope(p.chain);
      && e.chain.top == c.top
      && (forall i :: 0 <= i <= c.top ==> e.chain.frames[i] == c.frames[i])
      && e.chain.frames[c.top + 1].status == Free
      && OpenScopes(e.chain) == OpenScopes(c)
      && Replay(OpenScopes(c), p.events + e.events) == Some(OpenScopes(c))
  {
    var p := NewScopeDataWith(c, req);
    var e := ExitScope(p.chain);
    ReplayConcat(OpenScopes(c), p.events, e.events);
    assert SameKinds(c.frames, e.chain.frames, c.top);
    SameKindsViews(c.frames, e.chain.frames, c.top);
  }

  /** A new record inherits the parent's context cache and escape slot,
      except that a context scope or callback scope caches its own context
      and an escapable handle scope points at its own slot. */
  lemma PushInherits(c: Chain, req: ScopeRequest)
    requires Wf(c) && RequestOk(req)
    ensures var child := NewScopeDataWith(c, req).chain.frames[c.top + 1];
      var parent := c.frames[c.top];
      && child.context == (match req
                           case ContextScopeRequest(cx) => cx
                           case CallbackScopeRequest(cx) => cx
                           case _ => parent.context)
      && child.escapeSlot == (if req.EscapableHandleScopeRequest? then Some(c.top + 1)
                              else parent.escapeSlot)
      && child.specific == (match req
                            case ContextScopeRequest(cx) => ContextScopeData(cx)
                            case HandleScopeRequest => HandleScopeData
                            case EscapableHandleScopeRequest =>
                              EscapableHandleScopeData(Some(InnermostHandleScope(c.frames, c.top)))
                            case TryCatchRequest => TryCatchData
                            case CallbackScopeRequest(_) => NoData)
  {
  }

  /** Dropping a live handle scope does not exit it: the record stays on the
      stack as a zombie, no raw destructor runs, and locals made in it stay
      usable. */
  lemma DroppedHandleScopeLingers(c: Chain, req: ScopeRequest)
    requires Wf(c) && (req == HandleScopeRequest || req == EscapableHandleScopeRequest)
    ensures var p := NewScopeDataWith(c, req);
      var dr := DropScope(p.chain, c.top + 1);
      && dr.outcome.Ok? && dr.events == []
      && dr.chain.top == c.top + 1 && Zombie(dr.chain.frames[c.top + 1].status)
      && LocalAlive(dr.chain, FrameHandleScope(c.top + 1))
  {
    var p := NewScopeDataWith(c, req);
    var t := TryActivateScope(p.chain, c.top + 1);
    assert t.events == [];
  }

  /** Touching the parent of a lingering zombie handle scope exits exactly
      that scope: its raw handle scope is destructed, its locals die, and the
      parent is current again as it was. */
  lemma ParentTouchExitsZombie(c: Chain, req: ScopeRequest)
    requires Wf(c) && !Zombie(c.frames[c.top].status)
    requires req == HandleScopeRequest || req == EscapableHandleScopeRequest
    ensures var p := NewScopeDataWith(c, req);
      var dr := DropScope(p.chain, c.top + 1);
      && Touchable(dr.chain, c.top)
      && var t := TryActivateScope(dr.chain, c.top);
      && t.outcome == Ok(c.top)
      && t.events == [HandleScopeDestruct(c.top + 1)]
      && !LocalAlive(t.chain, FrameHandleScope(c.top + 1))
      && (forall i :: 0 <= i <= c.top ==> t.chain.frames[i] == c.frames[i])
  {
    var p := NewScopeDataWith(c, req);
    DroppedHandleScopeLingers(c, req);
    var dr := DropScope(p.chain, c.top + 1);
    TouchBelowZombie(c, dr.chain);
  }

  /** Touching the record just below a zombie handle scope at the top of `z`
      exits that one record, and leaves the records up to it as in `c`. */
  lemma TouchBelowZombie(c: Chain, z: Chain)
    requires Wf(c) && c.frames[c.top].status == Current(false)
    requires Wf(z) && z.top == c.top + 1 && Zombie(z.frames[c.top + 1].status)
    requires forall i :: 0 <= i < c.top ==> z.frames[i] == c.frames[i]
    requires z.frames[c.top] == c.frames[c.top].(status := Shadowed(false))
    ensures var t := TryActivateScope(z, c.top);
      && t.outcome == Ok(c.top)
      && t.events == [HandleScopeDestruct(c.top + 1)]
      && !LocalAlive(t.chain, FrameHandleScope(c.top + 1))
      && (forall i :: 0 <= i <= c.top ==> t.chain.frames[i] == c.frames[i])
  {
    var k := c.top;
    var t := TryActivateScope(z, k);
    assert Activatable(z, k);
    assert t.events == Teardowns(z.frames, k + 1, k + 1);
    assert Teardowns(z.frames, k + 1, k) == [];
    assert t.chain.frames[k] == c.frames[k];
  }

  /** Scopes that hold no local handles are exited the moment they are
      dropped, running their raw destructor. */
  lemma OtherScopesExitAtOnce(c: Chain, req: ScopeRequest)
    requires Wf(c) && RequestOk(req)
    requires !req.HandleScopeRequest? && !req.EscapableHandleScopeRequest?
    ensures var p := NewScopeDataWith(c, req);
      var dr := DropScope(p.chain, c.top + 1);
      && dr.outcome.Ok? && dr.chain.top == c.top
      && dr.events == Teardown(p.chain.frames[c.top + 1].specific, c.top + 1)
      && OpenScopes(dr.chain) == OpenScopes(c)
  {
    var p := NewScopeDataWith(c, req);
    var t := TryActivateScope(p.chain, c.top + 1);
    assert t.events == [];
    PushThenExitRestores(c, req);
  }

  /** Exiting the current record kills exactly the locals made in its own
      handle scope, or, for a callback record, in the handle scope V8
      opened around the callback; all others stay usable. */
  lemma ExitScopeLocals(c: Chain, h: HandleHome)
    requires Wf(c) && 0 < c.top
    ensures LocalAlive(ExitScope(c).chain, h) <==>
              LocalAlive(c, h) && h != FrameHandleScope(c.top) && h != CallbackHandleScope(c.top)
  {
  }

  /** A local made through a `CallbackScope` goes into the handle scope V8
      opened around the callback, whatever Rust handle scopes lie below it,
      and dies when the callback scope is dropped. */
  lemma CallbackLocalsDieWithCallback(c: Chain, cx: Ptr)
    requires Wf(c)
    ensures var p := CallbackScopeNew(c, cx);
      var k := c.top + 1;
      && Touchable(p.chain, k)
      && var cl := CastLocal(p.chain, k);
      && cl.outcome == Ok(CallbackHandleScope(k))
      && LocalAlive(cl.chain, CallbackHandleScope(k))
      && var dr := DropScope(p.chain, k);
      && dr.outcome.Ok?
      && !LocalAlive(dr.chain, CallbackHandleScope(k))
  {
    var p := CallbackScopeNew(c, cx);
    var k := c.top + 1;
    assert !Zombie(p.chain.frames[k].status);
    CurrentIsActivatable(p.chain, k);
  }

  /** An escaped value lands in the raw handle scope that was current when
      the escapable scope was opened: a handle scope strictly below the
      escapable record, so the value outlives it, and which is still open. */
  lemma EscapeTargetsParentHandleScope(c: Chain, d: nat)
    requires Touchable(c, d)
    ensures var r := Escape(c, d);
      r.outcome.Ok? ==>
        var j := c.frames[d].escapeSlot.value;
        && r.outcome.value == InnermostHandleScope(c.frames, j - 1)
        && (!r.outcome.value.OuterHandleScope? ==> r.outcome.value.depth < j)
        && LocalAlive(r.chain, r.outcome.value)
  {
    var r := Escape(c, d);
    if r.outcome.Ok? {
      var j := c.frames[d].escapeSlot.value;
      assert SlotHomed(c.frames, j);
      var t := TryActivateScope(c, d).chain;
      assert t.frames[j - 1].specific == c.frames[j - 1].specific;
    }
  }

  /** The escape slot is used at most once: after a successful `escape()`,
      escaping again through any live scope that shares that slot (the same
      scope included) panics with "called twice". */
  lemma EscapeCalledTwicePanics(c: Chain, d: nat, d2: nat)
    requires Touchable(c, d)
    requires Escape(c, d).outcome.Ok?
    requires Touchable(Escape(c, d).chain, d2)
    requires Activatable(Escape(c, d).chain, d2)
    requires Escape(c, d).chain.frames[d2].escapeSlot == c.frames[d].escapeSlot
    ensures Escape(Escape(c, d).chain, d2).outcome == Panic(EscapeCalledTwice)
  {
    var r := Escape(c, d);
    var j := c.frames[d].escapeSlot.value;
    assert SlotLinked(r.chain.frames, d2);
    var t := TryActivateScope(r.chain, d2);
    assert t.chain.frames[j] == r.chain.frames[j] || j == d2;
  }

  /** Escaping through the very scope that escaped before panics. */
  lemma EscapeOnlyOnce(c: Chain, d: nat)
    requires Touchable(c, d) && Escape(c, d).outcome.Ok?
    ensures Escape(Escape(c, d).chain, d).outcome == Panic(EscapeCalledTwice)
  {
    var r := Escape(c, d);
    assert r.chain.top == d;
    EscapeCalledTwicePanics(c, d, d);
  }

  /** Once the context cache is filled with a non-null context, later queries
      answer from it without asking the host and change nothing. */
  lemma ContextCacheSticks(c: Chain, d: nat, host1: Ptr, host2: Ptr)
    requires Touchable(c, d)
    requires GetCurrentContext(c, d, host1).outcome.Ok?
    requires GetCurrentContext(c, d, host1).outcome.value != NULL
    ensures var r := GetCurrentContext(c, d, host1);
      GetCurrentContext(r.chain, d, host2) == Run(r.chain, [], r.outcome)
  {
  }

  /** Returning to the root closes every raw scope the stack opened. */
  lemma RootHasNothingOpen(c: Chain)
    requires Wf(c) && GetRootMut(c).outcome.Ok?
    ensures OpenScopes(GetRootMut(c).chain) == []
  {
  }
}
