/** The scope stack as the source keeps it: fields of the isolate that its
    `data::ScopeData` methods update in place.  `frames` is the chain of
    `ScopeData` records hanging off the root (index = depth, see
    `ScopeChain`), `current` the isolate's current-scope-data pointer, and
    the ghost `trace` every raw V8 call made so far.  Each method is proved to
    leave the state that the matching `ScopeChain` function describes, whose
    own contracts and lemmas state what the source promises. */
module ScopeDataStack {
  import opened Outcomes
  import opened ScopeChain
  import ScopeProperties

  class Isolate {
    /** The isolate's own address (`ScopeData::isolate` of every record). */
    const addr: Ptr
    var frames: seq<ScopeData>
    var current: Option<nat>
    ghost var trace: seq<RawEvent>

    /** With a root, the chain is well formed and the raw calls made so far
        leave open exactly the raw scopes its records hold; without one, there
        are no records and nothing is left open. */
    ghost predicate Valid()
      reads this
    {
      match current
      case None => frames == [] && Replay([], trace) == Some([])
      case Some(top) =>
        Wf(Chain(frames, top)) && Replay([], trace) == Some(OpenScopes(Chain(frames, top)))
    }

    function Stack(): Chain
      reads this
      requires current.Some?
    {
      Chain(frames, current.value)
    }

    constructor(addr: Ptr)
      ensures Valid() && this.addr == addr && current == None && trace == []
    {
      this.addr := addr;
      frames := [];
      current := None;
      trace := [];
    }

    /** Record that the raw calls `events` were made, taking the chain from
        `before` to the current state. */
    ghost method Record(before: Chain, events: seq<RawEvent>)
      requires current.Some? && Wf(Stack()) && Wf(before)
      requires Replay([], trace) == Some(OpenScopes(before))
      requires Replay(OpenScopes(before), events) == Some(OpenScopes(Stack()))
      modifies this
      ensures Valid() && trace == old(trace) + events
      ensures frames == old(frames) && current == old(current)
    {
      ReplayConcat([], trace, events);
      trace := trace + events;
    }

    /** `new_root`: the first record, current and live. */
    method NewRoot()
      requires Valid() && current.None?
      modifies this
      ensures Valid() && frames == [Boxed.(status := Current(false))] && current == Some(0)
      ensures trace == old(trace)
    {
      frames := [Boxed.(status := Current(false))];
      current := Some(0);
      assert OpenScopes(Stack()) == [];
    }

    /** `get_current_mut`: the current record, which may be a zombie. */
    method GetCurrentMut() returns (d: nat)
      requires Valid() && current.Some?
      ensures current == Some(d) && frames[d].status.Current?
    {
      d := current.value;
    }

    /** `exit_scope` on the current record. */
    method ExitScope() returns (d: nat)
      requires Valid() && current.Some? && 0 < current.value
      modifies this
      ensures Valid() && current.Some?
      ensures var r := ScopeChain.ExitScope(old(Stack()));
        Stack() == r.chain && r.outcome == Ok(d) && trace == old(trace) + r.events
    {
      ghost var before := Stack();
      var top := current.value;
      var f := frames[top];
      frames := frames[top := f.(status := Free, specific := NoData)];
      var p := frames[top - 1];
      frames := frames[top - 1 := p.(status := Current(Zombie(p.status)))];
      current := Some(top - 1);
      d := top - 1;
      assert Stack() == ScopeChain.ExitScope(before).chain;
      Record(before, Teardown(f.specific, top));
    }

    /** `try_exit_scope` on the record at depth `d`: exit zombies from the top
        down to `d`, stopping with a panic at the first live record. */
    method TryExitScope(d: nat) returns (res: Outcome<nat, Fault>)
      requires Valid() && current.Some? && 0 < d <= current.value
      modifies this
      ensures Valid() && current.Some?
      ensures var r := ScopeChain.TryExitScope(old(Stack()), d);
        Stack() == r.chain && res == r.outcome && trace == old(trace) + r.events
    {
      ghost var start := Stack();
      ghost var done: seq<RawEvent> := [];
      while true
        invariant Valid() && current.Some?
        invariant trace == old(trace) + done
        invariant ExitWalk(start, d, Stack(), done)
        decreases current.value
      {
        if !Zombie(frames[current.value].status) {
          ExitWalkEnd(start, d, Stack(), done);
          return Panic(ActiveScopeDropped);
        }
        var top := current.value;
        var below;
        below, done := ExitZombie(start, d, old(trace), done);
        if top == d {
          return Ok(below);
        }
      }
    }

    /** One step of `try_exit_scope`: exit the zombie current record. */
    method ExitZombie(ghost start: Chain, d: nat, ghost base: seq<RawEvent>, ghost done: seq<RawEvent>)
      returns (below: nat, ghost done': seq<RawEvent>)
      requires Valid() && current.Some? && trace == base + done
      requires ExitWalk(start, d, Stack(), done) && Zombie(frames[current.value].status)
      modifies this
      ensures Valid() && current.Some? && trace == base + done'
      ensures below == current.value == old(current.value) - 1
      ensures old(current.value) == d ==> var r := ScopeChain.TryExitScope(start, d);
        Stack() == r.chain && r.outcome == Ok(below) && done' == r.events
      ensures old(current.value) != d ==> ExitWalk(start, d, Stack(), done')
    {
      ghost var cur := Stack();
      below := ExitScope();
      ghost var e := ScopeChain.ExitScope(cur);
      assert Stack() == e.chain;
      ExitWalkStep(start, d, cur, done);
      EventsAssoc(base, done, e.events);
      done' := done + e.events;
    }

    /** `try_activate_scope` on the record at depth `d` (`get`/`get_mut`). */
    method TryActivateScope(d: nat) returns (res: Outcome<nat, Fault>)
      requires Valid() && current.Some? && Touchable(Stack(), d)
      modifies this
      ensures Valid() && current.Some?
      ensures var r := ScopeChain.TryActivateScope(old(Stack()), d);
        Stack() == r.chain && res == r.outcome && trace == old(trace) + r.events
    {
      if frames[d].status.Current? {
        assert trace == old(trace) + [];
        return Ok(d);
      }
      res := TryExitScope(d + 1);
    }

    /** `get_root_mut`: exit scopes until the root is current. */
    method GetRootMut() returns (res: Outcome<nat, Fault>)
      requires Valid() && current.Some?
      modifies this
      ensures Valid() && current.Some?
      ensures var r := ScopeChain.GetRootMut(old(Stack()));
        Stack() == r.chain && res == r.outcome && trace == old(trace) + r.events
    {
      ghost var start := Stack();
      ghost var done: seq<RawEvent> := [];
      while current.value != 0
        invariant Valid() && current.Some?
        invariant trace == old(trace) + done
        invariant RootWalk(start, Stack(), done)
        decreases current.value
      {
        var r;
        r, done := ExitTopScope(start, old(trace), done);
        if r.Panic? {
          return r;
        }
      }
      RootWalkDone(start, Stack(), done);
      return Ok(0);
    }

    /** One step of `get_root_mut`: `try_exit_scope` on the current record,
        which exits it if it is a zombie and panics otherwise. */
    method ExitTopScope(ghost start: Chain, ghost base: seq<RawEvent>, ghost done: seq<RawEvent>)
      returns (res: Outcome<nat, Fault>, ghost done': seq<RawEvent>)
      requires Valid() && current.Some? && 0 < current.value && trace == base + done
      requires RootWalk(start, Stack(), done)
      modifies this
      ensures Valid() && current.Some? && trace == base + done'
      ensures res.Panic? ==> var r := ScopeChain.GetRootMut(start);
        Stack() == r.chain && res == r.outcome && done' == r.events
      ensures res.Ok? ==> RootWalk(start, Stack(), done') && current.value < old(current.value)
    {
      var top := current.value;
      ghost var cur := Stack();
      RootWalkStep(start, cur, done);
      if !Zombie(frames[top].status) {
        TryExitLive(cur, top);
        assert done + [] == done;
        return Panic(ActiveScopeDropped), done;
      }
      var below := ExitScope();
      ghost var e := ScopeChain.ExitScope(cur);
      TryExitZombie(cur, top);
      assert Stack() == e.chain;
      EventsAssoc(base, done, e.events);
      res, done' := Ok(below), done + e.events;
    }

    /** `drop_root`: return to the root and free the whole chain. */
    method DropRoot() returns (res: Outcome<(), Fault>)
      requires Valid() && current.Some?
      modifies this
      ensures Valid()
      ensures var g := ScopeChain.GetRootMut(old(Stack()));
        && (g.outcome.Ok? ==> res.Ok? && frames == [] && current == None)
        && (g.outcome.Panic? ==> res == Panic(g.outcome.fault) && current.Some? && Stack() == g.chain)
        && trace == old(trace) + g.events
    {
      var r := GetRootMut();
      if r.Panic? {
        return Panic(r.fault);
      }
      ScopeProperties.RootHasNothingOpen(old(Stack()));
      frames := [];
      current := None;
      return Ok(());
    }

    /** `new_scope_data_with` and `allocate_or_reuse_scope_data`, with the
        initialiser of the `new_*_data` method that `req` names. */
    method NewScopeDataWith(req: ScopeRequest) returns (d: nat)
      requires Valid() && current.Some? && RequestOk(req)
      modifies this
      ensures Valid() && current.Some?
      ensures var r := ScopeChain.NewScopeDataWith(old(Stack()), req);
        Stack() == r.chain && r.outcome == Ok(d) && trace == old(trace) + r.events
    {
      ghost var before := Stack();
      ghost var r := ScopeChain.NewScopeDataWith(before, req);
      var top := current.value;
      var parent := frames[top];
      var home := InnermostHandleScope(frames, top);
      var shadowed := frames[top := parent.(status := Shadowed(Zombie(parent.status)))];
      var next := if top + 1 < |frames| then frames[top + 1] else Boxed;
      next := next.(status := Current(false), context := parent.context, escapeSlot := parent.escapeSlot);
      var init := InitScope(next, req, top + 1, home);
      var pushed := if top + 1 < |shadowed| then shadowed[top + 1 := init.data] else shadowed + [init.data];
      assert pushed == Pushed(before, init.data);
      assert r == Run(Chain(pushed, top + 1), init.events, Ok(top + 1));
      frames := pushed;
      current := Some(top + 1);
      d := top + 1;
      Record(before, init.events);
    }

    /** `notify_scope_dropped` on the current record. */
    method NotifyScopeDropped()
      requires Valid() && current.Some? && 0 < current.value
      requires !Zombie(frames[current.value].status)
      modifies this
      ensures Valid() && current.Some?
      ensures var r := ScopeChain.NotifyScopeDropped(old(Stack()));
        Stack() == r.chain && trace == old(trace) + r.events
    {
      var top := current.value;
      if HasHandleScope(frames[top].specific) {
        frames := frames[top := frames[top].(status := Current(true))];
        assert trace == old(trace) + [];
        assert Stack() == ScopeChain.NotifyScopeDropped(old(Stack())).chain;
      } else {
        var _ := ExitScope();
      }
    }

    /** The `Drop` of every public scope: `get_mut`, then
        `notify_scope_dropped`. */
    method DropScope(d: nat) returns (res: Outcome<(), Fault>)
      requires Valid() && current.Some? && Touchable(Stack(), d) && 0 < d
      modifies this
      ensures Valid() && current.Some?
      ensures var r := ScopeChain.DropScope(old(Stack()), d);
        Stack() == r.chain && res == r.outcome && trace == old(trace) + r.events
    {
      ghost var c := Stack();
      ghost var t := ScopeChain.TryActivateScope(c, d);
      DropScopeUnfold(c, d);
      var a := TryActivateScope(d);
      if a.Panic? {
        return Panic(a.fault);
      }
      NotifyScopeDropped();
      EventsAssoc(old(trace), t.events, ScopeChain.NotifyScopeDropped(t.chain).events);
      res := Ok(());
    }

    /** `EscapableHandleScope::escape`: `get_mut`, then take the raw escape
        slot the record points to. */
    method Escape(d: nat) returns (res: Outcome<HandleHome, Fault>)
      requires Valid() && current.Some? && Touchable(Stack(), d)
      modifies this
      ensures Valid() && current.Some?
      ensures var r := ScopeChain.Escape(old(Stack()), d);
        Stack() == r.chain && res == r.outcome && trace == old(trace) + r.events
    {
      var a := TryActivateScope(d);
      if a.Panic? {
        return Panic(a.fault);
      }
      assert SlotLinked(frames, d);
      match frames[d].escapeSlot {
        case None =>
          return Panic(NoEscapeSlot);
        case Some(j) =>
          match frames[j].specific.rawEscapeSlot {
            case None =>
              return Panic(EscapeCalledTwice);
            case Some(home) =>
              ghost var touched := Stack();
              frames := frames[j := frames[j].(specific := EscapableHandleScopeData(None))];
              assert Stack() == TakeSlot(touched, j);
              return Ok(home);
          }
      }
    }

    /** `get_current_context` reached through `get`: the cached context, or
        the host's current one, which is then cached. */
    method GetCurrentContext(d: nat, hostContext: Ptr) returns (res: Outcome<Ptr, Fault>)
      requires Valid() && current.Some? && Touchable(Stack(), d)
      modifies this
      ensures Valid() && current.Some?
      ensures var r := ScopeChain.GetCurrentContext(old(Stack()), d, hostContext);
        Stack() == r.chain && res == r.outcome && trace == old(trace) + r.events
    {
      var a := TryActivateScope(d);
      if a.Panic? {
        return Panic(a.fault);
      }
      if frames[d].context != NULL {
        return Ok(frames[d].context);
      }
      ghost var touched := Stack();
      CacheContextWf(touched, hostContext);
      frames := frames[d := frames[d].(context := hostContext)];
      assert Stack() == CacheContext(touched, hostContext);
      return Ok(hostContext);
    }

    /** `GetScopeData::get_scope_data_mut`. */
    method GetScopeDataMut(p: Parent) returns (res: Outcome<nat, Fault>)
      requires Valid() && current.Some? && ParentOk(Stack(), p)
      modifies this
      ensures Valid() && current.Some?
      ensures var r := ScopeChain.GetScopeDataMut(old(Stack()), p);
        Stack() == r.chain && res == r.outcome && trace == old(trace) + r.events
    {
      match p {
        case IsolateParent => res := GetRootMut();
        case ScopeParent(d) => res := TryActivateScope(d);
      }
    }

    /** `HandleScope::new`, `EscapableHandleScope::new`, `TryCatch::new`. */
    method NewScope(p: Parent, req: ScopeRequest) returns (res: Outcome<nat, Fault>)
      requires Valid() && current.Some? && ParentOk(Stack(), p)
      requires req == HandleScopeRequest || req == EscapableHandleScopeRequest || req == TryCatchRequest
      requires p.IsolateParent? ==> req == HandleScopeRequest
      modifies this
      ensures Valid() && current.Some?
      ensures var r := ScopeChain.NewScope(old(Stack()), p, req);
        Stack() == r.chain && res == r.outcome && trace == old(trace) + r.events
    {
      ghost var c := Stack();
      ghost var gr := ScopeChain.GetScopeDataMut(c, p);
      NewScopeUnfold(c, p, req);
      var g := GetScopeDataMut(p);
      if g.Panic? {
        return Panic(g.fault);
      }
      var d := NewScopeDataWith(req);
      EventsAssoc(old(trace), gr.events, ScopeChain.NewScopeDataWith(gr.chain, req).events);
      return Ok(d);
    }

    /** `ContextScope::new`, with `contextIsolate` the isolate the context
        belongs to. */
    method ContextScopeNew(p: Parent, context: Ptr, contextIsolate: Ptr) returns (res: Outcome<nat, Fault>)
      requires Valid() && current.Some? && ParentOk(Stack(), p) && p.ScopeParent? && context != NULL
      modifies this
      ensures Valid() && current.Some?
      ensures var r := ScopeChain.ContextScopeNew(old(Stack()), p, context, contextIsolate, addr);
        Stack() == r.chain && res == r.outcome && trace == old(trace) + r.events
    {
      ghost var c := Stack();
      ghost var gr := ScopeChain.GetScopeDataMut(c, p);
      ContextScopeNewUnfold(c, p, context, contextIsolate, addr);
      var g := GetScopeDataMut(p);
      if g.Panic? {
        return Panic(g.fault);
      }
      if addr != contextIsolate {
        return Panic(ContextIsolateMismatch);
      }
      var d := NewScopeDataWith(ContextScopeRequest(context));
      EventsAssoc(old(trace), gr.events, ScopeChain.NewScopeDataWith(gr.chain, ContextScopeRequest(context)).events);
      return Ok(d);
    }

    /** `CallbackScope::new`: no touch of the current record. */
    method CallbackScopeNew(maybeContext: Ptr) returns (d: nat)
      requires Valid() && current.Some?
      modifies this
      ensures Valid() && current.Some?
      ensures var r := ScopeChain.CallbackScopeNew(old(Stack()), maybeContext);
        Stack() == r.chain && r.outcome == Ok(d) && trace == old(trace) + r.events
    {
      var _ := GetCurrentMut();
      d := NewScopeDataWith(CallbackScopeRequest(maybeContext));
    }
  }
}
