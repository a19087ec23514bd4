/** The public operations of the crate (`src/lib.rs`, `src/signal.rs`, `src/effect.rs`,
    `src/memo.rs`, `src/context.rs`), each a transition of the runtime.

    A `&Signal` or `&Scope` handle is its id, and a disposer closure is the scope id it
    would dispose. Operations that hand something back return it in `Out`. The closure
    given to an operation is a program of `State.Instr`, and `fuel` bounds its nesting.
    A handle that names nothing is reported as `Dangling`; Rust's lifetimes rule that
    case out.
 */
module Api {

  import opened Wrappers
  import opened State
  import opened Invariant
  import opened Engine
  import opened Trace
  import Arena
  import SlotMap
  import Context
  import Disposal

  /** A result with a value, or the error that ended the operation. */
  datatype Out<T> = Out(rt: Runtime, value: T) | Fail(error: Error)

  // ---------------------------------------------------------------- scopes

  /** `create_scope` (`src/lib.rs:104-119`): a new root scope with the setup closure run
      in it. The returned id stands for the disposer. */
  function CreateScope(rt: Runtime, fuel: nat, setup: seq<Instr>): (r: Out<ScopeId>)
    ensures r.Out? ==> r.value == |rt.scopes| && r.value < |r.rt.scopes| && Step(rt, r.rt)
  {
    var (rt1, s) := NewScope(rt, None);
    StepNewScope(rt, None);
    match Run(rt1, fuel, s, setup)
    case Err(x) => Fail(x)
    case Ok(rt2) => StepTrans(rt, rt1, rt2); Out(rt2, s)
  }

  /** The disposer `create_scope` returns: dispose the scope, then drop its box, which
      disposes it again. Every cleanup the scope held has been called afterwards. */
  function RootDisposer(rt: Runtime, fuel: nat, s: ScopeId): (r: Res)
    ensures r.Ok? ==> Step(rt, r.rt) && CleanupsDone(rt, s, r.rt.log)
  {
    Disposal.DropScopeDone(rt, fuel, s);
    DropScope(rt, fuel, s)
  }

  /** `create_scope_immediate` (`src/lib.rs:122-125`): create a scope, run the setup and
      call the disposer at once. */
  function CreateScopeImmediate(rt: Runtime, fuel: nat, setup: seq<Instr>): (r: Res)
    ensures r.Ok? ==> Step(rt, r.rt) && |rt.scopes| < |r.rt.scopes|
  {
    match CreateScope(rt, fuel, setup)
    case Fail(x) => Err(x)
    case Out(rt1, s) =>
      var r := RootDisposer(rt1, fuel, s);
      if r.Ok? then StepTrans(rt, rt1, r.rt); r else r
  }

  /** `Scope::create_child_scope` (`src/lib.rs:196-228`): a new scope whose parent is
      `parent`, registered in the parent's `child_scopes` under the returned key, with
      the setup closure run in it. */
  function CreateChildScope(rt: Runtime, fuel: nat, parent: ScopeId, setup: seq<Instr>)
    : (r: Out<(ScopeId, SlotMap.Key)>)
    ensures r.Out? ==> parent < |rt.scopes| && r.value.0 == |rt.scopes| && Step(rt, r.rt)
    ensures r.Out? ==> SlotMap.Valid(rt.scopes[parent].children) ==>
              SlotMap.Get(rt.scopes[parent].children, r.value.1).None?
  {
    if parent >= |rt.scopes| then Fail(Dangling)
    else
      var (rt1, child, key) := NewChildScope(rt, parent);
      StepNewChildScope(rt, parent);
      match Run(rt1, fuel, child, setup)
      case Err(x) => Fail(x)
      case Ok(rt2) => StepTrans(rt, rt1, rt2); Out(rt2, (child, key))
  }

  /** The disposer `create_child_scope` returns (`src/lib.rs:218-227`). It succeeds only
      if the key still names a child of the parent, and then every cleanup of that child
      has been called. */
  function ChildDisposer(rt: Runtime, fuel: nat, parent: ScopeId, key: SlotMap.Key): (r: Res)
    ensures r.Ok? ==> Step(rt, r.rt)
    ensures r.Ok? ==> parent < |rt.scopes|
                      && SlotMap.Get(rt.scopes[parent].children, key).Some?
                      && CleanupsDone(rt, SlotMap.Get(rt.scopes[parent].children, key).value, r.rt.log)
    ensures parent < |rt.scopes| && SlotMap.Get(rt.scopes[parent].children, key).None? ==>
              r == Err(Panic("called `Option::unwrap()` on a `None` value"))
  {
    var r := CallChildDisposer(rt, fuel, parent, key);
    if r.Ok? then
      var (children, removed) := SlotMap.Remove(rt.scopes[parent].children, key);
      var rt1 := SetScope(rt, parent, rt.scopes[parent].(children := children));
      Disposal.DropScopeDone(rt1, fuel, removed.value);
      ChildDisposerDone(rt, parent, children, removed.value, r.rt.log);
      r
    else r
  }

  /** The child's cleanups are the same before and after its key is removed. */
  lemma ChildDisposerDone(rt: Runtime, parent: ScopeId, children: SlotMap.SlotMap<ScopeId>,
                          child: ScopeId, log: seq<Event>)
    requires parent < |rt.scopes|
    requires CleanupsDone(SetScope(rt, parent, rt.scopes[parent].(children := children)), child, log)
    ensures CleanupsDone(rt, child, log)
  {
  }

  // ---------------------------------------------------------------- arena values

  /** `Scope::create_signal` (`src/lib.rs:130-133`): a new signal holding `v`, owned by
      the scope's arena and subscribed to by nobody. */
  function CreateSignal(rt: Runtime, scope: ScopeId, v: Value): (r: Out<SignalId>)
    ensures r.Out? <==> scope < |rt.scopes|
    ensures r.Out? ==> r.value == |rt.signals| && r.value < |r.rt.signals|
                       && r.rt.signals[r.value] == SignalCell(v, [])
    ensures r.Out? ==> scope < |r.rt.scopes| && SignalSlot(r.value) in r.rt.scopes[scope].arena.items
    ensures r.Out? ==> Step(rt, r.rt)
  {
    if scope >= |rt.scopes| then Fail(Dangling)
    else
      StepNewSignal(rt, scope, v);
      var (rt1, s) := NewSignal(rt, scope, v);
      Out(rt1, s)
  }

  /** `Scope::create_ref` (`src/lib.rs:156-159`): allocate a plain value on the arena;
      the reference reads it back. */
  function CreateRef(rt: Runtime, scope: ScopeId, v: Value): (r: Out<Arena.DataRef>)
    ensures r.Out? <==> scope < |rt.scopes|
    ensures r.Out? ==> scope < |rt.scopes| == |r.rt.scopes|
    ensures r.Out? ==> scope < |r.rt.scopes| && r.value.index < |r.rt.scopes[scope].arena.items|
                       && Arena.Deref(r.rt.scopes[scope].arena, r.value) == RefSlot(v)
    ensures r.Out? && scope < |rt.scopes| == |r.rt.scopes| ==>
              |rt.scopes[scope].arena.items| < |r.rt.scopes[scope].arena.items|
              && forall i | 0 <= i < |rt.scopes[scope].arena.items| ::
                         r.rt.scopes[scope].arena.items[i] == rt.scopes[scope].arena.items[i]
    ensures r.Out? ==> r.rt.signals == rt.signals && Step(rt, r.rt)
  {
    if scope >= |rt.scopes| then Fail(Dangling)
    else
      var (arena, ref) := Arena.Alloc(rt.scopes[scope].arena, RefSlot(v));
      StepSetScope(rt, scope, rt.scopes[scope].(arena := arena));
      Out(SetScope(rt, scope, rt.scopes[scope].(arena := arena)), ref)
  }

  /** `Scope::on_cleanup` (`src/lib.rs:162-164`): the callback, with a fresh identity,
      goes last in the scope's list. */
  function OnCleanup(rt: Runtime, scope: ScopeId, body: seq<Instr>): (r: Res)
    ensures r.Ok? <==> scope < |rt.scopes|
    ensures r.Ok? ==> scope < |rt.scopes| == |r.rt.scopes|
                      && r.rt.scopes[scope].cleanups == rt.scopes[scope].cleanups + [Cleanup(rt.nextCleanup, body)]
    ensures r.Ok? && scope < |rt.scopes| ==> CleanOk(rt, multiset{}) ==> forall c | c in rt.scopes[scope].cleanups :: c.id != rt.nextCleanup
    ensures r.Ok? ==> Step(rt, r.rt)
  {
    if scope >= |rt.scopes| then Err(Dangling)
    else
      StepAddCleanup(rt, scope, body);
      PendingBelowNext(rt, scope);
      Ok(AddCleanup(rt, scope, body))
  }

  /** Pending cleanups are older than the next identity to be issued. */
  lemma PendingBelowNext(rt: Runtime, scope: ScopeId)
    requires scope < |rt.scopes|
    ensures CleanOk(rt, multiset{}) ==> forall c | c in rt.scopes[scope].cleanups :: c.id < rt.nextCleanup
  {
    if CleanOk(rt, multiset{}) {
      forall c | c in rt.scopes[scope].cleanups ensures c.id < rt.nextCleanup {
        PendingHas(rt.scopes, scope, c);
        assert c.id in Pending(rt.scopes) + multiset{};
      }
    }
  }

  // ---------------------------------------------------------------- signals

  /** `ReadSignal::get` (`src/signal.rs:84-87`): the current value; the signal becomes a
      dependency of the effect on top of the stack, and nothing else changes. */
  function Get(rt: Runtime, s: SignalId): (r: Out<Value>)
    ensures r.Out? <==> s < |rt.signals|
    ensures r.Out? ==> r.value == rt.signals[s].value
    ensures r.Out? ==> |r.rt.effects| == |rt.effects|
                       && (forall e | 0 <= e < |rt.effects| && IsTop(rt, e) ::
                             r.rt.effects[e] == rt.effects[e].(deps := rt.effects[e].deps + {s}))
                       && (forall e | 0 <= e < |rt.effects| && !IsTop(rt, e) :: r.rt.effects[e] == rt.effects[e])
    ensures r.Out? ==> && r.rt.signals == rt.signals && r.rt.scopes == rt.scopes && r.rt.log == rt.log
                       && Step(rt, r.rt)
  {
    if s >= |rt.signals| then Fail(Dangling)
    else StepTrackAll(rt, {s}); Out(TrackAll(rt, {s}), rt.signals[s].value)
  }

  /** `ReadSignal::get_untracked` (`src/signal.rs:107-109`): the value, without tracking. */
  function GetUntracked(rt: Runtime, s: SignalId): (r: Option<Value>)
    ensures r.Some? <==> s < |rt.signals|
    ensures r.Some? ==> r.value == rt.signals[s].value
  {
    if s < |rt.signals| then Some(rt.signals[s].value) else None
  }

  /** `ReadSignal::track` (`src/signal.rs:133-135`): track without reading. */
  function Track(rt: Runtime, s: SignalId): (r: Res)
    ensures r.Ok? <==> s < |rt.signals|
    ensures r.Ok? ==> |r.rt.effects| == |rt.effects|
                      && (forall e | 0 <= e < |rt.effects| && IsTop(rt, e) ::
                            r.rt.effects[e] == rt.effects[e].(deps := rt.effects[e].deps + {s}))
                      && (forall e | 0 <= e < |rt.effects| && !IsTop(rt, e) :: r.rt.effects[e] == rt.effects[e])
    ensures r.Ok? ==> && r.rt.signals == rt.signals && r.rt.scopes == rt.scopes && r.rt.log == rt.log
                      && Step(rt, r.rt)
  {
    if s >= |rt.signals| then Err(Dangling)
    else StepTrackAll(rt, {s}); Ok(TrackAll(rt, {s}))
  }

  /** `Signal::set` (`src/signal.rs:165-168`): write, then notify the subscribers. */
  function Set(rt: Runtime, fuel: nat, s: SignalId, v: Value): (r: Res)
    ensures s >= |rt.signals| ==> r == Err(Dangling)
    ensures r.Ok? ==> Step(rt, r.rt)
  {
    if s >= |rt.signals| then Err(Dangling) else SetAndTrigger(rt, fuel, s, v)
  }

  /** `Signal::set_silent` (`src/signal.rs:173-175`): write without notifying: no effect
      runs and every other signal is untouched. */
  function SetSilent(rt: Runtime, s: SignalId, v: Value): (r: Res)
    ensures r.Ok? <==> s < |rt.signals|
    ensures r.Ok? ==> s < |rt.signals| == |r.rt.signals| && r.rt.signals[s].value == v && r.rt.log == rt.log
    ensures r.Ok? && |rt.signals| == |r.rt.signals| ==> forall x | 0 <= x < |rt.signals| && x != s :: r.rt.signals[x] == rt.signals[x]
    ensures r.Ok? ==> Step(rt, r.rt)
  {
    if s >= |rt.signals| then Err(Dangling) else StepAssign(rt, s, v); Ok(Assign(rt, s, v))
  }

  /** `Signal::take` (`src/signal.rs:182-186`): the old value is returned, the default
      is written and the subscribers are notified. */
  function Take(rt: Runtime, fuel: nat, s: SignalId): (r: Out<Value>)
    ensures r.Out? ==> s < |rt.signals| && r.value == rt.signals[s].value && Step(rt, r.rt)
  {
    if s >= |rt.signals| then Fail(Dangling)
    else
      match SetAndTrigger(rt, fuel, s, Default)
      case Err(x) => Fail(x)
      case Ok(rt1) => Out(rt1, rt.signals[s].value)
  }

  /** `Signal::take_silent` (`src/signal.rs:191-193`): the old value is returned and the
      default is written, without notifying. */
  function TakeSilent(rt: Runtime, s: SignalId): (r: Out<Value>)
    ensures r.Out? <==> s < |rt.signals|
    ensures r.Out? ==> s < |rt.signals| == |r.rt.signals|
                       && r.value == rt.signals[s].value && r.rt.signals[s].value == Default
    ensures r.Out? ==> r.rt.log == rt.log && Step(rt, r.rt)
  {
    if s >= |rt.signals| then Fail(Dangling)
    else StepAssign(rt, s, Default); Out(Assign(rt, s, Default), rt.signals[s].value)
  }

  /** `Signal::trigger_subscribers` (`src/signal.rs:43-59`), called on its own. */
  function TriggerSubscribers(rt: Runtime, fuel: nat, s: SignalId): (r: Res)
    ensures s >= |rt.signals| ==> r == Err(Dangling)
    ensures r.Ok? ==> s < |rt.signals| && (rt.signals[s].subs == [] ==> r.rt == rt)
    ensures r.Ok? ==> Step(rt, r.rt)
  {
    if s >= |rt.signals| then Err(Dangling)
    else
      TriggerNobody(rt, fuel, s);
      Trigger(rt, fuel, s)
  }

  /** With no subscribers, notifying does nothing. */
  lemma TriggerNobody(rt: Runtime, fuel: nat, s: SignalId)
    requires s < |rt.signals|
    ensures rt.signals[s].subs == [] ==> Trigger(rt, fuel, s) == Ok(rt)
  {
    if rt.signals[s].subs == [] {
      assert Emitter.NotifyOrder(rt.signals[s].subs) == [];
      assert Notify(rt, fuel, []) == Ok(rt);
    }
  }

  // ---------------------------------------------------------------- effects

  /** `Scope::create_effect` (`src/effect.rs:68-127`): a new effect, run once now, then
      kept in the scope's `effects`. */
  function CreateEffect(rt: Runtime, fuel: nat, scope: ScopeId, body: seq<Instr>): (r: Out<EffectId>)
    ensures r.Out? ==> r.value == |rt.effects| && r.value < |r.rt.effects|
    ensures r.Out? ==> scope < |rt.scopes| <= |r.rt.scopes| && r.value in r.rt.scopes[scope].effects
    ensures r.Out? ==> r.rt.effects[r.value].owner == scope && !r.rt.effects[r.value].running
    ensures r.Out? ==> CodeOf(r.rt.effects[r.value].kind) == PlainCode(body) && Step(rt, r.rt)
  {
    match Spawn(rt, fuel, scope, Plain(body))
    case Err(x) => Fail(x)
    case Ok(rt1) => SpawnFacts(rt, fuel, scope, Plain(body)); Out(rt1, |rt.effects|)
  }

  /** `Scope::create_effect_scoped` (`src/effect.rs:129-145`): an effect whose body runs
      in a fresh child scope on every run. */
  function CreateEffectScoped(rt: Runtime, fuel: nat, scope: ScopeId, body: seq<Instr>)
    : (r: Out<EffectId>)
    ensures r.Out? ==> r.value == |rt.effects| && r.value < |r.rt.effects|
    ensures r.Out? ==> scope < |rt.scopes| <= |r.rt.scopes| && r.value in r.rt.scopes[scope].effects
    ensures r.Out? ==> r.rt.effects[r.value].owner == scope && !r.rt.effects[r.value].running
    ensures r.Out? ==> CodeOf(r.rt.effects[r.value].kind) == ScopedCode(body) && Step(rt, r.rt)
  {
    match Spawn(rt, fuel, scope, Scoped(body, None))
    case Err(x) => Fail(x)
    case Ok(rt1) => SpawnFacts(rt, fuel, scope, Scoped(body, None)); Out(rt1, |rt.effects|)
  }

  /** What a successful `Spawn` leaves behind: the new effect, idle, listed last in its
      scope and keeping its owner and code. */
  lemma SpawnFacts(rt: Runtime, fuel: nat, scope: ScopeId, kind: EffectKind)
    requires Spawn(rt, fuel, scope, kind).Ok?
    ensures var r := Spawn(rt, fuel, scope, kind).rt; var e := |rt.effects|;
            && scope < |rt.scopes| && e < |r.effects| && e in r.scopes[scope].effects
            && r.effects[e].owner == scope && !r.effects[e].running
            && CodeOf(r.effects[e].kind) == CodeOf(kind)
  {
    var e := |rt.effects|;
    var rt1 := rt.(effects := rt.effects + [EffectCell(kind, scope, {}, false, true)]);
    var rt2 := RunEffect(rt1, fuel, e).rt;
    assert Evolves(rt1, rt2);
    assert rt2.effects[e].owner == rt1.effects[e].owner;
  }

  /** `untrack` (`src/effect.rs:167-185`): run the closure with no effect on the stack. */
  function Untrack(rt: Runtime, fuel: nat, scope: ScopeId, body: seq<Instr>): (r: Res)
    ensures r.Ok? ==> Step(rt, r.rt)
    ensures r.Ok? ==> forall e | 0 <= e < |rt.effects| && rt.effects[e].running ::
                        r.rt.effects[e].deps == rt.effects[e].deps
  {
    Disposal.UntrackKeepsDeps(rt, fuel, scope, body);
    Exec(rt, fuel, scope, Instr.Untrack(body))
  }

  // ---------------------------------------------------------------- memos

  /** `Scope::create_selector_with` (`src/memo.rs:62-85`): an effect whose first run
      creates the output signal; the output is read back from the effect's captured
      cell (the `unwrap` of `signal.get()`). */
  function CreateSelectorWith(rt: Runtime, fuel: nat, scope: ScopeId, f: Expr, cmp: Comparator)
    : (r: Out<SignalId>)
    ensures r.Out? ==> r.value < |r.rt.signals| && Step(rt, r.rt)
  {
    match Spawn(rt, fuel, scope, Selector(f, cmp, None))
    case Err(x) => Fail(x)
    case Ok(rt1) =>
      var e := |rt.effects|;
      SpawnFacts(rt, fuel, scope, Selector(f, cmp, None));
      match rt1.effects[e].kind
      case Selector(_, _, Some(o)) =>
        if o < |rt1.signals| then Out(rt1, o) else Fail(Dangling)
      case _ => Fail(Panic("called `Option::unwrap()` on a `None` value"))
  }

  /** `Scope::create_memo` (`src/memo.rs:22-24`): a selector whose comparator never
      calls two values equal, so every re-run writes and notifies. */
  function CreateMemo(rt: Runtime, fuel: nat, scope: ScopeId, f: Expr): (r: Out<SignalId>)
    ensures r.Out? ==> r.value < |r.rt.signals| && Step(rt, r.rt)
  {
    CreateSelectorWith(rt, fuel, scope, f, NeverEqual)
  }

  /** `Scope::create_selector` (`src/memo.rs:46-51`): a selector compared with `==`. */
  function CreateSelector(rt: Runtime, fuel: nat, scope: ScopeId, f: Expr): (r: Out<SignalId>)
    ensures r.Out? ==> r.value < |r.rt.signals| && Step(rt, r.rt)
  {
    CreateSelectorWith(rt, fuel, scope, f, PartialEqual)
  }

  /** `ReadSignal::map` (`src/signal.rs:126-128`): a memo of `f` applied to the signal. */
  function Map(rt: Runtime, fuel: nat, scope: ScopeId, s: SignalId, f: Value -> Value)
    : (r: Out<SignalId>)
    ensures r.Out? ==> r.value < |r.rt.signals| && Step(rt, r.rt)
  {
    CreateMemo(rt, fuel, scope, Apply(f, Expr.Get(s)))
  }

  /** `Scope::create_reducer` (`src/memo.rs:120-132`): the state is a plain signal. */
  function CreateReducer(rt: Runtime, scope: ScopeId, initial: Value): (r: Out<SignalId>)
    ensures r.Out? <==> scope < |rt.scopes|
    ensures r.Out? ==> r.value == |rt.signals| && r.value < |r.rt.signals|
                       && r.rt.signals[r.value] == SignalCell(initial, [])
    ensures r.Out? ==> Step(rt, r.rt)
  {
    CreateSignal(rt, scope, initial)
  }

  /** The dispatcher of `create_reducer` (`src/memo.rs:127-129`): read the state
      untracked, reduce it with the message, and `set` the result. */
  function Dispatch(rt: Runtime, fuel: nat, s: SignalId, reduce: (Value, Value) -> Value, msg: Value)
    : (r: Res)
    ensures s >= |rt.signals| ==> r == Err(Dangling)
    ensures r.Ok? ==> Step(rt, r.rt)
  {
    match GetUntracked(rt, s)
    case None => Err(Dangling)
    case Some(v) => Set(rt, fuel, s, reduce(v, msg))
  }

  // ---------------------------------------------------------------- contexts

  /** `Scope::provide_context` (`src/context.rs:7-14`). */
  function ProvideContext(rt: Runtime, scope: ScopeId, t: Context.TypeId, v: Value): (r: Res)
    ensures r.Ok? <==> scope < |rt.scopes| && t !in rt.scopes[scope].contexts
    ensures scope < |rt.scopes| && t in rt.scopes[scope].contexts ==>
              r == Err(Panic("existing context with type exists already"))
    ensures r.Ok? ==> scope < |rt.scopes| == |r.rt.scopes|
                      && r.rt.scopes[scope].contexts == rt.scopes[scope].contexts[t := v]
    ensures r.Ok? ==> Step(rt, r.rt)
  {
    if scope >= |rt.scopes| then Err(Dangling)
    else
      match Context.Provide(rt.scopes[scope].contexts, t, v)
      case Panicked(reason) => Err(Panic(reason))
      case Stored(m) =>
        StepSetScope(rt, scope, rt.scopes[scope].(contexts := m));
        Ok(SetScope(rt, scope, rt.scopes[scope].(contexts := m)))
  }

  /** `Scope::try_use_context` (`src/context.rs:17-36`), on the scope it is called on. */
  function TryUseContext(rt: Runtime, scope: ScopeId, t: Context.TypeId): (r: Context.Lookup)
    requires scope < |rt.scopes|
    ensures r.Returned? <==> t in rt.scopes[scope].contexts
    ensures r.Returned? ==> r.result == Some(rt.scopes[scope].contexts[t])
  {
    Context.TryUse(rt.scopes[scope].contexts, t)
  }

  /** `Scope::use_context` (`src/context.rs:40-42`). */
  function UseContext(rt: Runtime, scope: ScopeId, t: Context.TypeId): (r: Context.Use)
    requires scope < |rt.scopes|
    ensures r.Found? <==> t in rt.scopes[scope].contexts
    ensures r.Found? ==> r.value == rt.scopes[scope].contexts[t]
    ensures !r.ExpectPanics?
  {
    Context.UseCtx(rt.scopes[scope].contexts, t)
  }
}
