/** The state of the reactive runtime of `src/lib.rs`, `src/signal.rs` and `src/effect.rs`.

    Every `Signal`, effect and `Scope` lives at an integer id in one immutable record.
    Pointers and `Rc`/`Weak` handles become ids. The thread-local `EFFECTS` stack is the
    `stack` field. Effect closures are programs of a small first-order instruction
    language, `Instr` (their captured state, such as the previous run's disposer or a
    memo's output signal, is kept in `EffectKind`). A `log` records the observable
    events: effect runs, cleanup calls and drops.
 */
module State {

  import opened Wrappers
  import Arena
  import SlotMap
  import Emitter
  import Context

  type SignalId = nat
  type EffectId = Emitter.EffectId
  type ScopeId = nat
  type Value = int

  /** `T::default()` for the value types used here (integers, booleans, unit). */
  const Default: Value := 0

  /** Expressions of effect bodies. Reading is their only side effect (tracking). */
  datatype Expr =
    | Lit(n: int)
    | Get(s: SignalId)             // ReadSignal::get: tracked
    | GetUntracked(s: SignalId)    // ReadSignal::get_untracked
    | Add(a: Expr, b: Expr)
    | Mul(a: Expr, b: Expr)
    | Equals(a: Expr, b: Expr)     // 1 when equal, else 0
    | Apply(f: Value -> Value, a: Expr)  // a user function of a value

  /** Statements of effect bodies and cleanup callbacks. */
  datatype Instr =
    | Track(s: SignalId)                              // ReadSignal::track
    | Eval(e: Expr)                                   // evaluate and discard
    | Set(s: SignalId, e: Expr)                       // Signal::set
    | SetSilent(s: SignalId, e: Expr)                 // Signal::set_silent
    | Take(s: SignalId)                               // Signal::take, result discarded
    | TakeSilent(s: SignalId)                         // Signal::take_silent
    | If(c: Expr, thn: seq<Instr>, els: seq<Instr>)   // branch on c != 0
    | Untrack(body: seq<Instr>)                       // untrack(|| ...)
    | OnCleanup(body: seq<Instr>)                     // ctx.on_cleanup(|| ...)
    | Effect(body: seq<Instr>)                        // ctx.create_effect(|| ...)
    | ScopedEffect(body: seq<Instr>)                  // ctx.create_effect_scoped(|ctx| ...)

  /** The `eq_f` of `create_selector_with`. */
  datatype Comparator =
    | NeverEqual                                      // create_memo: |_, _| false
    | PartialEqual                                    // create_selector: PartialEq::eq
    | Custom(eq: (Value, Value) -> bool)

  /** The closure an effect re-runs, with the state it captures. */
  datatype EffectKind =
    | Plain(body: seq<Instr>)                                   // create_effect
    | Scoped(body: seq<Instr>, disposer: Option<SlotMap.Key>)   // create_effect_scoped
    | Selector(f: Expr, cmp: Comparator, out: Option<SignalId>) // create_selector_with

  /** An `EffectState` plus the status of its callback: `running` is the mutable borrow
      that makes `try_borrow_mut` fail, `alive` is whether its `Weak` still upgrades. */
  datatype EffectCell = EffectCell(kind: EffectKind, owner: ScopeId, deps: set<SignalId>,
                                   running: bool, alive: bool)

  datatype SignalCell = SignalCell(value: Value, subs: seq<EffectId>)

  datatype Cleanup = Cleanup(id: nat, body: seq<Instr>)

  /** What a scope's arena holds: signals (`create_signal`) and plain values (`create_ref`). */
  datatype Slot = SignalSlot(signal: SignalId) | RefSlot(value: Value)

  datatype ScopeCell = ScopeCell(
    parent: Option<ScopeId>,
    effects: seq<EffectId>,
    cleanups: seq<Cleanup>,
    children: SlotMap.SlotMap<ScopeId>,
    arena: Arena.Arena<Slot>,
    contexts: Context.ContextMap)

  datatype Event =
    | EffectRan(effect: EffectId)
    | CleanupRan(cleanup: nat)
    | EffectDropped(effect: EffectId)
    | ContextsFreed(scope: ScopeId, types: set<Context.TypeId>)
    | Dropped(scope: ScopeId, slot: Slot)

  datatype Runtime = Runtime(
    signals: seq<SignalCell>,
    effects: seq<EffectCell>,
    scopes: seq<ScopeCell>,
    stack: seq<EffectId>,
    nextCleanup: nat,
    log: seq<Event>)

  /** Ways an operation can fail to return normally. `Dangling` is an id that names no
      node (Rust's lifetimes rule it out); `OutOfFuel` is the model's recursion bound. */
  datatype Error = OutOfFuel | Dangling | Panic(reason: string)

  datatype Res = Ok(rt: Runtime) | Err(error: Error)

  function Init(): (rt: Runtime)
    ensures rt.signals == [] && rt.effects == [] && rt.scopes == [] && rt.stack == []
  {
    Runtime([], [], [], [], 0, [])
  }

  // ---------------------------------------------------------------- sizes

  function ProgSize(p: seq<Instr>): nat {
    if p == [] then 0 else InstrSize(p[0]) + ProgSize(p[1..])
  }

  function InstrSize(i: Instr): (n: nat)
    ensures n >= 1
  {
    match i
    case If(_, t, e) => 1 + ProgSize(t) + ProgSize(e)
    case Untrack(b) => 1 + ProgSize(b)
    case _ => 1
  }

  function KindSize(k: EffectKind): (n: nat)
    ensures n >= 1
  {
    match k
    case Plain(b) => 1 + ProgSize(b)
    case Scoped(b, _) => 1 + ProgSize(b)
    case Selector(_, _, _) => 1
  }

  // ---------------------------------------------------------------- expressions

  /** Every signal the expression names exists (there are `n` signals). */
  ghost predicate ExprValid(n: nat, e: Expr) {
    match e
    case Lit(_) => true
    case Get(s) => s < n
    case GetUntracked(s) => s < n
    case Add(a, b) => ExprValid(n, a) && ExprValid(n, b)
    case Mul(a, b) => ExprValid(n, a) && ExprValid(n, b)
    case Equals(a, b) => ExprValid(n, a) && ExprValid(n, b)
    case Apply(_, a) => ExprValid(n, a)
  }

  function CheckExpr(n: nat, e: Expr): (ok: bool)
    ensures ok <==> ExprValid(n, e)
  {
    match e
    case Lit(_) => true
    case Get(s) => s < n
    case GetUntracked(s) => s < n
    case Add(a, b) => CheckExpr(n, a) && CheckExpr(n, b)
    case Mul(a, b) => CheckExpr(n, a) && CheckExpr(n, b)
    case Equals(a, b) => CheckExpr(n, a) && CheckExpr(n, b)
    case Apply(_, a) => CheckExpr(n, a)
  }

  /** The value of an expression in the current signal values. */
  function EvalExpr(signals: seq<SignalCell>, e: Expr): Value
    requires ExprValid(|signals|, e)
  {
    match e
    case Lit(n) => n
    case Get(s) => signals[s].value
    case GetUntracked(s) => signals[s].value
    case Add(a, b) => EvalExpr(signals, a) + EvalExpr(signals, b)
    case Mul(a, b) => EvalExpr(signals, a) * EvalExpr(signals, b)
    case Equals(a, b) => if EvalExpr(signals, a) == EvalExpr(signals, b) then 1 else 0
    case Apply(f, a) => f(EvalExpr(signals, a))
  }

  /** The signals an expression reads with `get` (and so tracks). */
  function Reads(e: Expr): set<SignalId> {
    match e
    case Lit(_) => {}
    case Get(s) => {s}
    case GetUntracked(_) => {}
    case Add(a, b) => Reads(a) + Reads(b)
    case Mul(a, b) => Reads(a) + Reads(b)
    case Equals(a, b) => Reads(a) + Reads(b)
    case Apply(_, a) => Reads(a)
  }

  lemma ReadsAreValid(n: nat, e: Expr)
    requires ExprValid(n, e)
    ensures forall x | x in Reads(e) :: x < n
  {
  }

  // ---------------------------------------------------------------- code identity

  /** The part of an effect that no run changes: its closure code and owning scope. */
  datatype Code =
    | PlainCode(body: seq<Instr>)
    | ScopedCode(body: seq<Instr>)
    | SelectorCode(f: Expr, cmp: Comparator)

  function CodeOf(k: EffectKind): Code {
    match k
    case Plain(b) => PlainCode(b)
    case Scoped(b, _) => ScopedCode(b)
    case Selector(f, c, _) => SelectorCode(f, c)
  }

  ghost predicate IsTop(rt: Runtime, e: EffectId) {
    |rt.stack| > 0 && rt.stack[|rt.stack| - 1] == e
  }

  /** How every completed operation relates its final state to its initial one: the
      effect stack is back where it was; no effect changed its running status, owner or
      code; nothing is revived; ids are only added, and added effects are idle; the log
      only grows; the dependencies of an effect that is running but not on top of the
      stack are untouched; no effect that was running was run again; and each cleanup
      that was pending is still pending in its scope or has been called. */
  ghost predicate Evolves(a: Runtime, b: Runtime) {
    && b.stack == a.stack
    && |a.effects| <= |b.effects|
    && |a.signals| <= |b.signals|
    && |a.scopes| <= |b.scopes|
    && a.nextCleanup <= b.nextCleanup
    && a.log <= b.log
    && (forall e | 0 <= e < |a.effects| ::
          && b.effects[e].running == a.effects[e].running
          && b.effects[e].owner == a.effects[e].owner
          && CodeOf(b.effects[e].kind) == CodeOf(a.effects[e].kind)
          && (b.effects[e].alive ==> a.effects[e].alive)
          && (a.effects[e].running && !IsTop(a, e) ==> b.effects[e].deps == a.effects[e].deps))
    && (forall e | |a.effects| <= e < |b.effects| :: !b.effects[e].running)
    && NotReentered(a, b)
    && (forall s, c | 0 <= s < |a.scopes| && c in a.scopes[s].cleanups ::
          c in b.scopes[s].cleanups || CleanupRan(c.id) in b.log)
  }

  /** Every effect run logged between `a` and `b` is of an effect that was idle in `a`. */
  ghost predicate NotReentered(a: Runtime, b: Runtime)
    requires a.log <= b.log
  {
    forall i | |a.log| <= i < |b.log| && b.log[i].EffectRan? && b.log[i].effect < |a.effects| ::
      !a.effects[b.log[i].effect].running
  }

  lemma EvolvesRefl(a: Runtime)
    ensures Evolves(a, a)
  {
  }

  lemma EvolvesTrans(a: Runtime, b: Runtime, c: Runtime)
    requires Evolves(a, b) && Evolves(b, c)
    ensures Evolves(a, c)
  {
    assert forall e :: IsTop(a, e) <==> IsTop(b, e);
    forall i | |a.log| <= i < |c.log| && c.log[i].EffectRan? && c.log[i].effect < |a.effects|
      ensures !a.effects[c.log[i].effect].running
    {
      if i < |b.log| {
        assert c.log[i] == b.log[i];
      }
    }
  }

  /** Replacing one effect's cell evolves the runtime when the replacement keeps what
      `Evolves` fixes. */
  lemma EvolvesBySetEffect(rt: Runtime, e: EffectId, c: EffectCell)
    requires e < |rt.effects|
    requires c.running == rt.effects[e].running && c.owner == rt.effects[e].owner
    requires CodeOf(c.kind) == CodeOf(rt.effects[e].kind)
    requires c.alive ==> rt.effects[e].alive
    requires c.running && !IsTop(rt, e) ==> c.deps == rt.effects[e].deps
    ensures Evolves(rt, rt.(effects := rt.effects[e := c]))
  {
  }

  /** Replacing one scope's cell evolves the runtime when no pending cleanup is lost. */
  lemma EvolvesBySetScope(rt: Runtime, s: ScopeId, c: ScopeCell)
    requires s < |rt.scopes|
    requires forall cl | cl in rt.scopes[s].cleanups :: cl in c.cleanups
    ensures Evolves(rt, rt.(scopes := rt.scopes[s := c]))
  {
  }

  // ---------------------------------------------------------------- primitive updates

  function SetEffect(rt: Runtime, e: EffectId, c: EffectCell): (r: Runtime)
    requires e < |rt.effects|
    ensures r.effects == rt.effects[e := c]
    ensures r.signals == rt.signals && r.scopes == rt.scopes && r.stack == rt.stack
    ensures r.log == rt.log && r.nextCleanup == rt.nextCleanup
  {
    rt.(effects := rt.effects[e := c])
  }

  function SetScope(rt: Runtime, s: ScopeId, c: ScopeCell): (r: Runtime)
    requires s < |rt.scopes|
    ensures r.scopes == rt.scopes[s := c]
    ensures r.signals == rt.signals && r.effects == rt.effects && r.stack == rt.stack
    ensures r.log == rt.log && r.nextCleanup == rt.nextCleanup
  {
    rt.(scopes := rt.scopes[s := c])
  }

  /** Writes a signal's value without notifying anyone. */
  function Assign(rt: Runtime, s: SignalId, v: Value): (r: Runtime)
    requires s < |rt.signals|
    ensures |r.signals| == |rt.signals| && r.signals[s].value == v
    ensures r.signals[s].subs == rt.signals[s].subs
    ensures forall x | 0 <= x < |rt.signals| && x != s :: r.signals[x] == rt.signals[x]
    ensures r.effects == rt.effects && r.scopes == rt.scopes && r.stack == rt.stack
    ensures r.log == rt.log && r.nextCleanup == rt.nextCleanup
  {
    rt.(signals := rt.signals[s := rt.signals[s].(value := v)])
  }

  /** `SignalEmitter::track` for each of `xs`: `add_dependency` on the top frame of the
      effect stack, if there is one. */
  function TrackAll(rt: Runtime, xs: set<SignalId>): (r: Runtime)
    ensures r.signals == rt.signals && r.scopes == rt.scopes && r.stack == rt.stack
    ensures r.log == rt.log && r.nextCleanup == rt.nextCleanup
    ensures |r.effects| == |rt.effects|
    ensures |rt.stack| == 0 ==> r.effects == rt.effects
    ensures forall e | 0 <= e < |rt.effects| && !IsTop(rt, e) :: r.effects[e] == rt.effects[e]
    ensures forall e | 0 <= e < |rt.effects| && IsTop(rt, e) ::
              r.effects[e] == rt.effects[e].(deps := rt.effects[e].deps + xs)
  {
    if |rt.stack| == 0 then rt
    else
      var top := rt.stack[|rt.stack| - 1];
      if top < |rt.effects| then
        SetEffect(rt, top, rt.effects[top].(deps := rt.effects[top].deps + xs))
      else rt
  }

  /** Appends a new scope (`Scope::new`, with its parent link). */
  function NewScope(rt: Runtime, parent: Option<ScopeId>): (res: (Runtime, ScopeId))
    ensures res.1 == |rt.scopes| && |res.0.scopes| == |rt.scopes| + 1
    ensures res.0.scopes[..|rt.scopes|] == rt.scopes
    ensures var c := res.0.scopes[res.1];
            c.parent == parent && c.effects == [] && c.cleanups == [] && c.contexts == map[]
            && c.arena.items == [] && SlotMap.Values(c.children) == []
            && SlotMap.Valid(c.children)
    ensures res.0.signals == rt.signals && res.0.effects == rt.effects && res.0.stack == rt.stack
    ensures res.0.log == rt.log && res.0.nextCleanup == rt.nextCleanup
  {
    var c := ScopeCell(parent, [], [], SlotMap.Empty(), Arena.Empty(), map[]);
    (rt.(scopes := rt.scopes + [c]), |rt.scopes|)
  }

  /** `create_child_scope` without running the setup closure: a new scope whose parent is
      `parent`, registered in the parent's `child_scopes` under the returned key. */
  function NewChildScope(rt: Runtime, parent: ScopeId): (res: (Runtime, ScopeId, SlotMap.Key))
    requires parent < |rt.scopes|
    ensures res.1 == |rt.scopes| && |res.0.scopes| == |rt.scopes| + 1
    ensures var c := res.0.scopes[res.1];
            c.parent == Some(parent) && c.effects == [] && c.cleanups == []
    ensures SlotMap.Get(res.0.scopes[parent].children, res.2) == Some(res.1)
    ensures SlotMap.Valid(rt.scopes[parent].children) ==>
              SlotMap.Valid(res.0.scopes[parent].children)
              && SlotMap.Get(rt.scopes[parent].children, res.2).None?
    ensures SlotMap.Valid(rt.scopes[parent].children) ==> forall k | k != res.2 ::
              SlotMap.Get(res.0.scopes[parent].children, k) == SlotMap.Get(rt.scopes[parent].children, k)
    ensures forall s | 0 <= s < |rt.scopes| && s != parent :: res.0.scopes[s] == rt.scopes[s]
    ensures var p := res.0.scopes[parent]; var q := rt.scopes[parent];
            p.parent == q.parent && p.effects == q.effects && p.cleanups == q.cleanups
            && p.arena == q.arena && p.contexts == q.contexts
    ensures res.0.signals == rt.signals && res.0.effects == rt.effects && res.0.stack == rt.stack
    ensures res.0.log == rt.log && res.0.nextCleanup == rt.nextCleanup
  {
    var (rt1, child) := NewScope(rt, Some(parent));
    var (children, key) := SlotMap.Insert(rt1.scopes[parent].children, child);
    (SetScope(rt1, parent, rt1.scopes[parent].(children := children)), child, key)
  }

  /** `Scope::create_signal`: a new signal holding `v`, allocated on the scope's arena. */
  function NewSignal(rt: Runtime, scope: ScopeId, v: Value): (res: (Runtime, SignalId))
    requires scope < |rt.scopes|
    ensures res.1 == |rt.signals| && |res.0.signals| == |rt.signals| + 1
    ensures res.0.signals[res.1] == SignalCell(v, [])
    ensures res.0.signals[..|rt.signals|] == rt.signals
    ensures |res.0.scopes| == |rt.scopes|
    ensures res.0.scopes[scope].arena.items == rt.scopes[scope].arena.items + [SignalSlot(res.1)]
    ensures forall s | 0 <= s < |rt.scopes| && s != scope :: res.0.scopes[s] == rt.scopes[s]
    ensures res.0.scopes[scope] == rt.scopes[scope].(arena := res.0.scopes[scope].arena)
    ensures res.0.effects == rt.effects && res.0.stack == rt.stack
    ensures res.0.log == rt.log && res.0.nextCleanup == rt.nextCleanup
  {
    var id := |rt.signals|;
    var (arena, _) := Arena.Alloc(rt.scopes[scope].arena, SignalSlot(id));
    var rt1 := rt.(signals := rt.signals + [SignalCell(v, [])]);
    (SetScope(rt1, scope, rt1.scopes[scope].(arena := arena)), id)
  }

  /** `EffectState::clear_dependencies`: unsubscribe `e` from every dependency, then
      forget them. Each signal's list is touched at most once, so the `HashSet`
      iteration order does not matter. */
  function ClearDependencies(rt: Runtime, e: EffectId): (r: Runtime)
    requires e < |rt.effects|
    ensures |r.signals| == |rt.signals|
    ensures forall x | 0 <= x < |rt.signals| ::
              r.signals[x].value == rt.signals[x].value
              && r.signals[x].subs == (if x in rt.effects[e].deps
                                       then Emitter.Unsubscribe(rt.signals[x].subs, e)
                                       else rt.signals[x].subs)
    ensures r.effects == rt.effects[e := rt.effects[e].(deps := {})]
    ensures r.scopes == rt.scopes && r.stack == rt.stack
    ensures r.log == rt.log && r.nextCleanup == rt.nextCleanup
  {
    var deps := rt.effects[e].deps;
    var signals := seq(|rt.signals|, x requires 0 <= x < |rt.signals| =>
      if x in deps then rt.signals[x].(subs := Emitter.Unsubscribe(rt.signals[x].subs, e))
      else rt.signals[x]);
    rt.(signals := signals, effects := rt.effects[e := rt.effects[e].(deps := {})])
  }

  /** The loop after an effect's body: subscribe the callback to every dependency the
      run collected. */
  function SubscribeDependencies(rt: Runtime, e: EffectId): (r: Runtime)
    requires e < |rt.effects|
    ensures |r.signals| == |rt.signals|
    ensures forall x | 0 <= x < |rt.signals| ::
              r.signals[x].value == rt.signals[x].value
              && r.signals[x].subs == (if x in rt.effects[e].deps
                                       then Emitter.Subscribe(rt.signals[x].subs, e)
                                       else rt.signals[x].subs)
    ensures r.effects == rt.effects && r.scopes == rt.scopes && r.stack == rt.stack
    ensures r.log == rt.log && r.nextCleanup == rt.nextCleanup
  {
    var deps := rt.effects[e].deps;
    var signals := seq(|rt.signals|, x requires 0 <= x < |rt.signals| =>
      if x in deps then rt.signals[x].(subs := Emitter.Subscribe(rt.signals[x].subs, e))
      else rt.signals[x]);
    rt.(signals := signals)
  }

  /** `on_cleanup`: push a callback (with a fresh identity) onto the scope's list. */
  function AddCleanup(rt: Runtime, s: ScopeId, body: seq<Instr>): (r: Runtime)
    requires s < |rt.scopes|
    ensures r.scopes == rt.scopes[s := rt.scopes[s].(cleanups := rt.scopes[s].cleanups + [Cleanup(rt.nextCleanup, body)])]
    ensures r.nextCleanup == rt.nextCleanup + 1
    ensures r.signals == rt.signals && r.effects == rt.effects && r.stack == rt.stack && r.log == rt.log
  {
    var c := rt.scopes[s];
    rt.(scopes := rt.scopes[s := c.(cleanups := c.cleanups + [Cleanup(rt.nextCleanup, body)])],
        nextCleanup := rt.nextCleanup + 1)
  }

  function DroppedEvents(es: seq<EffectId>): (evs: seq<Event>)
    ensures |evs| == |es|
    ensures forall i | 0 <= i < |es| :: evs[i] == EffectDropped(es[i])
  {
    seq(|es|, i requires 0 <= i < |es| => EffectDropped(es[i]))
  }

  /** Drops each listed effect, in list order: its callback can no longer be upgraded.
      Dropping does not unsubscribe it from the signals it depends on. */
  function DropEffectList(rt: Runtime, es: seq<EffectId>): (r: Runtime)
    ensures |r.effects| == |rt.effects|
    ensures forall e | 0 <= e < |rt.effects| ::
              r.effects[e] == (if e in es then rt.effects[e].(alive := false) else rt.effects[e])
    ensures r.log == rt.log + DroppedEvents(es)
    ensures r.signals == rt.signals && r.scopes == rt.scopes && r.stack == rt.stack
    ensures r.nextCleanup == rt.nextCleanup
  {
    var effects := seq(|rt.effects|, e requires 0 <= e < |rt.effects| =>
      if e in es then rt.effects[e].(alive := false) else rt.effects[e]);
    rt.(effects := effects, log := rt.log + DroppedEvents(es))
  }

  /** `drop(self.effects.take())`. */
  function DropEffects(rt: Runtime, s: ScopeId): (r: Runtime)
    requires s < |rt.scopes|
    ensures |r.effects| == |rt.effects|
    ensures forall e | 0 <= e < |rt.effects| ::
              r.effects[e] == (if e in rt.scopes[s].effects then rt.effects[e].(alive := false)
                               else rt.effects[e])
    ensures r.log == rt.log + DroppedEvents(rt.scopes[s].effects)
    ensures r.scopes == rt.scopes[s := rt.scopes[s].(effects := [])]
    ensures r.signals == rt.signals && r.stack == rt.stack && r.nextCleanup == rt.nextCleanup
  {
    var rt1 := DropEffectList(rt, rt.scopes[s].effects);
    SetScope(rt1, s, rt1.scopes[s].(effects := []))
  }

  /** Frees the scope's context values (`self.contexts.take()`). */
  function FreeContexts(rt: Runtime, s: ScopeId): (r: Runtime)
    requires s < |rt.scopes|
    ensures r.scopes == rt.scopes[s := rt.scopes[s].(contexts := map[])]
    ensures r.log == rt.log + (if rt.scopes[s].contexts == map[] then []
                               else [ContextsFreed(s, rt.scopes[s].contexts.Keys)])
    ensures r.signals == rt.signals && r.effects == rt.effects && r.stack == rt.stack
    ensures r.nextCleanup == rt.nextCleanup
  {
    var m := rt.scopes[s].contexts;
    var evs := if m == map[] then [] else [ContextsFreed(s, m.Keys)];
    SetScope(rt, s, rt.scopes[s].(contexts := map[])).(log := rt.log + evs)
  }

  function DropEvents(s: ScopeId, items: seq<Slot>): (evs: seq<Event>)
    ensures |evs| == |items|
    ensures forall i | 0 <= i < |items| :: evs[i] == Dropped(s, items[i])
  {
    seq(|items|, i requires 0 <= i < |items| => Dropped(s, items[i]))
  }

  /** `self.arena.dispose()`: every signal and ref of the scope is dropped, in
      allocation order. */
  function DisposeArena(rt: Runtime, s: ScopeId): (r: Runtime)
    requires s < |rt.scopes|
    ensures r.scopes == rt.scopes[s := rt.scopes[s].(arena := Arena.Empty())]
    ensures r.log == rt.log + DropEvents(s, rt.scopes[s].arena.items)
    ensures r.signals == rt.signals && r.effects == rt.effects && r.stack == rt.stack
    ensures r.nextCleanup == rt.nextCleanup
  {
    var (arena, dropped) := Arena.Dispose(rt.scopes[s].arena);
    SetScope(rt, s, rt.scopes[s].(arena := arena)).(log := rt.log + DropEvents(s, dropped))
  }

  /** `comparator(new, old)` of `create_selector_with`. */
  function Same(c: Comparator, a: Value, b: Value): bool {
    match c
    case NeverEqual => false
    case PartialEqual => a == b
    case Custom(eq) => eq(a, b)
  }
}
