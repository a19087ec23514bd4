/** Execution: effect bodies, notification and scope disposal (`src/signal.rs`,
    `src/effect.rs`, `src/memo.rs`, `src/lib.rs`).

    These call one another: a body's `set` notifies subscribers, each subscriber
    re-runs its body, a scoped effect disposes its previous child scope, and disposal
    runs cleanup callbacks, which may `set` again. There is no scheduler. Notification
    is a direct callback over a snapshot of the subscriber list. Re-entrancy is stopped
    only by the running flag. `fuel` bounds the nesting depth of effect runs, cleanup
    calls and child disposals; running out is reported as `OutOfFuel`.

    Every function here ensures `Step` on success. The effect stack is back as it was
    on entry, which is the push/pop discipline of `src/effect.rs:77-111`. No effect
    that was running has been run again. The dependency invariant `Inv` and the
    cleanup invariant `CleanOk` are kept.
 */
module Engine {

  import opened Wrappers
  import opened State
  import opened Invariant
  import SlotMap
  import Emitter

  /** Runs a program with `scope` as the closure's `ctx`. */
  function Run(rt: Runtime, fuel: nat, scope: ScopeId, p: seq<Instr>): (r: Res)
    ensures r.Ok? ==> Step(rt, r.rt)
    decreases fuel, ProgSize(p), 1, 0
  {
    if p == [] then StepRefl(rt); Ok(rt)
    else
      match Exec(rt, fuel, scope, p[0])
      case Err(x) => Err(x)
      case Ok(rt1) =>
        var r := Run(rt1, fuel, scope, p[1..]);
        if r.Ok? then StepTrans(rt, rt1, r.rt); r else r
  }

  /** Writes `v` to `s` and notifies its subscribers (`Signal::set`, `src/signal.rs`). */
  function SetAndTrigger(rt: Runtime, fuel: nat, s: SignalId, v: Value): (r: Res)
    requires s < |rt.signals|
    ensures r.Ok? ==> Step(rt, r.rt)
    decreases fuel, 0, 3, 0
  {
    var rt1 := Assign(rt, s, v);
    StepAssign(rt, s, v);
    var r := Trigger(rt1, fuel, s);
    if r.Ok? then StepTrans(rt, rt1, r.rt); r else r
  }

  function Exec(rt: Runtime, fuel: nat, scope: ScopeId, i: Instr): (r: Res)
    ensures r.Ok? ==> Step(rt, r.rt)
    decreases fuel, InstrSize(i), 0, 0
  {
    match i
    case Track(s) =>
      if s < |rt.signals| then StepTrackAll(rt, {s}); Ok(TrackAll(rt, {s})) else Err(Dangling)
    case Eval(e) =>
      if CheckExpr(|rt.signals|, e) then StepTrackExpr(rt, e); Ok(TrackAll(rt, Reads(e)))
      else Err(Dangling)
    case Set(s, e) =>
      if s < |rt.signals| && CheckExpr(|rt.signals|, e) then
        var rt1 := TrackAll(rt, Reads(e));
        StepTrackExpr(rt, e);
        var r := SetAndTrigger(rt1, fuel, s, EvalExpr(rt.signals, e));
        if r.Ok? then StepTrans(rt, rt1, r.rt); r else r
      else Err(Dangling)
    case SetSilent(s, e) =>
      if s < |rt.signals| && CheckExpr(|rt.signals|, e) then
        var rt1 := TrackAll(rt, Reads(e));
        StepTrackExpr(rt, e);
        StepAssign(rt1, s, EvalExpr(rt.signals, e));
        StepTrans(rt, rt1, Assign(rt1, s, EvalExpr(rt.signals, e)));
        Ok(Assign(rt1, s, EvalExpr(rt.signals, e)))
      else Err(Dangling)
    case Take(s) =>
      if s < |rt.signals| then SetAndTrigger(rt, fuel, s, Default) else Err(Dangling)
    case TakeSilent(s) =>
      if s < |rt.signals| then StepAssign(rt, s, Default); Ok(Assign(rt, s, Default))
      else Err(Dangling)
    case If(c, t, e) =>
      if CheckExpr(|rt.signals|, c) then
        var rt1 := TrackAll(rt, Reads(c));
        StepTrackExpr(rt, c);
        var r := if EvalExpr(rt.signals, c) != 0 then Run(rt1, fuel, scope, t)
                 else Run(rt1, fuel, scope, e);
        if r.Ok? then StepTrans(rt, rt1, r.rt); r else r
      else Err(Dangling)
    case Untrack(b) =>
      var r := Run(rt.(stack := []), fuel, scope, b);
      if r.Err? then r
      else StepUntracked(rt, r.rt); Ok(r.rt.(stack := rt.stack))
    case OnCleanup(b) =>
      if scope < |rt.scopes| then StepAddCleanup(rt, scope, b); Ok(AddCleanup(rt, scope, b))
      else Err(Dangling)
    case Effect(b) => Spawn(rt, fuel, scope, Plain(b))
    case ScopedEffect(b) => Spawn(rt, fuel, scope, Scoped(b, None))
  }

  /** `create_effect` (`src/effect.rs:68-127`): allocate the effect state, call the
      callback once, then keep the effect alive in the scope's `effects`. */
  function Spawn(rt: Runtime, fuel: nat, scope: ScopeId, kind: EffectKind): (r: Res)
    ensures r.Ok? ==> Step(rt, r.rt)
    decreases fuel, 0, 8, 0
  {
    if scope >= |rt.scopes| then Err(Dangling)
    else
      var e := |rt.effects|;
      var cell := EffectCell(kind, scope, {}, false, true);
      var rt1 := rt.(effects := rt.effects + [cell]);
      StepNewEffect(rt, cell);
      match RunEffect(rt1, fuel, e)
      case Err(x) => Err(x)
      case Ok(rt2) =>
        var c := rt2.scopes[scope].(effects := rt2.scopes[scope].effects + [e]);
        StepSetScope(rt2, scope, c);
        StepTrans(rt, rt1, rt2);
        StepTrans(rt, rt2, SetScope(rt2, scope, c));
        Ok(SetScope(rt2, scope, c))
  }

  /** `SignalEmitter::trigger_subscribers`: call a snapshot of the subscriber list, last
      subscriber first. */
  function Trigger(rt: Runtime, fuel: nat, s: SignalId): (r: Res)
    requires s < |rt.signals|
    ensures r.Ok? ==> Step(rt, r.rt)
    decreases fuel, 0, 2, 0
  {
    Notify(rt, fuel, Emitter.NotifyOrder(rt.signals[s].subs))
  }

  /** The loop of `trigger_subscribers` over the remaining snapshot. A subscriber whose
      effect was dropped does not upgrade and is skipped; one whose callback is already
      running fails `try_borrow_mut` and is skipped. */
  function Notify(rt: Runtime, fuel: nat, order: seq<EffectId>): (r: Res)
    ensures r.Ok? ==> Step(rt, r.rt)
    decreases fuel, 0, 1, |order|
  {
    if order == [] then StepRefl(rt); Ok(rt)
    else
      var e := order[0];
      if e < |rt.effects| && rt.effects[e].alive && !rt.effects[e].running then
        match RunEffect(rt, fuel, e)
        case Err(x) => Err(x)
        case Ok(rt1) =>
          var r := Notify(rt1, fuel, order[1..]);
          if r.Ok? then StepTrans(rt, rt1, r.rt); r else r
      else Notify(rt, fuel, order[1..])
  }

  /** Start of the effect callback: take the state out, clear its dependencies, mark
      the callback borrowed and push the effect on the stack. */
  function Begin(rt: Runtime, e: EffectId): (r: Runtime)
    requires e < |rt.effects|
    ensures r.stack == rt.stack + [e]
    ensures |r.effects| == |rt.effects| && |r.signals| == |rt.signals| && r.scopes == rt.scopes
    ensures r.effects[e] == rt.effects[e].(deps := {}, running := true)
    ensures forall f | 0 <= f < |rt.effects| && f != e :: r.effects[f] == rt.effects[f]
    ensures r.log == rt.log + [EffectRan(e)] && r.nextCleanup == rt.nextCleanup
    ensures forall x | 0 <= x < |rt.signals| ::
              r.signals[x].value == rt.signals[x].value
              && r.signals[x].subs == (if x in rt.effects[e].deps
                                       then Emitter.Unsubscribe(rt.signals[x].subs, e)
                                       else rt.signals[x].subs)
  {
    var rt1 := ClearDependencies(rt.(log := rt.log + [EffectRan(e)]), e);
    SetEffect(rt1, e, rt1.effects[e].(running := true)).(stack := rt.stack + [e])
  }

  /** End of the effect callback: pop the stack, subscribe to every dependency the run
      collected, and release the borrow. */
  function Finish(rt: Runtime, e: EffectId): (r: Runtime)
    requires e < |rt.effects| && |rt.stack| > 0
    ensures r.stack == rt.stack[..|rt.stack| - 1]
    ensures |r.effects| == |rt.effects| && |r.signals| == |rt.signals| && r.scopes == rt.scopes
    ensures r.effects[e] == rt.effects[e].(running := false)
    ensures forall f | 0 <= f < |rt.effects| && f != e :: r.effects[f] == rt.effects[f]
    ensures r.log == rt.log && r.nextCleanup == rt.nextCleanup
    ensures forall x | 0 <= x < |rt.signals| ::
              r.signals[x].value == rt.signals[x].value
              && r.signals[x].subs == (if x in rt.effects[e].deps
                                       then Emitter.Subscribe(rt.signals[x].subs, e)
                                       else rt.signals[x].subs)
  {
    var rt1 := rt.(stack := rt.stack[..|rt.stack| - 1]);
    var rt2 := SubscribeDependencies(rt1, e);
    SetEffect(rt2, e, rt2.effects[e].(running := false))
  }

  /** `clear_dependencies` under the invariant: afterwards the effect is subscribed
      nowhere, and every other subscription is kept. */
  lemma InvBegin(rt: Runtime, e: EffectId)
    requires Inv(rt) && e < |rt.effects| && !rt.effects[e].running
    ensures Inv(Begin(rt, e))
  {
    var r := Begin(rt, e);
    forall x | 0 <= x < |rt.signals|
      ensures Emitter.NoDup(r.signals[x].subs)
      ensures forall f :: f in r.signals[x].subs <==> f in rt.signals[x].subs && (x in rt.effects[e].deps ==> f != e)
    {
      Emitter.UnsubscribeMembership(rt.signals[x].subs, e);
    }
  }

  /** The subscription loop under the invariant: afterwards the effect is subscribed
      exactly to the dependencies it collected. */
  lemma InvFinish(rt: Runtime, e: EffectId)
    requires Inv(rt) && e < |rt.effects| && |rt.stack| > 0
    requires forall i | 0 <= i < |rt.stack| - 1 :: rt.stack[i] != e
    ensures Inv(Finish(rt, e))
  {
    var r := Finish(rt, e);
    forall x | 0 <= x < |rt.signals|
      ensures Emitter.NoDup(r.signals[x].subs)
      ensures forall f :: f in r.signals[x].subs <==> f in rt.signals[x].subs || (x in rt.effects[e].deps && f == e)
    {
      Emitter.SubscribeMembership(rt.signals[x].subs, e);
    }
  }

  /** A whole effect run, from `Begin` through the closure to `Finish`, is a step. */
  lemma RunEffectStep(rt: Runtime, e: EffectId, rt2: Runtime)
    requires e < |rt.effects| && !rt.effects[e].running
    requires Step(Begin(rt, e), rt2)
    ensures |rt2.stack| > 0 && e < |rt2.effects|
    ensures Step(rt, Finish(rt2, e))
  {
    var rt1 := Begin(rt, e);
    var r := Finish(rt2, e);
    assert forall f :: IsTop(rt1, f) <==> f == e;
    assert rt2.stack[..|rt2.stack| - 1] == rt.stack;
    if Inv(rt) {
      InvBegin(rt, e);
      InvFinish(rt2, e);
    }
    forall i | |rt.log| <= i < |r.log| && r.log[i].EffectRan? && r.log[i].effect < |rt.effects|
      ensures !rt.effects[r.log[i].effect].running
    {
      if i == |rt.log| {
        assert r.log[i] == rt1.log[i];
      } else {
        assert !rt1.effects[r.log[i].effect].running;
      }
    }
    assert Evolves(rt, r);
    CleanKeptFrame(rt, rt1);
    CleanKeptFrame(rt2, r);
    CleanKeptTrans(rt, rt1, rt2);
    CleanKeptTrans(rt, rt2, r);
  }

  /** The callback built by `create_effect` (`src/effect.rs:72-114`). */
  function RunEffect(rt: Runtime, fuel: nat, e: EffectId): (r: Res)
    requires e < |rt.effects| && !rt.effects[e].running
    ensures r.Ok? ==> Step(rt, r.rt)
    decreases fuel, 0, 0, 0
  {
    if fuel == 0 then Err(OutOfFuel)
    else
      match RunClosure(Begin(rt, e), fuel - 1, e)
      case Err(x) => Err(x)
      case Ok(rt2) =>
        RunEffectStep(rt, e, rt2);
        Ok(Finish(rt2, e))
  }

  /** The closure of `e`, started in `rt`, returns normally in `rt2`. */
  ghost predicate ClosureEnds(rt: Runtime, fuel: nat, e: EffectId, rt2: Runtime)
    requires e < |rt.effects|
  {
    RunClosure(rt, fuel, e) == Ok(rt2)
  }

  /** The shape of an effect run: begin, the closure, finish. */
  lemma RunEffectUnfold(rt: Runtime, fuel: nat, e: EffectId, rt2: Runtime)
    requires e < |rt.effects| && !rt.effects[e].running && fuel > 0
    requires ClosureEnds(Begin(rt, e), fuel - 1, e, rt2)
    ensures |rt2.stack| > 0 && e < |rt2.effects|
    ensures RunEffect(rt, fuel, e) == Ok(Finish(rt2, e))
  {
    RunEffectStep(rt, e, rt2);
  }

  /** A successful run went through the closure. */
  lemma RunEffectOk(rt: Runtime, fuel: nat, e: EffectId) returns (rt2: Runtime)
    requires e < |rt.effects| && !rt.effects[e].running
    requires RunEffect(rt, fuel, e).Ok?
    ensures fuel > 0 && ClosureEnds(Begin(rt, e), fuel - 1, e, rt2)
    ensures |rt2.stack| > 0 && e < |rt2.effects| && RunEffect(rt, fuel, e) == Ok(Finish(rt2, e))
  {
    rt2 := RunClosure(Begin(rt, e), fuel - 1, e).rt;
    RunEffectStep(rt, e, rt2);
  }

  /** The user closure `f` of the effect, by kind. */
  function RunClosure(rt: Runtime, fuel: nat, e: EffectId): (r: Res)
    requires e < |rt.effects|
    ensures r.Ok? ==> Step(rt, r.rt)
    decreases fuel, KindSize(rt.effects[e].kind), 3, 0
  {
    match rt.effects[e].kind
    case Plain(body) => Run(rt, fuel, rt.effects[e].owner, body)
    case Scoped(body, disposer) => RunScoped(rt, fuel, e, body, disposer)
    case Selector(f, cmp, out) => RunSelector(rt, fuel, e, f, cmp, out)
  }

  /** The closure of `create_effect_scoped` (`src/effect.rs:129-145`): call the previous
      run's disposer, if any, then run the body in a new child scope and keep its
      disposer for the next run. */
  function RunScoped(rt: Runtime, fuel: nat, e: EffectId, body: seq<Instr>,
                     disposer: Option<SlotMap.Key>): (r: Res)
    requires e < |rt.effects| && CodeOf(rt.effects[e].kind) == ScopedCode(body)
    ensures r.Ok? ==> Step(rt, r.rt)
    decreases fuel, 1 + ProgSize(body), 2, 0
  {
    var owner := rt.effects[e].owner;
    StepSetKind(rt, e, Scoped(body, None));
    var rt1 := SetEffect(rt, e, rt.effects[e].(kind := Scoped(body, None)));
    var r2 := if disposer.None? then Ok(rt1) else CallChildDisposer(rt1, fuel, owner, disposer.value);
    if r2.Err? then r2
    else
      var rt2 := r2.rt;
      assert Step(rt1, rt2) by { if disposer.None? { StepRefl(rt1); } }
      StepTrans(rt, rt1, rt2);
      if owner >= |rt2.scopes| then Err(Dangling)
      else
        var (rt3, child, key) := NewChildScope(rt2, owner);
        StepNewChildScope(rt2, owner);
        StepTrans(rt, rt2, rt3);
        match Run(rt3, fuel, child, body)
        case Err(x) => Err(x)
        case Ok(rt4) =>
          StepTrans(rt, rt3, rt4);
          StepSetKind(rt4, e, Scoped(body, Some(key)));
          var rt5 := SetEffect(rt4, e, rt4.effects[e].(kind := Scoped(body, Some(key))));
          StepTrans(rt, rt4, rt5);
          Ok(rt5)
  }

  /** The closure of `create_selector_with` (`src/memo.rs:62-85`). On the first run it
      creates the output signal holding `f()`. Later runs compute `f()`, read the
      output (tracked), and, unless the comparator calls the two equal, set the output
      to the result of a second call of `f`. */
  function RunSelector(rt: Runtime, fuel: nat, e: EffectId, f: Expr, cmp: Comparator,
                       out: Option<SignalId>): (r: Res)
    requires e < |rt.effects| && CodeOf(rt.effects[e].kind) == SelectorCode(f, cmp)
    ensures r.Ok? ==> Step(rt, r.rt)
    decreases fuel, 1, 2, 0
  {
    var owner := rt.effects[e].owner;
    if !CheckExpr(|rt.signals|, f) then Err(Dangling)
    else
      match out
      case None =>
        if owner >= |rt.scopes| then Err(Dangling)
        else
          var rt1 := TrackAll(rt, Reads(f));
          StepTrackExpr(rt, f);
          var (rt2, o) := NewSignal(rt1, owner, EvalExpr(rt.signals, f));
          StepNewSignal(rt1, owner, EvalExpr(rt.signals, f));
          StepSetKind(rt2, e, Selector(f, cmp, Some(o)));
          var rt3 := SetEffect(rt2, e, rt2.effects[e].(kind := Selector(f, cmp, Some(o))));
          StepTrans(rt, rt1, rt2);
          StepTrans(rt, rt2, rt3);
          Ok(rt3)
      case Some(o) =>
        if o >= |rt.signals| then Err(Dangling)
        else
          var next := EvalExpr(rt.signals, f);
          var rt0 := TrackAll(rt, Reads(f));
          StepTrackExpr(rt, f);
          var rt1 := TrackAll(rt0, {o});
          StepTrackAll(rt0, {o});
          StepTrans(rt, rt0, rt1);
          if Same(cmp, next, rt1.signals[o].value) then Ok(rt1)
          else
            var rt2 := TrackAll(rt1, Reads(f));
            StepTrackExpr(rt1, f);
            StepTrans(rt, rt1, rt2);
            var r := SetAndTrigger(rt2, fuel, o, EvalExpr(rt2.signals, f));
            if r.Ok? then StepTrans(rt, rt2, r.rt); r else r
  }

  /** The disposer returned by `create_child_scope` (`src/lib.rs:218-227`): remove the
      key from the parent's `child_scopes` (the `unwrap` panics if it is gone) and drop
      the child scope. */
  function CallChildDisposer(rt: Runtime, fuel: nat, parent: ScopeId, key: SlotMap.Key): (r: Res)
    ensures r.Ok? ==> Step(rt, r.rt)
    decreases fuel, 0, 7, 0
  {
    if parent >= |rt.scopes| then Err(Dangling)
    else
      var (children, removed) := SlotMap.Remove(rt.scopes[parent].children, key);
      match removed
      case None => Err(Panic("called `Option::unwrap()` on a `None` value"))
      case Some(child) =>
        StepSetScope(rt, parent, rt.scopes[parent].(children := children));
        var rt1 := SetScope(rt, parent, rt.scopes[parent].(children := children));
        var r := DropScope(rt1, fuel, child);
        if r.Ok? then StepTrans(rt, rt1, r.rt); r else r
  }

  /** Dropping a `Box<Scope>` after an explicit `dispose()`: the explicit call and then
      the one in `Drop for Scope`. */
  function DropScope(rt: Runtime, fuel: nat, s: ScopeId): (r: Res)
    ensures r.Ok? ==> Step(rt, r.rt)
    decreases fuel, 0, 6, 0
  {
    match Dispose(rt, fuel, s)
    case Err(x) => Err(x)
    case Ok(rt1) =>
      var r := Dispose(rt1, fuel, s);
      if r.Ok? then StepTrans(rt, rt1, r.rt); r else r
  }

  /** `Scope::dispose` (`src/lib.rs:239-262`): dispose the child scopes, drop the
      effects, run the cleanups (untracked, in registration order), free the contexts,
      and dispose the arena. Each collection is taken (left empty) before it is used. */
  function Dispose(rt: Runtime, fuel: nat, s: ScopeId): (r: Res)
    ensures r.Ok? ==> Step(rt, r.rt)
    decreases fuel, 0, 5, 0
  {
    if s >= |rt.scopes| then Err(Dangling)
    else
      var children := SlotMap.Values(rt.scopes[s].children);
      StepSetScope(rt, s, rt.scopes[s].(children := SlotMap.Empty()));
      var rt1 := SetScope(rt, s, rt.scopes[s].(children := SlotMap.Empty()));
      match DisposeChildren(rt1, fuel, children)
      case Err(x) => Err(x)
      case Ok(rt2) =>
        StepTrans(rt, rt1, rt2);
        var rt3 := DropEffects(rt2, s);
        StepDropEffects(rt2, s);
        StepTrans(rt, rt2, rt3);
        match DisposeCleanups(rt3, fuel, s)
        case Err(x) => Err(x)
        case Ok(rt4) =>
          StepTrans(rt, rt3, rt4);
          var rt5 := DisposeArena(FreeContexts(rt4, s), s);
          StepFreeAndDrop(rt4, s);
          StepTrans(rt, rt4, rt5);
          Ok(rt5)
  }

  /** The cleanup phase of `dispose`: take the callbacks and call them inside `untrack`
      (`src/lib.rs:249-254`), so the effect stack is empty while they run and restored
      afterwards. */
  function DisposeCleanups(rt: Runtime, fuel: nat, s: ScopeId): (r: Res)
    requires s < |rt.scopes|
    ensures r.Ok? ==> Step(rt, r.rt)
    decreases fuel, 0, 4, 0
  {
    var cs := rt.scopes[s].cleanups;
    var rt1 := SetScope(rt, s, rt.scopes[s].(cleanups := []));
    match RunCleanups(rt1.(stack := []), fuel, s, cs)
    case Err(x) => Err(x)
    case Ok(rt2) =>
      TakenCleanupsStep(rt, s, rt2);
      Ok(rt2.(stack := rt.stack))
  }

  /** Taking a scope's cleanups, calling them all on an empty stack and restoring the
      stack is a step: the taken callbacks leave the pending set exactly when they are
      logged as called. */
  lemma TakenCleanupsStep(rt: Runtime, s: ScopeId, rt2: Runtime)
    requires s < |rt.scopes|
    requires var rt1 := SetScope(rt, s, rt.scopes[s].(cleanups := [])).(stack := []);
             && Evolves(rt1, rt2)
             && (Inv(rt1) ==> Inv(rt2))
             && (forall extra :: CleanOk(rt1, extra + Ids(rt.scopes[s].cleanups)) ==> CleanOk(rt2, extra))
             && (forall c | c in rt.scopes[s].cleanups :: CleanupRan(c.id) in rt2.log)
    ensures Step(rt, rt2.(stack := rt.stack))
  {
    var rt0 := SetScope(rt, s, rt.scopes[s].(cleanups := []));
    var rt1 := rt0.(stack := []);
    var rt3 := rt2.(stack := rt.stack);
    forall sc, c | 0 <= sc < |rt.scopes| && c in rt.scopes[sc].cleanups
      ensures c in rt3.scopes[sc].cleanups || CleanupRan(c.id) in rt3.log
    {
      if sc != s { assert c in rt1.scopes[sc].cleanups; }
    }
    assert Evolves(rt, rt3);
    if Inv(rt) {
      InvSetScope(rt, s, rt.scopes[s].(cleanups := []));
      InvWithStack(rt0, []);
      InvWithStack(rt2, rt.stack);
    }
    forall extra | CleanOk(rt, extra) ensures CleanOk(rt3, extra) {
      CleanTake(rt, s, extra);
      assert CleanOk(rt1, extra + Ids(rt.scopes[s].cleanups));
      assert CleanOk(rt2, extra);
    }
  }

  /** The loop over the taken `child_scopes`, each child dropped in slot order. */
  function DisposeChildren(rt: Runtime, fuel: nat, cs: seq<ScopeId>): (r: Res)
    ensures r.Ok? ==> Step(rt, r.rt)
    decreases fuel, 0, 4, |cs|
  {
    if cs == [] then StepRefl(rt); Ok(rt)
    else if fuel == 0 then Err(OutOfFuel)
    else
      match DropScope(rt, fuel - 1, cs[0])
      case Err(x) => Err(x)
      case Ok(rt1) =>
        var r := DisposeChildren(rt1, fuel, cs[1..]);
        if r.Ok? then StepTrans(rt, rt1, r.rt); r else r
  }

  /** The loop over the taken cleanups, each called once with the scope as `ctx`. The
      taken callbacks belong to no scope while they run, so their identities are
      carried in `extra`. */
  function RunCleanups(rt: Runtime, fuel: nat, s: ScopeId, cs: seq<Cleanup>): (r: Res)
    ensures r.Ok? ==> Evolves(rt, r.rt) && (Inv(rt) ==> Inv(r.rt))
    ensures r.Ok? ==> forall extra :: CleanOk(rt, extra + Ids(cs)) ==> CleanOk(r.rt, extra)
    ensures r.Ok? ==> forall c | c in cs :: CleanupRan(c.id) in r.rt.log
    decreases fuel, 0, 3, |cs|
  {
    if cs == [] then EvolvesRefl(rt); Ok(rt)
    else if fuel == 0 then Err(OutOfFuel)
    else
      var rt1 := rt.(log := rt.log + [CleanupRan(cs[0].id)]);
      match Run(rt1, fuel - 1, s, cs[0].body)
      case Err(x) => Err(x)
      case Ok(rt2) =>
        var r := RunCleanups(rt2, fuel, s, cs[1..]);
        if r.Err? then r
        else
          CallCleanupStep(rt, cs, rt2, r.rt);
          CallCleanupClean(rt, cs, rt2, r.rt);
          r
  }
}
