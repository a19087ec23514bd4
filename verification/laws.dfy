/** Laws of the public operations: what a caller of `src/signal.rs`, `src/effect.rs`,
    `src/memo.rs`, `src/lib.rs` and `src/context.rs` can rely on, stated over the
    operations of `Api` and proved from the engine.
 */
module Laws {

  import opened Wrappers
  import opened State
  import opened Invariant
  import opened Engine
  import opened Trace
  import Api
  import Emitter
  import SlotMap
  import Context
  import Disposal
  import Tracking
  import Arena

  // ---------------------------------------------------------------- effect runs

  /** One run of an effect logs the effect first and never runs it again before it
      returns, whatever its body writes (the re-entrancy guard of
      `src/signal.rs:50-56`; test `src/effect.rs:211-220`). */
  lemma RunEffectOnce(rt: Runtime, fuel: nat, e: EffectId)
    requires e < |rt.effects| && !rt.effects[e].running
    ensures var r := RunEffect(rt, fuel, e);
            r.Ok? ==> && |rt.log| < |r.rt.log| && r.rt.log[|rt.log|] == EffectRan(e)
                      && forall i | |rt.log| < i < |r.rt.log| :: r.rt.log[i] != EffectRan(e)
  {
    var r := RunEffect(rt, fuel, e);
    if r.Ok? {
      var b := Begin(rt, e);
      var rt2 := RunClosure(b, fuel - 1, e).rt;
      assert Step(b, rt2);
      assert b.log[|rt.log|] == EffectRan(e);
      assert b.effects[e].running;
    }
  }

  /** Notification calls the first effect of the snapshot first, if it can be called. */
  lemma NotifyFirst(rt: Runtime, fuel: nat, order: seq<EffectId>)
    requires |order| > 0 && order[0] < |rt.effects|
    requires rt.effects[order[0]].alive && !rt.effects[order[0]].running
    ensures var r := Notify(rt, fuel, order);
            r.Ok? ==> |rt.log| < |r.rt.log| && r.rt.log[|rt.log|] == EffectRan(order[0])
  {
    var r := Notify(rt, fuel, order);
    if r.Ok? {
      RunEffectOnce(rt, fuel, order[0]);
      var rt1 := RunEffect(rt, fuel, order[0]).rt;
      assert r == Notify(rt1, fuel, order[1..]);
      assert rt1.log <= r.rt.log;
    }
  }

  /** A snapshot entry whose effect was dropped, or whose callback is running, is
      skipped (`src/signal.rs:50-56`). */
  lemma NotifySkips(rt: Runtime, fuel: nat, order: seq<EffectId>)
    requires |order| > 0
    requires order[0] < |rt.effects| ==> !rt.effects[order[0]].alive || rt.effects[order[0]].running
    ensures Notify(rt, fuel, order) == Notify(rt, fuel, order[1..])
  {
  }

  // ---------------------------------------------------------------- signals

  /** `set` then `get` (`src/signal.rs:165-168`, test `src/signal.rs:267-275`): with
      nobody subscribed, the new value is read back and no effect runs. */
  lemma SetThenGet(rt: Runtime, fuel: nat, s: SignalId, v: Value)
    requires s < |rt.signals| && rt.signals[s].subs == []
    ensures var r := Api.Set(rt, fuel, s, v);
            && r.Ok? && r.rt.log == rt.log
            && Api.Get(r.rt, s).Out? && Api.Get(r.rt, s).value == v
  {
    Api.TriggerNobody(Assign(rt, s, v), fuel, s);
  }

  /** `set` has no equality check (`src/signal.rs:165-168`): even writing the value the
      signal already holds calls the subscribers, the last one subscribed first. */
  lemma SetAlwaysNotifies(rt: Runtime, fuel: nat, s: SignalId, v: Value)
    requires s < |rt.signals| && |rt.signals[s].subs| > 0
    requires var d := rt.signals[s].subs[|rt.signals[s].subs| - 1];
             d < |rt.effects| && rt.effects[d].alive && !rt.effects[d].running
    ensures var r := Api.Set(rt, fuel, s, v);
            r.Ok? ==> && |rt.log| < |r.rt.log|
                      && r.rt.log[|rt.log|] == EffectRan(rt.signals[s].subs[|rt.signals[s].subs| - 1])
  {
    var rt1 := Assign(rt, s, v);
    var order := Emitter.NotifyOrder(rt1.signals[s].subs);
    Emitter.NotifyOrderFirst(rt1.signals[s].subs);
    assert order[0] == rt.signals[s].subs[|rt.signals[s].subs| - 1];
    NotifyFirst(rt1, fuel, order);
    assert Trigger(rt1, fuel, s) == Notify(rt1, fuel, order);
    assert Api.Set(rt, fuel, s, v) == SetAndTrigger(rt, fuel, s, v) == Trigger(rt1, fuel, s);
  }

  /** `set_silent` then `get` (`src/signal.rs:173-175`, test `src/signal.rs:290-299`):
      the new value is read back, every other signal (such as a memo derived from this
      one) keeps its value, and no effect runs. */
  lemma SetSilentThenGet(rt: Runtime, s: SignalId, v: Value)
    requires s < |rt.signals|
    ensures var r := Api.SetSilent(rt, s, v);
            && r.Ok? && r.rt.log == rt.log
            && Api.Get(r.rt, s).Out? && Api.Get(r.rt, s).value == v
            && forall x | 0 <= x < |rt.signals| && x != s ::
                 Api.Get(r.rt, x).Out? && Api.Get(r.rt, x).value == rt.signals[x].value
  {
  }

  /** `take` (`src/signal.rs:182-186`, test `src/signal.rs:326-334`): the old value is
      returned and the default is left behind. */
  lemma TakeThenGet(rt: Runtime, fuel: nat, s: SignalId)
    requires s < |rt.signals| && rt.signals[s].subs == []
    ensures var r := Api.Take(rt, fuel, s);
            && r.Out? && r.value == rt.signals[s].value && r.rt.log == rt.log
            && Api.Get(r.rt, s).Out? && Api.Get(r.rt, s).value == Default
  {
    Api.TriggerNobody(Assign(rt, s, Default), fuel, s);
  }

  /** `take_silent` (`src/signal.rs:191-193`, test `src/signal.rs:337-347`): the old
      value is returned, the default is left behind, and no effect runs. */
  lemma TakeSilentThenGet(rt: Runtime, s: SignalId)
    requires s < |rt.signals|
    ensures var r := Api.TakeSilent(rt, s);
            && r.Out? && r.value == rt.signals[s].value && r.rt.log == rt.log
            && Api.Get(r.rt, s).Out? && Api.Get(r.rt, s).value == Default
  {
  }

  /** `get_untracked` (`src/signal.rs:96-109`) adds no dependency: evaluating it in a
      body changes nothing, while `get` makes the signal a dependency of the running
      effect. */
  lemma UntrackedReadTracksNothing(rt: Runtime, fuel: nat, scope: ScopeId, s: SignalId)
    requires s < |rt.signals|
    ensures Exec(rt, fuel, scope, Eval(Expr.GetUntracked(s))) == Ok(rt)
    ensures var r := Exec(rt, fuel, scope, Eval(Expr.Get(s)));
            && r.Ok? && |r.rt.effects| == |rt.effects|
            && forall e | 0 <= e < |rt.effects| && IsTop(rt, e) :: s in r.rt.effects[e].deps
  {
    Tracking.TrackNothing(rt);
  }

  /** `SignalEmitter::track` (`src/signal.rs:28-37`) outside any effect does nothing. */
  lemma TrackWithoutEffect(rt: Runtime, s: SignalId)
    requires s < |rt.signals| && rt.stack == []
    ensures Api.Track(rt, s) == Ok(rt)
  {
  }

  // ---------------------------------------------------------------- effects

  /** `create_effect` runs the body exactly once (`src/effect.rs:122-123`, test
      `src/effect.rs:192-208`): the new effect's run is the first thing logged and it is
      not run again before `create_effect` returns. The effect stack is as before. */
  lemma EffectRunsOnceAtCreation(rt: Runtime, fuel: nat, scope: ScopeId, body: seq<Instr>)
    ensures var r := Api.CreateEffect(rt, fuel, scope, body);
            r.Out? ==> && r.rt.stack == rt.stack
                       && |rt.log| < |r.rt.log| && r.rt.log[|rt.log|] == EffectRan(r.value)
                       && forall i | |rt.log| < i < |r.rt.log| :: r.rt.log[i] != EffectRan(r.value)
  {
    var r := Api.CreateEffect(rt, fuel, scope, body);
    if r.Out? {
      var e := |rt.effects|;
      var rt1 := rt.(effects := rt.effects + [EffectCell(Plain(body), scope, {}, false, true)]);
      RunEffectOnce(rt1, fuel, e);
    }
  }

  /** A new effect depends on exactly what its first run read (`src/effect.rs:82-106`,
      test `src/effect.rs:244-279`), and under the invariant it is subscribed to exactly
      those signals, once each. */
  lemma EffectTracksItsReads(rt: Runtime, fuel: nat, scope: ScopeId, body: seq<Instr>)
    requires scope < |rt.scopes| && fuel > 0 && Tracking.ReadOnly(|rt.signals|, body)
    ensures var r := Api.CreateEffect(rt, fuel, scope, body);
            && r.Out? && r.value < |r.rt.effects| && |r.rt.signals| == |rt.signals|
            && r.rt.effects[r.value].deps == Tracking.ReadsOf(rt.signals, body)
            && (Inv(rt) ==> forall x | 0 <= x < |rt.signals| ::
                              && Emitter.NoDup(r.rt.signals[x].subs)
                              && (r.value in r.rt.signals[x].subs <==> x in Tracking.ReadsOf(rt.signals, body)))
  {
    var e := |rt.effects|;
    var cell := EffectCell(Plain(body), scope, {}, false, true);
    var rt1 := rt.(effects := rt.effects + [cell]);
    Tracking.RerunRecomputesDeps(rt1, fuel, e, body);
    if Inv(rt) {
      InvNewEffect(rt, cell);
    }
  }

  /** `Begin` changes subscriptions, never values, so expressions evaluate alike. */
  lemma BeginKeepsValues(rt: Runtime, e: EffectId, f: Expr)
    requires e < |rt.effects| && ExprValid(|rt.signals|, f)
    ensures ExprValid(|Begin(rt, e).signals|, f)
    ensures EvalExpr(Begin(rt, e).signals, f) == EvalExpr(rt.signals, f)
  {
    var b := Begin(rt, e);
    assert Tracking.SameValues(b.signals, rt.signals);
    Tracking.EvalSameValues(rt.signals, b.signals, f);
  }

  /** `create_effect_scoped` (`src/effect.rs:129-145`, test `src/lib.rs:304-326`): a
      re-run first disposes the child scope of the previous run, and only then runs the
      body in a new child scope. The state `mid` is the one the previous run's disposer
      returns inside this run: every cleanup registered in the previous child scope has
      been called in the log up to `mid`, and the new body runs from `mid` on, so each of
      its events, and each run it triggers, comes later. */
  lemma ScopedRerunDisposesPrevious(rt: Runtime, fuel: nat, e: EffectId, body: seq<Instr>,
                                    key: SlotMap.Key)
    requires e < |rt.effects| && !rt.effects[e].running
    requires rt.effects[e].kind == Scoped(body, Some(key)) && rt.effects[e].owner < |rt.scopes|
    ensures var r := RunEffect(rt, fuel, e);
            var owner := rt.effects[e].owner;
            var child := SlotMap.Get(rt.scopes[owner].children, key);
            r.Ok? ==> && child.Some? && CleanupsDone(rt, child.value, r.rt.log) && fuel > 0
                      && var mid := AfterDisposer(Begin(rt, e), fuel - 1, e, body, key);
                         && DisposerReturned(Begin(rt, e), fuel - 1, e, body, key, mid)
                         && |rt.log| <= |mid.log| && mid.log <= r.rt.log
                         && CleanupsDone(rt, child.value, mid.log)
                         && BodyRunsAfter(mid, owner, fuel - 1, body, r.rt.log)
  {
    if RunEffect(rt, fuel, e).Ok? {
      var rt2 := RunEffectOk(rt, fuel, e);
      ScopedBeginDisposes(rt, fuel, e, body, key, rt2);
      assert Finish(rt2, e).log == rt2.log;
    }
  }

  /** From `rt`, the start of the scoped closure `e`, the call of the previous run's
      disposer succeeds and returns `mid`. */
  ghost predicate DisposerReturned(rt: Runtime, fuel: nat, e: EffectId, body: seq<Instr>,
                                   key: SlotMap.Key, mid: Runtime) {
    && e < |rt.effects|
    && var rt1 := SetEffect(rt, e, rt.effects[e].(kind := Scoped(body, None)));
       CallChildDisposer(rt1, fuel, rt.effects[e].owner, key) == Ok(mid)
  }

  /** The body runs in a new child of `owner` created from `mid`, and every event it logs
      is in `log`. */
  ghost predicate BodyRunsAfter(mid: Runtime, owner: ScopeId, fuel: nat, body: seq<Instr>,
                                log: seq<Event>) {
    && owner < |mid.scopes|
    && var (rt3, child, _) := NewChildScope(mid, owner);
       var r := Run(rt3, fuel, child, body);
       r.Ok? && r.rt.log <= log
  }

  /** The state a scoped run has reached once the previous run's disposer returns. */
  ghost function AfterDisposer(rt: Runtime, fuel: nat, e: EffectId, body: seq<Instr>,
                               key: SlotMap.Key): Runtime
    requires e < |rt.effects|
  {
    var rt1 := SetEffect(rt, e, rt.effects[e].(kind := Scoped(body, None)));
    match CallChildDisposer(rt1, fuel, rt.effects[e].owner, key)
    case Ok(mid) => mid
    case Err(_) => rt1
  }

  lemma ScopedBeginDisposes(rt: Runtime, fuel: nat, e: EffectId, body: seq<Instr>,
                            key: SlotMap.Key, rt2: Runtime)
    requires e < |rt.effects| && !rt.effects[e].running
    requires rt.effects[e].kind == Scoped(body, Some(key)) && rt.effects[e].owner < |rt.scopes|
    requires fuel > 0 && ClosureEnds(Begin(rt, e), fuel - 1, e, rt2)
    ensures var child := SlotMap.Get(rt.scopes[rt.effects[e].owner].children, key);
            var mid := AfterDisposer(Begin(rt, e), fuel - 1, e, body, key);
            && child.Some? && CleanupsDone(rt, child.value, rt2.log)
            && DisposerReturned(Begin(rt, e), fuel - 1, e, body, key, mid)
            && |rt.log| <= |mid.log| && mid.log <= rt2.log
            && CleanupsDone(rt, child.value, mid.log)
            && BodyRunsAfter(mid, rt.effects[e].owner, fuel - 1, body, rt2.log)
  {
    var b := Begin(rt, e);
    ScopedClosureDisposes(b, fuel - 1, e, body, key, rt2);
    var child := SlotMap.Get(rt.scopes[rt.effects[e].owner].children, key);
    var mid := AfterDisposer(b, fuel - 1, e, body, key);
    CleanupsDoneSameScopes(b, rt, child.value, rt2.log);
    CleanupsDoneSameScopes(b, rt, child.value, mid.log);
  }

  lemma CleanupsDoneSameScopes(a: Runtime, b: Runtime, s: ScopeId, log: seq<Event>)
    requires a.scopes == b.scopes && CleanupsDone(a, s, log)
    ensures CleanupsDone(b, s, log)
  {
  }

  lemma ScopedClosureDisposes(rt: Runtime, fuel: nat, e: EffectId, body: seq<Instr>,
                              key: SlotMap.Key, rt2: Runtime)
    requires e < |rt.effects|
    requires rt.effects[e].kind == Scoped(body, Some(key)) && rt.effects[e].owner < |rt.scopes|
    requires ClosureEnds(rt, fuel, e, rt2)
    ensures var child := SlotMap.Get(rt.scopes[rt.effects[e].owner].children, key);
            var mid := AfterDisposer(rt, fuel, e, body, key);
            && child.Some? && CleanupsDone(rt, child.value, rt2.log)
            && DisposerReturned(rt, fuel, e, body, key, mid)
            && |rt.log| <= |mid.log| && mid.log <= rt2.log
            && CleanupsDone(rt, child.value, mid.log)
            && BodyRunsAfter(mid, rt.effects[e].owner, fuel, body, rt2.log)
  {
    var owner := rt.effects[e].owner;
    var rt1 := SetEffect(rt, e, rt.effects[e].(kind := Scoped(body, None)));
    assert RunClosure(rt, fuel, e) == RunScoped(rt, fuel, e, body, Some(key));
    var r2 := CallChildDisposer(rt1, fuel, owner, key);
    assert r2.Ok?;
    assert Api.ChildDisposer(rt1, fuel, owner, key) == r2;
    assert Evolves(r2.rt, rt2) by { ScopedTail(rt, fuel, e, body, key, r2.rt); }
    var child := SlotMap.Get(rt.scopes[owner].children, key).value;
    CleanupsDoneLonger(rt1, child, r2.rt.log, rt2.log);
    ScopedBodyAfter(rt, fuel, e, body, key, r2.rt);
  }

  /** After the disposer call, a scoped run creates the new child and runs the body
      there; what it logs is what the whole run logs. */
  lemma ScopedBodyAfter(rt: Runtime, fuel: nat, e: EffectId, body: seq<Instr>, key: SlotMap.Key,
                        mid: Runtime)
    requires e < |rt.effects| && rt.effects[e].kind == Scoped(body, Some(key))
    requires var rt1 := SetEffect(rt, e, rt.effects[e].(kind := Scoped(body, None)));
             CallChildDisposer(rt1, fuel, rt.effects[e].owner, key) == Ok(mid)
    requires RunScoped(rt, fuel, e, body, Some(key)).Ok?
    ensures BodyRunsAfter(mid, rt.effects[e].owner, fuel, body, RunScoped(rt, fuel, e, body, Some(key)).rt.log)
  {
  }

  /** What follows the disposer call in a scoped run only extends the log. */
  lemma ScopedTail(rt: Runtime, fuel: nat, e: EffectId, body: seq<Instr>, key: SlotMap.Key,
                   rt2: Runtime)
    requires e < |rt.effects| && rt.effects[e].kind == Scoped(body, Some(key))
    requires var rt1 := SetEffect(rt, e, rt.effects[e].(kind := Scoped(body, None)));
             CallChildDisposer(rt1, fuel, rt.effects[e].owner, key) == Ok(rt2)
    requires RunScoped(rt, fuel, e, body, Some(key)).Ok?
    ensures Evolves(rt2, RunScoped(rt, fuel, e, body, Some(key)).rt)
  {
    var owner := rt.effects[e].owner;
    var (rt3, child, k) := NewChildScope(rt2, owner);
    StepNewChildScope(rt2, owner);
    var rt4 := Run(rt3, fuel, child, body).rt;
    StepTrans(rt2, rt3, rt4);
    StepSetKind(rt4, e, Scoped(body, Some(k)));
    StepTrans(rt2, rt4, SetEffect(rt4, e, rt4.effects[e].(kind := Scoped(body, Some(k)))));
  }

  // ---------------------------------------------------------------- memos

  /** The first run of a selector's effect (`src/memo.rs:78-80`): the output signal is
      created holding `f()`, and the effect tracks what `f` reads. */
  lemma SelectorFirstRun(rt: Runtime, fuel: nat, e: EffectId, f: Expr, cmp: Comparator)
    requires e < |rt.effects| && rt.effects[e].kind == Selector(f, cmp, None)
    requires rt.effects[e].owner < |rt.scopes| && ExprValid(|rt.signals|, f)
    ensures var r := RunClosure(rt, fuel, e);
            && r.Ok? && |r.rt.signals| == |rt.signals| + 1 && e < |r.rt.effects|
            && r.rt.signals[|rt.signals|].value == EvalExpr(rt.signals, f)
            && r.rt.effects[e].kind == Selector(f, cmp, Some(|rt.signals|))
            && (IsTop(rt, e) ==> r.rt.effects[e].deps == rt.effects[e].deps + Reads(f))
  {
  }

  /** `create_memo`, `create_selector` and `create_selector_with` (`src/memo.rs:62-85`,
      doc `src/memo.rs:12-18`): creation always succeeds when the scope id names a
      scope, and the output is a new signal holding `f()` evaluated at creation, whose
      effect depends on exactly what `f` reads. The `unwrap` of the captured signal never panics. */
  lemma MemoInitialValue(rt: Runtime, fuel: nat, scope: ScopeId, f: Expr, cmp: Comparator)
    requires scope < |rt.scopes| && fuel > 0 && ExprValid(|rt.signals|, f)
    ensures var r := Api.CreateSelectorWith(rt, fuel, scope, f, cmp);
            && r.Out? && r.value == |rt.signals| && r.value < |r.rt.signals|
            && r.rt.signals[r.value].value == EvalExpr(rt.signals, f)
            && |rt.effects| < |r.rt.effects| && r.rt.effects[|rt.effects|].deps == Reads(f)
  {
    var e := |rt.effects|;
    var rt1 := rt.(effects := rt.effects + [EffectCell(Selector(f, cmp, None), scope, {}, false, true)]);
    SelectorFirstEffect(rt1, fuel, e, f, cmp);
    var rt2 := RunEffect(rt1, fuel, e).rt;
    assert Spawn(rt, fuel, scope, Selector(f, cmp, None))
        == Ok(SetScope(rt2, scope, rt2.scopes[scope].(effects := rt2.scopes[scope].effects + [e])));
  }

  /** The first run of a selector's effect, from beginning to end. */
  lemma SelectorFirstEffect(rt: Runtime, fuel: nat, e: EffectId, f: Expr, cmp: Comparator)
    requires e < |rt.effects| && !rt.effects[e].running && rt.effects[e].kind == Selector(f, cmp, None)
    requires rt.effects[e].owner < |rt.scopes| && ExprValid(|rt.signals|, f) && fuel > 0
    ensures var r := RunEffect(rt, fuel, e);
            && r.Ok? && |r.rt.signals| == |rt.signals| + 1 && e < |r.rt.effects|
            && r.rt.signals[|rt.signals|].value == EvalExpr(rt.signals, f)
            && r.rt.effects[e].kind == Selector(f, cmp, Some(|rt.signals|))
            && r.rt.effects[e].deps == Reads(f)
  {
    var b := Begin(rt, e);
    BeginKeepsValues(rt, e, f);
    assert IsTop(b, e) && b.effects[e].deps == {};
    var k: nat := fuel - 1;
    SelectorFirstRun(b, k, e, f, cmp);
    var rt3 := RunClosure(b, k, e).rt;
    assert ClosureEnds(b, k, e, rt3);
    RunEffectUnfold(rt, fuel, e, rt3);
  }

  /** A selector re-run whose comparator calls the new value equal to the stored one
      (`src/memo.rs:72-77`) writes nothing and runs nothing else: every signal keeps its
      value, and the effect now depends on what `f` read and on its own output. */
  lemma SelectorSkipsEqual(rt: Runtime, fuel: nat, e: EffectId, f: Expr, cmp: Comparator,
                           o: SignalId)
    requires e < |rt.effects| && !rt.effects[e].running && rt.effects[e].kind == Selector(f, cmp, Some(o))
    requires fuel > 0 && o < |rt.signals| && ExprValid(|rt.signals|, f)
    requires Same(cmp, EvalExpr(rt.signals, f), rt.signals[o].value)
    ensures var r := RunEffect(rt, fuel, e);
            && r.Ok? && r.rt.log == rt.log + [EffectRan(e)] && |r.rt.signals| == |rt.signals|
            && (forall x | 0 <= x < |rt.signals| :: r.rt.signals[x].value == rt.signals[x].value)
            && e < |r.rt.effects| && r.rt.effects[e].deps == Reads(f) + {o}
  {
    var b := Begin(rt, e);
    BeginKeepsValues(rt, e, f);
    assert b.signals[o].value == rt.signals[o].value;
    var rt3 := TrackAll(TrackAll(b, Reads(f)), {o});
    var k: nat := fuel - 1;
    SelectorSkipClosure(b, k, e, f, cmp, o, rt3);
    RunEffectUnfold(rt, fuel, e, rt3);
    assert IsTop(b, e);
  }

  lemma SelectorSkipClosure(rt: Runtime, fuel: nat, e: EffectId, f: Expr, cmp: Comparator,
                            o: SignalId, rt3: Runtime)
    requires e < |rt.effects| && rt.effects[e].kind == Selector(f, cmp, Some(o))
    requires o < |rt.signals| && ExprValid(|rt.signals|, f)
    requires Same(cmp, EvalExpr(rt.signals, f), rt.signals[o].value)
    requires rt3 == TrackAll(TrackAll(rt, Reads(f)), {o})
    ensures rt3.signals == rt.signals && rt3.log == rt.log
    ensures ClosureEnds(rt, fuel, e, rt3)
  {
    assert RunClosure(rt, fuel, e) == RunSelector(rt, fuel, e, f, cmp, Some(o));
  }

  /** A selector re-run whose comparator reports a difference (`src/memo.rs:73-76`;
      with `create_memo`'s comparator, every re-run) stores `f()` in the output. When no
      effect other than the memo's own subscribes to the output, no other signal changes
      and nothing else runs: the memo's own subscription is dropped by `Begin`. */
  lemma SelectorWritesWhenDifferent(rt: Runtime, fuel: nat, e: EffectId, f: Expr,
                                    cmp: Comparator, o: SignalId)
    requires e < |rt.effects| && !rt.effects[e].running && rt.effects[e].kind == Selector(f, cmp, Some(o))
    requires fuel > 0 && o < |rt.signals| && ExprValid(|rt.signals|, f)
    requires !Same(cmp, EvalExpr(rt.signals, f), rt.signals[o].value)
    requires OnlySelfSubscribed(rt, e, o)
    ensures var r := RunEffect(rt, fuel, e);
            && r.Ok? && r.rt.log == rt.log + [EffectRan(e)] && |r.rt.signals| == |rt.signals|
            && r.rt.signals[o].value == EvalExpr(rt.signals, f)
            && (forall x | 0 <= x < |rt.signals| && x != o :: r.rt.signals[x].value == rt.signals[x].value)
  {
    var v := EvalExpr(rt.signals, f);
    var rt2 := TrackAll(TrackAll(TrackAll(Begin(rt, e), Reads(f)), {o}), Reads(f));
    SelectorWriteEffect(rt, fuel, e, f, cmp, o, v, rt2);
  }

  /** The re-run that writes, as begin, the closure and finish. */
  lemma SelectorWriteEffect(rt: Runtime, fuel: nat, e: EffectId, f: Expr, cmp: Comparator,
                            o: SignalId, v: Value, rt2: Runtime)
    requires e < |rt.effects| && !rt.effects[e].running && rt.effects[e].kind == Selector(f, cmp, Some(o))
    requires fuel > 0 && o < |rt.signals| && ExprValid(|rt.signals|, f) && v == EvalExpr(rt.signals, f)
    requires !Same(cmp, v, rt.signals[o].value)
    requires OnlySelfSubscribed(rt, e, o)
    requires rt2 == TrackAll(TrackAll(TrackAll(Begin(rt, e), Reads(f)), {o}), Reads(f))
    ensures o < |rt2.signals| && |rt2.stack| > 0 && e < |rt2.effects|
    ensures var rt3 := Assign(rt2, o, v);
            && RunEffect(rt, fuel, e) == Ok(Finish(rt3, e))
            && rt3.log == rt.log + [EffectRan(e)] && |rt3.signals| == |rt.signals|
            && rt3.signals[o].value == v
            && forall x | 0 <= x < |rt.signals| && x != o :: rt3.signals[x].value == rt.signals[x].value
  {
    BeginClearsSelf(rt, e, o);
    SelectorWriteRun(rt, fuel, e, f, cmp, o, v, rt2);
    BeginAssignValues(rt, e, rt2, o, v);
  }

  /** The writing re-run returns the finished state of the write, and the closure kept
      `Begin`'s signals and log up to the write. */
  lemma SelectorWriteRun(rt: Runtime, fuel: nat, e: EffectId, f: Expr, cmp: Comparator,
                         o: SignalId, v: Value, rt2: Runtime)
    requires e < |rt.effects| && !rt.effects[e].running && rt.effects[e].kind == Selector(f, cmp, Some(o))
    requires fuel > 0 && o < |rt.signals| && ExprValid(|rt.signals|, f) && v == EvalExpr(rt.signals, f)
    requires !Same(cmp, v, rt.signals[o].value)
    requires Begin(rt, e).signals[o].subs == []
    requires rt2 == TrackAll(TrackAll(TrackAll(Begin(rt, e), Reads(f)), {o}), Reads(f))
    ensures o < |rt2.signals| && |rt2.stack| > 0 && e < |rt2.effects|
    ensures rt2.signals == Begin(rt, e).signals && rt2.log == Begin(rt, e).log
    ensures RunEffect(rt, fuel, e) == Ok(Finish(Assign(rt2, o, v), e))
  {
    var b := Begin(rt, e);
    var k: nat := fuel - 1;
    assert o < |rt2.signals| && rt2.signals == b.signals && rt2.log == b.log
           && ClosureEnds(b, k, e, Assign(rt2, o, v)) by {
      BeginKeepsValues(rt, e, f);
      assert b.signals[o].value == rt.signals[o].value;
      SelectorWriteClosure(b, k, e, f, cmp, o, v, rt2);
    }
    RunEffectUnfold(rt, fuel, e, Assign(rt2, o, v));
  }

  /** The output `o` has no duplicate subscriber, and its only possible subscriber is the
      memo effect `e`, which then depends on it. */
  ghost predicate OnlySelfSubscribed(rt: Runtime, e: EffectId, o: SignalId)
    requires e < |rt.effects| && o < |rt.signals|
  {
    && Emitter.NoDup(rt.signals[o].subs)
    && forall x | x in rt.signals[o].subs :: x == e && o in rt.effects[e].deps
  }

  /** Under the invariant, an output whose subscribers are at most the memo itself meets
      `OnlySelfSubscribed`; from its second run on, the memo does subscribe to it. */
  lemma InvOnlySelf(rt: Runtime, e: EffectId, o: SignalId)
    requires Inv(rt) && e < |rt.effects| && o < |rt.signals|
    requires forall x | x in rt.signals[o].subs :: x == e
    ensures OnlySelfSubscribed(rt, e, o)
  {
  }

  /** `Begin` of the memo removes its own subscription, leaving the output unsubscribed. */
  lemma BeginClearsSelf(rt: Runtime, e: EffectId, o: SignalId)
    requires e < |rt.effects| && o < |rt.signals| && OnlySelfSubscribed(rt, e, o)
    ensures Begin(rt, e).signals[o].subs == []
  {
    var subs := rt.signals[o].subs;
    if o in rt.effects[e].deps {
      Emitter.UnsubscribeMembership(subs, e);
      HeadIsMember(Emitter.Unsubscribe(subs, e));
    } else {
      HeadIsMember(subs);
    }
  }

  /** A non-empty list has a member: its first entry. */
  lemma HeadIsMember(l: seq<EffectId>)
    ensures l != [] ==> l[0] in l
  {
  }

  /** Writing one signal after `Begin` and a run that kept `Begin`'s signals and log: the
      log holds the run's event, and every other signal keeps its value from `rt`. */
  lemma BeginAssignValues(rt: Runtime, e: EffectId, rt2: Runtime, o: SignalId, v: Value)
    requires e < |rt.effects| && o < |rt.signals|
    requires rt2.signals == Begin(rt, e).signals && rt2.log == Begin(rt, e).log
    ensures var rt3 := Assign(rt2, o, v);
            && rt3.log == rt.log + [EffectRan(e)] && |rt3.signals| == |rt.signals|
            && rt3.signals[o].value == v
            && forall x | 0 <= x < |rt.signals| && x != o :: rt3.signals[x].value == rt.signals[x].value
  {
    assert Tracking.SameValues(rt2.signals, rt.signals);
    AssignValues(rt, rt2, o, v);
  }

  lemma SelectorWriteClosure(rt: Runtime, fuel: nat, e: EffectId, f: Expr, cmp: Comparator,
                             o: SignalId, v: Value, rt2: Runtime)
    requires e < |rt.effects| && rt.effects[e].kind == Selector(f, cmp, Some(o))
    requires o < |rt.signals| && ExprValid(|rt.signals|, f) && v == EvalExpr(rt.signals, f)
    requires !Same(cmp, v, rt.signals[o].value)
    requires rt.signals[o].subs == []
    requires rt2 == TrackAll(TrackAll(TrackAll(rt, Reads(f)), {o}), Reads(f))
    ensures o < |rt2.signals| && rt2.signals == rt.signals && rt2.log == rt.log
    ensures ClosureEnds(rt, fuel, e, Assign(rt2, o, v))
  {
    Api.TriggerNobody(Assign(rt2, o, v), fuel, o);
    assert SetAndTrigger(rt2, fuel, o, v) == Ok(Assign(rt2, o, v));
    assert RunClosure(rt, fuel, e) == RunSelector(rt, fuel, e, f, cmp, Some(o));
  }

  /** Writing one signal of a table whose values are those of `rt` leaves the others
      as they were in `rt`. */
  lemma AssignValues(rt: Runtime, rt2: Runtime, o: SignalId, v: Value)
    requires |rt2.signals| == |rt.signals| && o < |rt.signals|
    requires Tracking.SameValues(rt2.signals, rt.signals)
    ensures var rt3 := Assign(rt2, o, v);
            && |rt3.signals| == |rt.signals| && rt3.log == rt2.log && rt3.signals[o].value == v
            && forall x | 0 <= x < |rt.signals| && x != o :: rt3.signals[x].value == rt.signals[x].value
  {
  }

  /** `ReadSignal::map` (`src/signal.rs:126-128`, test `src/signal.rs:314-323`): the
      mapped signal starts as `f` of the source's current value and depends on the
      source alone. */
  lemma MapInitialValue(rt: Runtime, fuel: nat, scope: ScopeId, s: SignalId, f: Value -> Value)
    requires scope < |rt.scopes| && fuel > 0 && s < |rt.signals|
    ensures var r := Api.Map(rt, fuel, scope, s, f);
            && r.Out? && r.value == |rt.signals| && r.value < |r.rt.signals|
            && r.rt.signals[r.value].value == f(rt.signals[s].value)
            && |rt.effects| < |r.rt.effects| && r.rt.effects[|rt.effects|].deps == {s}
  {
    MemoInitialValue(rt, fuel, scope, Apply(f, Expr.Get(s)), NeverEqual);
  }

  /** `create_memo`'s comparator never calls two values equal (`src/memo.rs:23`), so
      every re-run writes; `create_selector`'s is `==` (`src/memo.rs:46-51`). */
  lemma MemoAlwaysWrites(a: Value, b: Value)
    ensures !Same(NeverEqual, a, b)
    ensures Same(PartialEqual, a, b) <==> a == b
  {
  }

  // ---------------------------------------------------------------- reducers

  /** The dispatcher of `create_reducer` (`src/memo.rs:125-131`): the state becomes
      `reduce(current, msg)`; with nobody subscribed, nothing else happens. */
  lemma DispatchReduces(rt: Runtime, fuel: nat, s: SignalId, reduce: (Value, Value) -> Value,
                        msg: Value)
    requires s < |rt.signals| && rt.signals[s].subs == []
    ensures var r := Api.Dispatch(rt, fuel, s, reduce, msg);
            && r.Ok? && r.rt.log == rt.log && s < |r.rt.signals| == |rt.signals|
            && r.rt.signals[s] == SignalCell(reduce(rt.signals[s].value, msg), [])
            && forall x | 0 <= x < |rt.signals| && x != s :: r.rt.signals[x] == rt.signals[x]
  {
    var v := reduce(rt.signals[s].value, msg);
    Api.TriggerNobody(Assign(rt, s, v), fuel, s);
  }

  /** The example of `src/memo.rs:100-119`: a counter reducer starts at 0, and an
      increment followed by a decrement brings it back to 0. */
  lemma ReducerCounter(rt: Runtime, fuel: nat, scope: ScopeId)
    requires scope < |rt.scopes|
    ensures var reduce := (st: Value, msg: Value) => if msg == 1 then st + 1 else st - 1;
            var c := Api.CreateReducer(rt, scope, 0);
            && c.Out? && c.rt.signals[c.value].value == 0
            && var r1 := Api.Dispatch(c.rt, fuel, c.value, reduce, 1);
               && r1.Ok? && r1.rt.signals[c.value].value == 1
               && var r2 := Api.Dispatch(r1.rt, fuel, c.value, reduce, 0);
                  && r2.Ok? && r2.rt.signals[c.value].value == 0
  {
    var reduce := (st: Value, msg: Value) => if msg == 1 then st + 1 else st - 1;
    var c := Api.CreateReducer(rt, scope, 0);
    DispatchReduces(c.rt, fuel, c.value, reduce, 1);
    var r1 := Api.Dispatch(c.rt, fuel, c.value, reduce, 1);
    DispatchReduces(r1.rt, fuel, c.value, reduce, 0);
  }

  // ---------------------------------------------------------------- cleanups

  /** `RanIds` counts exactly the `CleanupRan` events of the log. */
  lemma {:induction false} RanIdsCount(log: seq<Event>, id: nat)
    ensures RanIds(log)[id] == multiset(log)[CleanupRan(id)]
    decreases |log|
  {
    if log != [] {
      var n := |log|;
      RanIdsCount(log[..n - 1], id);
      assert log == log[..n - 1] + [log[n - 1]];
      assert multiset(log) == multiset(log[..n - 1]) + multiset{log[n - 1]};
    }
  }

  /** No callback is ever called twice: `dispose` takes the list before calling it
      (`src/lib.rs:250-254`), so a callback leaves its scope as it is called. */
  lemma CleanupsAtMostOnce(rt: Runtime, id: nat)
    requires CleanOk(rt, multiset{})
    ensures multiset(rt.log)[CleanupRan(id)] <= 1
  {
    RanIdsCount(rt.log, id);
  }

  /** The disposer of `create_scope` calls every callback of the scope exactly once,
      although `dispose` runs twice (explicitly and again from `Drop`). */
  lemma RootDisposerCallsEachOnce(rt: Runtime, fuel: nat, s: ScopeId)
    requires CleanOk(rt, multiset{})
    ensures var r := Api.RootDisposer(rt, fuel, s);
            r.Ok? ==> s < |rt.scopes|
                      && forall c | c in rt.scopes[s].cleanups ::
                           CleanupRan(c.id) !in rt.log && multiset(r.rt.log)[CleanupRan(c.id)] == 1
  {
    var r := Api.RootDisposer(rt, fuel, s);
    if r.Ok? {
      Disposal.DisposeCleanupsDone(rt, fuel, s);
      assert Dispose(rt, fuel, s).Ok?;
      assert CleanOk(r.rt, multiset{});
      forall c | c in rt.scopes[s].cleanups
        ensures CleanupRan(c.id) !in rt.log && multiset(r.rt.log)[CleanupRan(c.id)] == 1
      {
        PendingNotRun(rt, s, c);
        RanIdsMembership(r.rt.log, c.id);
        RanIdsCount(r.rt.log, c.id);
      }
    }
  }

  /** The `cleanup` test (`src/lib.rs:289-301`): a callback registered in a child scope
      has not been called when the child's setup returns, and the child's disposer
      calls it exactly once. */
  lemma ChildCleanupRunsOnDisposer(rt: Runtime, fuel: nat, parent: ScopeId, body: seq<Instr>)
    requires parent < |rt.scopes| && SlotMap.Valid(rt.scopes[parent].children)
    requires CleanOk(rt, multiset{})
    ensures var c := Api.CreateChildScope(rt, fuel, parent, [OnCleanup(body)]);
            && c.Out? && CleanupRan(rt.nextCleanup) !in c.rt.log
            && var d := Api.ChildDisposer(c.rt, fuel, parent, c.value.1);
               d.Ok? ==> multiset(d.rt.log)[CleanupRan(rt.nextCleanup)] == 1
  {
    var (rt1, child, key) := NewChildScope(rt, parent);
    var rt2 := AddCleanup(rt1, child, body);
    assert Run(rt1, fuel, child, [OnCleanup(body)]) == Ok(rt2) by {
      assert Run(rt2, fuel, child, [OnCleanup(body)][1..]) == Ok(rt2);
    }
    var c := Api.CreateChildScope(rt, fuel, parent, [OnCleanup(body)]);
    assert c == Api.Out(rt2, (child, key));
    RanIdsMembership(rt.log, rt.nextCleanup);
    var d := Api.ChildDisposer(rt2, fuel, parent, key);
    if d.Ok? {
      assert SlotMap.Get(rt2.scopes[parent].children, key) == Some(child);
      assert Cleanup(rt.nextCleanup, body) in rt2.scopes[child].cleanups;
      assert CleanOk(d.rt, multiset{});
      RanIdsMembership(d.rt.log, rt.nextCleanup);
      RanIdsCount(d.rt.log, rt.nextCleanup);
    }
  }

  // ---------------------------------------------------------------- disposal

  /** A scope with nothing left to dispose. */
  ghost predicate Emptied(rt: Runtime, s: ScopeId) {
    && s < |rt.scopes|
    && rt.scopes[s].children == SlotMap.Empty() && rt.scopes[s].effects == []
    && rt.scopes[s].cleanups == [] && rt.scopes[s].contexts == map[]
    && rt.scopes[s].arena == Arena.Empty()
  }

  /** Disposing a scope that holds nothing changes nothing, which is what makes a
      disposal after `dispose` harmless (the doc comment of `src/lib.rs:230-238`). */
  lemma DisposeEmptiedNoop(rt: Runtime, fuel: nat, s: ScopeId)
    requires Emptied(rt, s)
    ensures Dispose(rt, fuel, s) == Ok(rt)
  {
    assert SetScope(rt, s, rt.scopes[s].(children := SlotMap.Empty())) == rt;
    assert SlotMap.Values(rt.scopes[s].children) == [];
    assert DropEffects(rt, s) == rt;
    assert SetScope(rt, s, rt.scopes[s].(cleanups := [])) == rt;
    assert DisposeCleanups(rt, fuel, s) == Ok(rt);
    assert FreeContexts(rt, s) == rt;
    assert DisposeArena(rt, s) == rt;
  }

  /** Dropping a scope's box after a disposal that left it empty (`src/lib.rs:265-270`)
      ends in the same state as the disposal alone. */
  lemma DropAfterDispose(rt: Runtime, fuel: nat, s: ScopeId, rt1: Runtime)
    requires Dispose(rt, fuel, s) == Ok(rt1) && Emptied(rt1, s)
    ensures DropScope(rt, fuel, s) == Ok(rt1)
  {
    DisposeEmptiedNoop(rt1, fuel, s);
  }

  /** Disposing a scope disposes each scope in its `child_scopes` first
      (`src/lib.rs:240-246`), so every callback pending in any child has been called. */
  lemma ParentDisposesChild(rt: Runtime, fuel: nat, p: ScopeId, key: SlotMap.Key)
    ensures var r := Dispose(rt, fuel, p);
            r.Ok? ==> && p < |rt.scopes|
                      && (SlotMap.Get(rt.scopes[p].children, key).Some? ==>
                            CleanupsDone(rt, SlotMap.Get(rt.scopes[p].children, key).value, r.rt.log))
  {
    Disposal.DisposePhases(rt, fuel, p);
    var r := Dispose(rt, fuel, p);
    if r.Ok? && SlotMap.Get(rt.scopes[p].children, key).Some? {
      var c := SlotMap.Get(rt.scopes[p].children, key).value;
      SlotMap.ValuesAreOccupants(rt.scopes[p].children, c);
      var k1: nat, k2: nat, k3: nat :| Disposal.DisposeCut(rt, p, r.rt.log, k1, k2, k3);
      CleanupsDoneLonger(rt, c, r.rt.log[..k1], r.rt.log);
    }
  }

  // ---------------------------------------------------------------- contexts

  /** The `context` test (`src/context.rs:50-56`): a value provided on a scope is found
      again by its type on that scope. */
  lemma ProvideThenUseContext(rt: Runtime, scope: ScopeId, t: Context.TypeId, v: Value)
    requires scope < |rt.scopes| && t !in rt.scopes[scope].contexts
    ensures var r := Api.ProvideContext(rt, scope, t, v);
            && r.Ok? && scope < |r.rt.scopes|
            && Api.UseContext(r.rt, scope, t) == Context.Found(v)
            && Api.TryUseContext(r.rt, scope, t) == Context.Returned(Some(v))
  {
  }

  /** A second value of the same type on the same scope panics (`src/context.rs:11-13`). */
  lemma ProvideContextTwicePanics(rt: Runtime, scope: ScopeId, t: Context.TypeId, v1: Value, v2: Value)
    requires scope < |rt.scopes| && t !in rt.scopes[scope].contexts
    ensures var r := Api.ProvideContext(rt, scope, t, v1);
            && r.Ok?
            && Api.ProvideContext(r.rt, scope, t, v2) == Err(Panic("existing context with type exists already"))
  {
  }
}
