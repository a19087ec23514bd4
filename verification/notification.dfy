/** Whole notification passes (`SignalEmitter::trigger_subscribers`,
    `src/signal.rs:43-59`): the loop walks a snapshot of the subscriber list taken before
    the first callback, so every entry that can still be called is called, in snapshot
    order, whatever the callbacks do to the subscriber list meanwhile. The passes of
    `set`, `take`, the reducer's dispatcher and a memo's write are all this one loop.
 */
module Notification {

  import opened Wrappers
  import opened State
  import opened Invariant
  import opened Trace
  import opened Engine
  import Emitter
  import Api
  import Laws

  /** The events logged when the effects `es` run, in list order. */
  function RunEvents(es: seq<EffectId>): (evs: seq<Event>)
    ensures |evs| == |es|
    ensures forall i | 0 <= i < |es| :: evs[i] == EffectRan(es[i])
  {
    seq(|es|, i requires 0 <= i < |es| => EffectRan(es[i]))
  }

  lemma RunEventsCons(e: EffectId, es: seq<EffectId>)
    ensures RunEvents([e] + es) == [EffectRan(e)] + RunEvents(es)
  {
    assert forall i | 0 <= i < |es| :: ([e] + es)[i + 1] == es[i];
  }

  /** An entry a pass has to call: its callback was idle when the pass began (`before`)
      and its effect is still alive when the pass ends (`after`). */
  predicate Callable(before: seq<EffectCell>, after: seq<EffectCell>, e: EffectId) {
    e < |before| && !before[e].running && e < |after| && after[e].alive
  }

  /** The entries of the snapshot `order` a pass has to call, in snapshot order. */
  function MustRun(before: seq<EffectCell>, after: seq<EffectCell>, order: seq<EffectId>)
    : (es: seq<EffectId>)
    ensures |es| <= |order|
  {
    if order == [] then []
    else
      var rest := MustRun(before, after, order[1..]);
      if Callable(before, after, order[0]) then [order[0]] + rest else rest
  }

  /** `MustRun` keeps exactly the entries that have to be called. */
  lemma {:induction false} MustRunMembers(before: seq<EffectCell>, after: seq<EffectCell>,
                                          order: seq<EffectId>)
    ensures forall e :: e in MustRun(before, after, order) <==> e in order && Callable(before, after, e)
    decreases |order|
  {
    if order != [] {
      MustRunMembers(before, after, order[1..]);
      assert forall e :: e in order <==> e == order[0] || e in order[1..];
    }
  }

  /** Which entries must run depends only on the two per-entry conditions. */
  lemma {:induction false} MustRunSame(b1: seq<EffectCell>, a1: seq<EffectCell>,
                                       b2: seq<EffectCell>, a2: seq<EffectCell>,
                                       order: seq<EffectId>)
    requires forall i | 0 <= i < |order| :: Callable(b1, a1, order[i]) == Callable(b2, a2, order[i])
    ensures MustRun(b1, a1, order) == MustRun(b2, a2, order)
    decreases |order|
  {
    if order != [] {
      MustRunSame(b1, a1, b2, a2, order[1..]);
    }
  }

  /** A notification pass calls, in snapshot order, every entry whose callback was idle
      when the pass began and whose effect is still alive when it ends. The only entries
      it may leave out are those dropped meanwhile and those already running: it neither
      stops early nor re-reads the subscriber list. */
  lemma {:induction false} NotifyRunsAll(rt: Runtime, fuel: nat, order: seq<EffectId>)
    requires forall i | 0 <= i < |order| :: order[i] < |rt.effects|
    ensures var r := Notify(rt, fuel, order);
            r.Ok? ==> |rt.log| <= |r.rt.log|
                      && IsSubseq(RunEvents(MustRun(rt.effects, r.rt.effects, order)),
                                  r.rt.log[|rt.log|..])
    decreases |order|
  {
    var r := Notify(rt, fuel, order);
    if order != [] && r.Ok? {
      var e := order[0];
      if e < |rt.effects| && rt.effects[e].alive && !rt.effects[e].running {
        var rt1 := NotifyHead(rt, fuel, order);
        NotifyRunsAll(rt1, fuel, order[1..]);
        HeadRan(rt, rt1, r.rt, order);
      } else {
        assert r == Notify(rt, fuel, order[1..]);
        NotifyRunsAll(rt, fuel, order[1..]);
      }
    }
  }

  /** A pass whose first entry can be called runs that effect, then the rest of the
      snapshot from the state the run left. */
  lemma NotifyHead(rt: Runtime, fuel: nat, order: seq<EffectId>) returns (rt1: Runtime)
    requires order != [] && order[0] < |rt.effects|
    requires rt.effects[order[0]].alive && !rt.effects[order[0]].running
    requires Notify(rt, fuel, order).Ok?
    ensures Notify(rt, fuel, order) == Notify(rt1, fuel, order[1..])
    ensures rt.log + [EffectRan(order[0])] <= rt1.log
    ensures |rt.effects| <= |rt1.effects|
    ensures forall x | 0 <= x < |rt.effects| :: rt1.effects[x].running == rt.effects[x].running
  {
    var e := order[0];
    assert RunEffect(rt, fuel, e).Ok?;
    rt1 := RunEffect(rt, fuel, e).rt;
    Laws.RunEffectOnce(rt, fuel, e);
  }

  /** The first entry's run event, then the rest of the pass. */
  lemma HeadRan(rt: Runtime, rt1: Runtime, last: Runtime, order: seq<EffectId>)
    requires order != [] && forall i | 0 <= i < |order| :: order[i] < |rt.effects|
    requires rt.log + [EffectRan(order[0])] <= rt1.log <= last.log
    requires |rt.effects| <= |rt1.effects|
    requires forall x | 0 <= x < |rt.effects| :: rt1.effects[x].running == rt.effects[x].running
    requires IsSubseq(RunEvents(MustRun(rt1.effects, last.effects, order[1..])), last.log[|rt1.log|..])
    ensures IsSubseq(RunEvents(MustRun(rt.effects, last.effects, order)), last.log[|rt.log|..])
  {
    var e := order[0];
    var full := MustRun(rt.effects, last.effects, order);
    var tail := MustRun(rt.effects, last.effects, order[1..]);
    TailSame(rt.effects, rt1.effects, last.effects, order);
    SubseqAfter(rt.log, rt1.log, last.log, EffectRan(e), RunEvents(tail));
    if Callable(rt.effects, last.effects, e) {
      assert full == [e] + tail;
      RunEventsCons(e, tail);
    } else {
      assert full == tail;
    }
  }

  /** An earlier run keeps the running flags of the older effects, so the rest of the
      snapshot must run the same entries whichever of the two states it is judged in. */
  lemma TailSame(b: seq<EffectCell>, b1: seq<EffectCell>, last: seq<EffectCell>, order: seq<EffectId>)
    requires order != [] && forall i | 0 <= i < |order| :: order[i] < |b|
    requires |b| <= |b1| && forall x | 0 <= x < |b| :: b1[x].running == b[x].running
    ensures MustRun(b, last, order[1..]) == MustRun(b1, last, order[1..])
  {
    forall i | 0 <= i < |order[1..]|
      ensures Callable(b, last, order[1..][i]) == Callable(b1, last, order[1..][i])
    {
      assert order[1..][i] == order[i + 1];
    }
    MustRunSame(b, last, b1, last, order[1..]);
  }

  /** The whole pass of `trigger_subscribers` over a signal's subscribers, last
      subscribed first. */
  lemma TriggerRunsAll(rt: Runtime, fuel: nat, s: SignalId)
    requires Inv(rt) && s < |rt.signals|
    ensures var r := Trigger(rt, fuel, s);
            r.Ok? ==> |rt.log| <= |r.rt.log|
                      && IsSubseq(RunEvents(MustRun(rt.effects, r.rt.effects,
                                                    Emitter.NotifyOrder(rt.signals[s].subs))),
                                  r.rt.log[|rt.log|..])
  {
    var order := Emitter.NotifyOrder(rt.signals[s].subs);
    forall i | 0 <= i < |order| ensures order[i] < |rt.effects| {
      assert order[i] in rt.signals[s].subs;
    }
    NotifyRunsAll(rt, fuel, order);
  }

  /** `Signal::set` (`src/signal.rs:165-168`) notifies the whole snapshot of subscribers
      taken before the first callback, last subscribed first. */
  lemma SetRunsSubscribers(rt: Runtime, fuel: nat, s: SignalId, v: Value)
    requires Inv(rt) && s < |rt.signals|
    ensures var r := Api.Set(rt, fuel, s, v);
            r.Ok? ==> |rt.log| <= |r.rt.log|
                      && IsSubseq(RunEvents(MustRun(rt.effects, r.rt.effects,
                                                    Emitter.NotifyOrder(rt.signals[s].subs))),
                                  r.rt.log[|rt.log|..])
  {
    InvAssign(rt, s, v);
    TriggerRunsAll(Assign(rt, s, v), fuel, s);
  }

  /** When no subscriber of `s` has been dropped by the time the pass ends, the pass
      runs every one of them, the last subscribed first. Under the invariant every
      subscriber is idle when the pass begins, so only a drop can remove an entry. */
  lemma TriggerRunsEvery(rt: Runtime, fuel: nat, s: SignalId)
    requires Inv(rt) && s < |rt.signals|
    ensures var r := Trigger(rt, fuel, s);
            var order := Emitter.NotifyOrder(rt.signals[s].subs);
            r.Ok? && (forall x | x in rt.signals[s].subs :: x < |r.rt.effects| && r.rt.effects[x].alive)
            ==> |rt.log| <= |r.rt.log| && IsSubseq(RunEvents(order), r.rt.log[|rt.log|..])
  {
    var r := Trigger(rt, fuel, s);
    var order := Emitter.NotifyOrder(rt.signals[s].subs);
    if r.Ok? && (forall x | x in rt.signals[s].subs :: x < |r.rt.effects| && r.rt.effects[x].alive) {
      TriggerRunsAll(rt, fuel, s);
      Emitter.NotifyOrderSameMembers(rt.signals[s].subs);
      forall i | 0 <= i < |order| ensures Callable(rt.effects, r.rt.effects, order[i]) {
        assert order[i] in rt.signals[s].subs;
      }
      MustRunAll(rt.effects, r.rt.effects, order);
    }
  }

  /** `set` under the same condition: every subscriber of the snapshot runs. */
  lemma SetRunsEvery(rt: Runtime, fuel: nat, s: SignalId, v: Value)
    requires Inv(rt) && s < |rt.signals|
    ensures var r := Api.Set(rt, fuel, s, v);
            var order := Emitter.NotifyOrder(rt.signals[s].subs);
            r.Ok? && (forall x | x in rt.signals[s].subs :: x < |r.rt.effects| && r.rt.effects[x].alive)
            ==> |rt.log| <= |r.rt.log| && IsSubseq(RunEvents(order), r.rt.log[|rt.log|..])
  {
    InvAssign(rt, s, v);
    TriggerRunsEvery(Assign(rt, s, v), fuel, s);
  }

  /** When every entry has to be called, all of them are. */
  lemma {:induction false} MustRunAll(before: seq<EffectCell>, after: seq<EffectCell>,
                                      order: seq<EffectId>)
    requires forall i | 0 <= i < |order| :: Callable(before, after, order[i])
    ensures MustRun(before, after, order) == order
    decreases |order|
  {
    if order != [] {
      MustRunAll(before, after, order[1..]);
      assert [order[0]] + order[1..] == order;
    }
  }

  /** `Signal::take` (`src/signal.rs:182-186`) notifies the subscribers as `set` does. */
  lemma TakeRunsSubscribers(rt: Runtime, fuel: nat, s: SignalId)
    requires Inv(rt) && s < |rt.signals|
    ensures var r := Api.Take(rt, fuel, s);
            r.Out? ==> |rt.log| <= |r.rt.log|
                       && IsSubseq(RunEvents(MustRun(rt.effects, r.rt.effects,
                                                     Emitter.NotifyOrder(rt.signals[s].subs))),
                                   r.rt.log[|rt.log|..])
  {
    InvAssign(rt, s, Default);
    TriggerRunsAll(Assign(rt, s, Default), fuel, s);
  }

  /** The reducer's dispatcher (`src/memo.rs:127-129`) ends in `set`, so it notifies the
      state's subscribers in the same way. */
  lemma DispatchRunsSubscribers(rt: Runtime, fuel: nat, s: SignalId,
                                reduce: (Value, Value) -> Value, msg: Value)
    requires Inv(rt) && s < |rt.signals|
    ensures var r := Api.Dispatch(rt, fuel, s, reduce, msg);
            r.Ok? ==> |rt.log| <= |r.rt.log|
                      && IsSubseq(RunEvents(MustRun(rt.effects, r.rt.effects,
                                                    Emitter.NotifyOrder(rt.signals[s].subs))),
                                  r.rt.log[|rt.log|..])
  {
    SetRunsSubscribers(rt, fuel, s, reduce(rt.signals[s].value, msg));
  }

  /** A memo re-run whose comparator reports a change (`src/memo.rs:74-80`) writes its
      output with `set`. The run's log starts with that of `Begin(rt, e)`, which ends in
      the effect's own run event; after it, the pass calls every subscriber of the
      output that has to be called, in snapshot order. Evaluating `f` changes no
      subscriber list, so the snapshot taken at the write is the one taken when the run
      began. The memo's own effect is running then, so it is not called again. */
  lemma SelectorWriteRuns(rt: Runtime, fuel: nat, e: EffectId, f: Expr, cmp: Comparator,
                          o: SignalId)
    requires Inv(rt)
    requires e < |rt.effects| && !rt.effects[e].running && rt.effects[e].kind == Selector(f, cmp, Some(o))
    requires fuel > 0 && o < |rt.signals| && ExprValid(|rt.signals|, f)
    requires !Same(cmp, EvalExpr(rt.signals, f), rt.signals[o].value)
    ensures var r := RunEffect(rt, fuel, e);
            r.Ok? ==> PassLogged(Begin(rt, e), o, r.rt)
  {
    var r := RunEffect(rt, fuel, e);
    if r.Ok? {
      var rt4 := RunEffectOk(rt, fuel, e);
      SelectorWriteEnds(rt, fuel, e, f, cmp, o, rt4);
    }
  }

  /** The same, given the state the closure ends in. */
  lemma SelectorWriteEnds(rt: Runtime, fuel: nat, e: EffectId, f: Expr, cmp: Comparator,
                          o: SignalId, rt4: Runtime)
    requires Inv(rt)
    requires e < |rt.effects| && rt.effects[e].kind == Selector(f, cmp, Some(o))
    requires o < |rt.signals| && ExprValid(|rt.signals|, f)
    requires !Same(cmp, EvalExpr(rt.signals, f), rt.signals[o].value)
    requires fuel > 0 && ClosureEnds(Begin(rt, e), fuel - 1, e, rt4)
    ensures |rt4.stack| > 0 && e < |rt4.effects|
    ensures PassLogged(Begin(rt, e), o, Finish(rt4, e))
  {
    BeginReady(rt, e, f, cmp, o);
    forall b: Runtime, k: nat, x: Runtime
      | |b.stack| > 0 && WriteReady(b, e, f, cmp, o) && ClosureEnds(b, k, e, x)
      ensures |x.stack| > 0 && e < |x.effects| && PassLogged(b, o, Finish(x, e))
    {
      ClosureFinishPassed(b, k, e, f, cmp, o, x);
    }
  }

  /** Seen from the state `b` a run began in: the log of `after` extends that of `b` and,
      after it, holds the calls of every entry of the output's snapshot taken at `b`, in
      snapshot order, that was idle then and is still alive in `after`. */
  ghost predicate PassLogged(b: Runtime, o: SignalId, after: Runtime)
    requires o < |b.signals|
  {
    && b.log <= after.log
    && IsSubseq(RunEvents(MustRun(b.effects, after.effects, Emitter.NotifyOrder(b.signals[o].subs))),
                after.log[|b.log|..])
  }

  /** What the closure of a writing memo run needs of the state it starts in. */
  ghost predicate WriteReady(b: Runtime, e: EffectId, f: Expr, cmp: Comparator, o: SignalId) {
    && e < |b.effects| && b.effects[e].kind == Selector(f, cmp, Some(o))
    && o < |b.signals| && ExprValid(|b.signals|, f)
    && !Same(cmp, EvalExpr(b.signals, f), b.signals[o].value)
    && forall x | x in b.signals[o].subs :: x < |b.effects|
  }

  /** What the closure's pass leaves in the state it ends in. */
  ghost predicate ClosurePassed(b: Runtime, o: SignalId, rt4: Runtime)
    requires o < |b.signals|
  {
    && rt4.stack == b.stack && |b.effects| <= |rt4.effects| && b.log <= rt4.log
    && IsSubseq(RunEvents(MustRun(b.effects, rt4.effects, Emitter.NotifyOrder(b.signals[o].subs))),
                rt4.log[|b.log|..])
  }

  /** Starting the run keeps the values, so the comparator still sees a change; under
      the invariant every subscriber of the output is a known effect. */
  lemma BeginReady(rt: Runtime, e: EffectId, f: Expr, cmp: Comparator, o: SignalId)
    requires Inv(rt)
    requires e < |rt.effects| && rt.effects[e].kind == Selector(f, cmp, Some(o))
    requires o < |rt.signals| && ExprValid(|rt.signals|, f)
    requires !Same(cmp, EvalExpr(rt.signals, f), rt.signals[o].value)
    ensures WriteReady(Begin(rt, e), e, f, cmp, o)
  {
    Laws.BeginKeepsValues(rt, e, f);
    BeginSubs(rt, e, o);
  }

  /** The closure's pass, carried through the end of the run: finishing keeps the log
      and every effect's liveness. */
  lemma ClosureFinishPassed(b: Runtime, fuel: nat, e: EffectId, f: Expr, cmp: Comparator,
                            o: SignalId, rt4: Runtime)
    requires |b.stack| > 0 && WriteReady(b, e, f, cmp, o) && ClosureEnds(b, fuel, e, rt4)
    ensures |rt4.stack| > 0 && e < |rt4.effects|
    ensures PassLogged(b, o, Finish(rt4, e))
  {
    WriteClosurePass(b, fuel, e, f, cmp, o, rt4);
    FinishKeepsPass(b, e, o, rt4);
  }

  lemma FinishKeepsPass(b: Runtime, e: EffectId, o: SignalId, rt4: Runtime)
    requires o < |b.signals| && ClosurePassed(b, o, rt4) && |rt4.stack| > 0 && e < |rt4.effects|
    ensures PassLogged(b, o, Finish(rt4, e))
  {
    var r := Finish(rt4, e);
    MustRunSame(b.effects, r.effects, b.effects, rt4.effects, Emitter.NotifyOrder(b.signals[o].subs));
  }

  /** Under the invariant, the run's start leaves every subscriber of a signal a
      known effect. */
  lemma BeginSubs(rt: Runtime, e: EffectId, o: SignalId)
    requires Inv(rt) && e < |rt.effects| && o < |rt.signals|
    ensures var b := Begin(rt, e);
            && b.signals[o].value == rt.signals[o].value
            && forall x | x in b.signals[o].subs :: x < |b.effects|
  {
    if o in rt.effects[e].deps {
      Emitter.UnsubscribeMembership(rt.signals[o].subs, e);
    }
  }

  /** The closure of a writing memo run is the write's notification pass over the
      output's subscribers, in the snapshot taken at the write. */
  lemma WriteClosurePass(b: Runtime, fuel: nat, e: EffectId, f: Expr, cmp: Comparator,
                         o: SignalId, rt4: Runtime)
    requires WriteReady(b, e, f, cmp, o) && ClosureEnds(b, fuel, e, rt4)
    ensures ClosurePassed(b, o, rt4)
  {
    var rt2 := TrackAll(TrackAll(TrackAll(b, Reads(f)), {o}), Reads(f));
    var v := EvalExpr(b.signals, f);
    assert RunClosure(b, fuel, e) == RunSelector(b, fuel, e, f, cmp, Some(o));
    WriteSelector(b, fuel, e, f, cmp, o);
    WritePass(b, rt2, fuel, o, v, rt4);
  }

  /** A memo re-run whose comparator reports a change ends by writing the second result
      of `f` with `set`. */
  lemma WriteSelector(b: Runtime, fuel: nat, e: EffectId, f: Expr, cmp: Comparator, o: SignalId)
    requires e < |b.effects| && CodeOf(b.effects[e].kind) == SelectorCode(f, cmp)
    requires o < |b.signals| && ExprValid(|b.signals|, f)
    requires !Same(cmp, EvalExpr(b.signals, f), b.signals[o].value)
    ensures RunSelector(b, fuel, e, f, cmp, Some(o))
            == SetAndTrigger(TrackAll(TrackAll(TrackAll(b, Reads(f)), {o}), Reads(f)), fuel, o,
                             EvalExpr(b.signals, f))
  {
  }

  /** The write's pass, judged against the state before the run's reads were tracked. */
  lemma WritePass(b: Runtime, rt2: Runtime, fuel: nat, o: SignalId, v: Value, rt4: Runtime)
    requires o < |b.signals| && rt2.signals == b.signals && rt2.log == b.log && rt2.stack == b.stack
    requires |rt2.effects| == |b.effects|
    requires forall x | 0 <= x < |b.effects| :: rt2.effects[x].running == b.effects[x].running
    requires forall x | x in b.signals[o].subs :: x < |b.effects|
    requires SetAndTrigger(rt2, fuel, o, v) == Ok(rt4)
    ensures rt4.stack == b.stack && |b.effects| <= |rt4.effects| && b.log <= rt4.log
    ensures IsSubseq(RunEvents(MustRun(b.effects, rt4.effects, Emitter.NotifyOrder(b.signals[o].subs))),
                     rt4.log[|b.log|..])
  {
    SetAndTriggerPass(rt2, fuel, o, v);
    var order := Emitter.NotifyOrder(b.signals[o].subs);
    forall i | 0 <= i < |order| ensures order[i] < |rt2.effects| {
      assert order[i] in b.signals[o].subs;
    }
    NotifyRunsAll(Assign(rt2, o, v), fuel, order);
    MustRunSame(b.effects, rt4.effects, rt2.effects, rt4.effects, order);
  }

  /** `set` is an assignment followed by the pass over the snapshot of subscribers. */
  lemma SetAndTriggerPass(rt: Runtime, fuel: nat, s: SignalId, v: Value)
    requires s < |rt.signals|
    ensures SetAndTrigger(rt, fuel, s, v)
            == Notify(Assign(rt, s, v), fuel, Emitter.NotifyOrder(rt.signals[s].subs))
  {
  }
}
