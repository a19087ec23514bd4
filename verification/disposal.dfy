/** What disposing a scope guarantees (`Scope::dispose`, `src/lib.rs:239-262`): the
    child scopes are disposed first, then the effects are dropped, then the cleanups are
    called in registration order without tracking, then the contexts and the arena are
    freed. */
module Disposal {

  import opened State
  import opened Invariant
  import opened Trace
  import opened Engine
  import SlotMap

  /** The cleanup loop calls the taken callbacks in the order they were registered. */
  lemma {:induction false} RunCleanupsOrder(rt: Runtime, fuel: nat, s: ScopeId, cs: seq<Cleanup>)
    ensures var r := RunCleanups(rt, fuel, s, cs);
            r.Ok? ==> |rt.log| <= |r.rt.log| && IsSubseq(CleanupEvents(cs), r.rt.log[|rt.log|..])
    decreases |cs|
  {
    var r := RunCleanups(rt, fuel, s, cs);
    if cs != [] && fuel > 0 && r.Ok? {
      var rt1 := rt.(log := rt.log + [CleanupRan(cs[0].id)]);
      var k: nat := fuel - 1;
      assert Run(rt1, k, s, cs[0].body).Ok?;
      var rt2 := Run(rt1, k, s, cs[0].body).rt;
      assert r == RunCleanups(rt2, fuel, s, cs[1..]);
      RunCleanupsOrder(rt2, fuel, s, cs[1..]);
      OrderCons(rt.log, rt2.log, r.rt.log, cs);
    }
  }

  /** One step of the cleanup loop: the first callback's event, then (after whatever its
      body logs) the events of the rest in order. */
  lemma OrderCons(log0: seq<Event>, log2: seq<Event>, log: seq<Event>, cs: seq<Cleanup>)
    requires cs != [] && log0 + [CleanupRan(cs[0].id)] <= log2 <= log
    requires IsSubseq(CleanupEvents(cs[1..]), log[|log2|..])
    ensures |log0| <= |log| && IsSubseq(CleanupEvents(cs), log[|log0|..])
  {
    SubseqAfter(log0, log2, log, CleanupRan(cs[0].id), CleanupEvents(cs[1..]));
    assert [CleanupRan(cs[0].id)] + CleanupEvents(cs[1..]) == CleanupEvents(cs);
  }

  /** The cleanup phase calls every cleanup the scope held, in registration order. */
  lemma DisposeCleanupsOrder(rt: Runtime, fuel: nat, s: ScopeId)
    requires s < |rt.scopes|
    ensures var r := DisposeCleanups(rt, fuel, s);
            r.Ok? ==> |rt.log| <= |r.rt.log|
                      && IsSubseq(CleanupEvents(rt.scopes[s].cleanups), r.rt.log[|rt.log|..])
                      && CleanupsDone(rt, s, r.rt.log)
  {
    var rt1 := SetScope(rt, s, rt.scopes[s].(cleanups := [])).(stack := []);
    RunCleanupsOrder(rt1, fuel, s, rt.scopes[s].cleanups);
  }

  /** Cleanups run untracked: no running effect, not even the one on top of the stack,
      gains or loses a dependency while they run. */
  lemma DisposeCleanupsUntracked(rt: Runtime, fuel: nat, s: ScopeId)
    requires s < |rt.scopes|
    ensures var r := DisposeCleanups(rt, fuel, s);
            r.Ok? ==> forall e | 0 <= e < |rt.effects| && rt.effects[e].running ::
                        r.rt.effects[e].deps == rt.effects[e].deps
  {
    var rt1 := SetScope(rt, s, rt.scopes[s].(cleanups := [])).(stack := []);
    assert forall e :: !IsTop(rt1, e);
  }

  /** `untrack` (`src/effect.rs:167-185`): the body runs with an empty effect stack, so
      the signals it reads are not added to any running effect's dependencies. */
  lemma UntrackKeepsDeps(rt: Runtime, fuel: nat, scope: ScopeId, body: seq<Instr>)
    ensures var r := Exec(rt, fuel, scope, Untrack(body));
            r.Ok? ==> r.rt.stack == rt.stack
                      && forall e | 0 <= e < |rt.effects| && rt.effects[e].running ::
                           r.rt.effects[e].deps == rt.effects[e].deps
  {
    assert forall e :: !IsTop(rt.(stack := []), e);
  }

  /** Disposing a scope calls every cleanup it held. */
  lemma DisposeCleanupsDone(rt: Runtime, fuel: nat, s: ScopeId)
    ensures var r := Dispose(rt, fuel, s);
            r.Ok? ==> s < |rt.scopes| && CleanupsDone(rt, s, r.rt.log)
    decreases fuel, 3, 0
  {
    DisposePhases(rt, fuel, s);
    var r := Dispose(rt, fuel, s);
    if r.Ok? {
      var k1: nat, k2: nat, k3: nat :| DisposeCut(rt, s, r.rt.log, k1, k2, k3);
      CleanupsDoneLonger(rt, s, r.rt.log[..k3], r.rt.log);
    }
  }

  /** The order of `dispose` as cut points in the log: up to `k1` the children's cleanups
      have all been called; from `k1` to `k2` the scope's effects are dropped; up to `k3`
      the scope's own cleanups have all been called; after `k3` the scope's contexts are
      freed (one event, first) and then only its arena slots are dropped. */
  ghost predicate DisposeCut(rt: Runtime, s: ScopeId, log: seq<Event>, k1: nat, k2: nat, k3: nat) {
    && s < |rt.scopes|
    && |rt.log| <= k1 <= k2 <= k3 <= |log|
    && (forall ch | ch in SlotMap.Values(rt.scopes[s].children) :: CleanupsDone(rt, ch, log[..k1]))
    && (forall i | k1 <= i < k2 :: log[i].EffectDropped?)
    && CleanupsDone(rt, s, log[..k3])
    && (forall i | k3 <= i < |log| ::
          (i == k3 && log[i].ContextsFreed? && log[i].scope == s) || (log[i].Dropped? && log[i].scope == s))
  }

  /** The scope's own work at the cut points of `DisposeCut`: its effects are dropped in
      list order from `k1`, none of its cleanups is called before `k2`, and all of them
      are called, in registration order, between `k2` and `k3`. */
  ghost predicate OwnInOrder(rt: Runtime, s: ScopeId, log: seq<Event>, k1: nat, k2: nat, k3: nat)
    requires s < |rt.scopes| && |rt.log| <= k1 <= k2 <= k3 <= |log|
  {
    var own := rt.scopes[s];
    && k1 + |own.effects| <= k2
    && (forall i | 0 <= i < |own.effects| :: log[k1 + i] == EffectDropped(own.effects[i]))
    && (forall i | |rt.log| <= i < k2 :: log[i] !in CleanupEvents(own.cleanups))
    && IsSubseq(CleanupEvents(own.cleanups), log[k2..k3])
  }

  /** Disposing the children neither takes nor replaces the scope's own effects and
      cleanups (it may add to them). A child's callback could in principle reach the
      parent; this names the case where it does not. */
  ghost predicate ChildrenKeepOwn(rt: Runtime, fuel: nat, s: ScopeId) {
    && s < |rt.scopes|
    && var rt1 := SetScope(rt, s, rt.scopes[s].(children := SlotMap.Empty()));
       var r := DisposeChildren(rt1, fuel, SlotMap.Values(rt.scopes[s].children));
       r.Ok? ==> && s < |r.rt.scopes|
                 && rt.scopes[s].effects <= r.rt.scopes[s].effects
                 && rt.scopes[s].cleanups <= r.rt.scopes[s].cleanups
  }

  /** A scope without child scopes keeps its own lists through the children phase. */
  lemma ChildlessKeepsOwn(rt: Runtime, fuel: nat, s: ScopeId)
    requires s < |rt.scopes| && SlotMap.Values(rt.scopes[s].children) == []
    ensures ChildrenKeepOwn(rt, fuel, s)
  {
  }

  /** `dispose` in full order (`src/lib.rs:239-262`): when the children leave the scope's
      own lists in place, the scope's effects are dropped right after the children's
      cleanups, in list order; its own cleanups are not called before that and are all
      called, in registration order, before the contexts and the arena are freed. */
  lemma DisposeInOrder(rt: Runtime, fuel: nat, s: ScopeId)
    requires CleanOk(rt, multiset{}) && ChildrenKeepOwn(rt, fuel, s)
    ensures var r := Dispose(rt, fuel, s);
            r.Ok? ==> exists k1: nat, k2: nat, k3: nat ::
                        DisposeCut(rt, s, r.rt.log, k1, k2, k3) && OwnInOrder(rt, s, r.rt.log, k1, k2, k3)
  {
    var r := Dispose(rt, fuel, s);
    if r.Ok? {
      var children := SlotMap.Values(rt.scopes[s].children);
      var rt1 := SetScope(rt, s, rt.scopes[s].(children := SlotMap.Empty()));
      StepSetScope(rt, s, rt.scopes[s].(children := SlotMap.Empty()));
      var rt2 := DisposeChildren(rt1, fuel, children).rt;
      DisposeChildrenDone(rt1, fuel, children);
      StepTrans(rt, rt1, rt2);
      assert CleanOk(rt2, multiset{});
      var rt3 := DropEffects(rt2, s);
      StepDropEffects(rt2, s);
      StepTrans(rt, rt2, rt3);
      var rt4 := DisposeCleanups(rt3, fuel, s).rt;
      DisposeCleanupsOrder(rt3, fuel, s);
      PhasesCut(rt, s, rt2, rt4);
      OwnCut(rt, s, rt2, rt4);
      assert DisposeCut(rt, s, r.rt.log, |rt2.log|, |rt3.log|, |rt4.log|);
    }
  }

  /** The scope's own work at the cut points, from the states between the phases. */
  lemma OwnCut(rt: Runtime, s: ScopeId, rt2: Runtime, rt4: Runtime)
    requires s < |rt.scopes| && s < |rt2.scopes| && rt.log <= rt2.log
    requires rt.scopes[s].effects <= rt2.scopes[s].effects
    requires rt.scopes[s].cleanups <= rt2.scopes[s].cleanups
    requires CleanOk(rt2, multiset{})
    requires DropEffects(rt2, s).log <= rt4.log && s < |rt4.scopes|
    requires IsSubseq(CleanupEvents(DropEffects(rt2, s).scopes[s].cleanups),
                      rt4.log[|DropEffects(rt2, s).log|..])
    ensures var log := DisposeArena(FreeContexts(rt4, s), s).log;
            && |rt2.log| <= |DropEffects(rt2, s).log| <= |rt4.log| <= |log|
            && OwnInOrder(rt, s, log, |rt2.log|, |DropEffects(rt2, s).log|, |rt4.log|)
  {
    var rt3 := DropEffects(rt2, s);
    var log := DisposeArena(FreeContexts(rt4, s), s).log;
    OwnDrops(rt, s, rt2, log);
    OwnNotBefore(rt, s, rt2, log);
    OwnCalled(rt.scopes[s].cleanups, rt3.scopes[s].cleanups, rt4.log, |rt3.log|, log);
  }

  /** From `k1` the log lists the scope's effects as dropped, in list order. */
  lemma OwnDrops(rt: Runtime, s: ScopeId, rt2: Runtime, log: seq<Event>)
    requires s < |rt.scopes| && s < |rt2.scopes|
    requires rt.scopes[s].effects <= rt2.scopes[s].effects
    requires DropEffects(rt2, s).log <= log
    ensures |rt2.log| + |rt.scopes[s].effects| <= |DropEffects(rt2, s).log|
    ensures forall i | 0 <= i < |rt.scopes[s].effects| ::
              log[|rt2.log| + i] == EffectDropped(rt.scopes[s].effects[i])
  {
    var rt3 := DropEffects(rt2, s);
    forall i | 0 <= i < |rt.scopes[s].effects|
      ensures log[|rt2.log| + i] == EffectDropped(rt.scopes[s].effects[i])
    {
      assert log[|rt2.log| + i] == rt3.log[|rt2.log| + i];
    }
  }

  /** Before `k2` none of the scope's cleanups has been called: they are still pending
      after the children phase, and dropping effects calls nothing. */
  lemma OwnNotBefore(rt: Runtime, s: ScopeId, rt2: Runtime, log: seq<Event>)
    requires s < |rt.scopes| && s < |rt2.scopes| && rt.log <= rt2.log
    requires rt.scopes[s].cleanups <= rt2.scopes[s].cleanups
    requires CleanOk(rt2, multiset{})
    requires DropEffects(rt2, s).log <= log
    ensures forall i | |rt.log| <= i < |DropEffects(rt2, s).log| ::
              log[i] !in CleanupEvents(rt.scopes[s].cleanups)
  {
    var rt3 := DropEffects(rt2, s);
    var own := rt.scopes[s];
    forall i | |rt.log| <= i < |rt3.log| ensures log[i] !in CleanupEvents(own.cleanups) {
      assert log[i] == rt3.log[i];
      if i < |rt2.log| {
        forall c | c in own.cleanups ensures log[i] != CleanupRan(c.id) {
          PendingNotRun(rt2, s, c);
          assert log[i] == rt2.log[i];
        }
      } else {
        assert log[i].EffectDropped?;
      }
    }
  }

  /** Between `k2` and `k3` the scope's cleanups are called in registration order, since
      they open the list the cleanup phase takes. */
  lemma OwnCalled(own: seq<Cleanup>, taken: seq<Cleanup>, log4: seq<Event>, k2: nat, log: seq<Event>)
    requires own <= taken && k2 <= |log4| && log4 <= log
    requires IsSubseq(CleanupEvents(taken), log4[k2..])
    ensures IsSubseq(CleanupEvents(own), log[k2..|log4|])
  {
    var rest := taken[|own|..];
    assert taken == own + rest;
    CleanupEventsAppend(own, rest);
    assert log4[k2..] == log[k2..|log4|];
    SubseqPrefix(CleanupEvents(own), CleanupEvents(rest), log[k2..|log4|]);
  }

  /** `dispose` leaves its log cut as `DisposeCut` says: the children's cleanups, then only
      effect drops, the scope's own cleanups done by `k3`, then contexts and arena;
      afterwards the scope holds no contexts and no arena slots. Which cleanups and drops
      are the scope's own, and in what order, is `DisposeInOrder`. */
  lemma DisposePhases(rt: Runtime, fuel: nat, s: ScopeId)
    ensures var r := Dispose(rt, fuel, s);
            r.Ok? ==> && s < |rt.scopes|
                      && (exists k1: nat, k2: nat, k3: nat :: DisposeCut(rt, s, r.rt.log, k1, k2, k3))
                      && r.rt.scopes[s].contexts == map[]
                      && r.rt.scopes[s].arena.items == []
    decreases fuel, 2, 0
  {
    var r := Dispose(rt, fuel, s);
    if r.Ok? {
      var children := SlotMap.Values(rt.scopes[s].children);
      var rt1 := SetScope(rt, s, rt.scopes[s].(children := SlotMap.Empty()));
      StepSetScope(rt, s, rt.scopes[s].(children := SlotMap.Empty()));
      var rt2 := DisposeChildren(rt1, fuel, children).rt;
      DisposeChildrenDone(rt1, fuel, children);
      StepTrans(rt, rt1, rt2);
      var rt3 := DropEffects(rt2, s);
      StepDropEffects(rt2, s);
      StepTrans(rt, rt2, rt3);
      var rt4 := DisposeCleanups(rt3, fuel, s).rt;
      DisposeCleanupsOrder(rt3, fuel, s);
      PhasesCut(rt, s, rt2, rt4);
    }
  }

  /** The cut points of `DisposeCut`, from the states between the phases. */
  lemma PhasesCut(rt: Runtime, s: ScopeId, rt2: Runtime, rt4: Runtime)
    requires s < |rt.scopes| && s < |rt2.scopes| && rt.log <= rt2.log
    requires var rt1 := SetScope(rt, s, rt.scopes[s].(children := SlotMap.Empty()));
             forall ch | ch in SlotMap.Values(rt.scopes[s].children) :: CleanupsDone(rt1, ch, rt2.log)
    requires Evolves(rt, DropEffects(rt2, s))
    requires DropEffects(rt2, s).log <= rt4.log && s < |rt4.scopes|
    requires CleanupsDone(DropEffects(rt2, s), s, rt4.log)
    ensures var r := DisposeArena(FreeContexts(rt4, s), s);
            && DisposeCut(rt, s, r.log, |rt2.log|, |DropEffects(rt2, s).log|, |rt4.log|)
            && r.scopes[s].contexts == map[] && r.scopes[s].arena.items == []
  {
    var rt1 := SetScope(rt, s, rt.scopes[s].(children := SlotMap.Empty()));
    var rt3 := DropEffects(rt2, s);
    var log := DisposeArena(FreeContexts(rt4, s), s).log;
    var k1, k2, k3 := |rt2.log|, |rt3.log|, |rt4.log|;
    CleanupsDoneBack(rt, rt3, s, rt4.log);
    assert log[..k1] == rt2.log && log[..k3] == rt4.log;
    forall ch | ch in SlotMap.Values(rt.scopes[s].children) ensures CleanupsDone(rt, ch, log[..k1]) {
      assert CleanupsDone(rt1, ch, rt2.log);
    }
  }

  /** Each scope in the list has had all its cleanups called. */
  lemma {:induction false} DisposeChildrenDone(rt: Runtime, fuel: nat, cs: seq<ScopeId>)
    ensures var r := DisposeChildren(rt, fuel, cs);
            r.Ok? ==> forall ch | ch in cs :: CleanupsDone(rt, ch, r.rt.log)
    decreases fuel, 1, |cs|
  {
    var r := DisposeChildren(rt, fuel, cs);
    if cs != [] && fuel > 0 && r.Ok? {
      var k: nat := fuel - 1;
      var rt1 := DropScope(rt, k, cs[0]).rt;
      DropScopeDone(rt, k, cs[0]);
      DisposeChildrenDone(rt1, fuel, cs[1..]);
      ChildrenCons(rt, rt1, r.rt.log, cs);
    }
  }

  lemma ChildrenCons(rt: Runtime, rt1: Runtime, log: seq<Event>, cs: seq<ScopeId>)
    requires cs != [] && Evolves(rt, rt1) && rt1.log <= log
    requires CleanupsDone(rt, cs[0], rt1.log)
    requires forall ch | ch in cs[1..] :: CleanupsDone(rt1, ch, log)
    ensures forall ch | ch in cs :: CleanupsDone(rt, ch, log)
  {
    CleanupsDoneLonger(rt, cs[0], rt1.log, log);
    forall ch | ch in cs[1..] ensures CleanupsDone(rt, ch, log) {
      CleanupsDoneBack(rt, rt1, ch, log);
    }
    assert forall ch | ch in cs :: ch == cs[0] || ch in cs[1..];
  }

  /** Dropping a scope calls every cleanup it held (the first of its two disposals does). */
  lemma {:induction false} DropScopeDone(rt: Runtime, fuel: nat, s: ScopeId)
    ensures var r := DropScope(rt, fuel, s);
            r.Ok? ==> CleanupsDone(rt, s, r.rt.log)
    decreases fuel, 4, 0
  {
    var r := DropScope(rt, fuel, s);
    if r.Ok? {
      var rt1 := Dispose(rt, fuel, s).rt;
      DisposeCleanupsDone(rt, fuel, s);
      CleanupsDoneLonger(rt, s, rt1.log, r.rt.log);
    }
  }
}
