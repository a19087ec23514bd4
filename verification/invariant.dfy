/** The invariants the runtime keeps between and during operations.

    `Inv` ties the two halves of every dependency link together: an effect is in a
    signal's subscriber list exactly when it is idle and the signal is among its
    dependencies (the backlinks `clear_dependencies` removes and the end of an effect
    run adds back, `src/effect.rs:40-45` and `src/effect.rs:104-106`). A running
    effect is therefore subscribed nowhere. Subscriber lists never repeat an effect,
    and every frame of the effect stack is a running effect.

    `CleanOk` is about cleanup callbacks. Every pending callback, in any scope, has its
    own identity, older than the next one to be issued and never yet called, and no
    callback is ever called twice. `extra` holds the callbacks a `dispose` has already
    taken out of their scope but not yet called.
 */
module Invariant {

  import opened Wrappers
  import opened State
  import Emitter

  ghost predicate Inv(rt: Runtime) {
    && (forall x | 0 <= x < |rt.signals| :: Emitter.NoDup(rt.signals[x].subs))
    && (forall x, e | 0 <= x < |rt.signals| && e in rt.signals[x].subs :: e < |rt.effects|)
    && (forall e, x | 0 <= e < |rt.effects| && x in rt.effects[e].deps :: x < |rt.signals|)
    && (forall e, x | 0 <= e < |rt.effects| && 0 <= x < |rt.signals| ::
          e in rt.signals[x].subs <==> !rt.effects[e].running && x in rt.effects[e].deps)
    && (forall i | 0 <= i < |rt.stack| ::
          rt.stack[i] < |rt.effects| && rt.effects[rt.stack[i]].running)
  }

  // ---------------------------------------------------------------- Inv, step by step

  lemma InitInv()
    ensures Inv(Init())
  {
  }

  lemma InitClean()
    ensures CleanOk(Init(), multiset{})
  {
  }

  /** Tracking valid signals keeps the invariant: only the top frame, which is running
      and so subscribed nowhere, gains dependencies. */
  lemma InvTrackAll(rt: Runtime, xs: set<SignalId>)
    requires Inv(rt)
    requires forall x | x in xs :: x < |rt.signals|
    ensures Inv(TrackAll(rt, xs))
  {
    var r := TrackAll(rt, xs);
    forall e, x | 0 <= e < |r.effects| && 0 <= x < |r.signals|
      ensures e in r.signals[x].subs <==> !r.effects[e].running && x in r.effects[e].deps
    {
      if IsTop(rt, e) {
        assert rt.effects[e].running;
      }
    }
  }

  lemma InvAssign(rt: Runtime, s: SignalId, v: Value)
    requires Inv(rt) && s < |rt.signals|
    ensures Inv(Assign(rt, s, v))
  {
    var r := Assign(rt, s, v);
    assert forall x | 0 <= x < |rt.signals| :: r.signals[x].subs == rt.signals[x].subs;
  }

  lemma InvNewSignal(rt: Runtime, scope: ScopeId, v: Value)
    requires Inv(rt) && scope < |rt.scopes|
    ensures Inv(NewSignal(rt, scope, v).0)
  {
    var r := NewSignal(rt, scope, v).0;
    assert forall x | 0 <= x < |rt.signals| :: r.signals[x] == rt.signals[x];
  }

  /** Changing an effect's captured state or liveness keeps the invariant. */
  lemma InvSetEffect(rt: Runtime, e: EffectId, c: EffectCell)
    requires Inv(rt) && e < |rt.effects|
    requires c.running == rt.effects[e].running && c.deps == rt.effects[e].deps
    ensures Inv(SetEffect(rt, e, c))
  {
  }

  lemma InvSetScope(rt: Runtime, s: ScopeId, c: ScopeCell)
    requires Inv(rt) && s < |rt.scopes|
    ensures Inv(SetScope(rt, s, c))
  {
  }

  lemma InvScopesOnly(rt: Runtime, r: Runtime)
    requires Inv(rt)
    requires r.signals == rt.signals && r.effects == rt.effects && r.stack == rt.stack
    ensures Inv(r)
  {
  }

  /** Replacing the stack by frames that are all running effects keeps the invariant
      (`untrack` empties the stack and later puts the old one back). */
  lemma InvWithStack(rt: Runtime, st: seq<EffectId>)
    requires Inv(rt)
    requires forall i | 0 <= i < |st| :: st[i] < |rt.effects| && rt.effects[st[i]].running
    ensures Inv(rt.(stack := st))
  {
  }

  lemma InvDropEffects(rt: Runtime, s: ScopeId)
    requires Inv(rt) && s < |rt.scopes|
    ensures Inv(DropEffects(rt, s))
  {
  }

  /** A fresh, idle effect with no dependencies keeps the invariant. */
  lemma InvNewEffect(rt: Runtime, c: EffectCell)
    requires Inv(rt) && !c.running && c.deps == {}
    ensures Inv(rt.(effects := rt.effects + [c]))
  {
    var r := rt.(effects := rt.effects + [c]);
    forall e, x | 0 <= e < |r.effects| && 0 <= x < |r.signals|
      ensures e in r.signals[x].subs <==> !r.effects[e].running && x in r.effects[e].deps
    {
      if e == |rt.effects| {
        assert e !in rt.signals[x].subs;
      }
    }
  }

  // ---------------------------------------------------------------- cleanup identities

  ghost function Ids(cs: seq<Cleanup>): multiset<nat> {
    if cs == [] then multiset{} else multiset{cs[0].id} + Ids(cs[1..])
  }

  /** The identities of the cleanups pending in all scopes. */
  ghost function Pending(scopes: seq<ScopeCell>): multiset<nat> {
    if scopes == [] then multiset{}
    else Pending(scopes[..|scopes| - 1]) + Ids(scopes[|scopes| - 1].cleanups)
  }

  /** The identities of the cleanups the log records as called. */
  ghost function RanIds(log: seq<Event>): multiset<nat> {
    if log == [] then multiset{}
    else
      RanIds(log[..|log| - 1])
      + (if log[|log| - 1].CleanupRan? then multiset{log[|log| - 1].cleanup} else multiset{})
  }

  ghost predicate CleanOk(rt: Runtime, extra: multiset<nat>) {
    var m := Pending(rt.scopes) + extra;
    var ran := RanIds(rt.log);
    && (forall id | id in m :: m[id] == 1 && id < rt.nextCleanup && id !in ran)
    && (forall id | id in ran :: ran[id] == 1 && id < rt.nextCleanup)
  }

  /** `b` keeps `CleanOk` of `a`, whatever was taken out for calling. */
  ghost predicate CleanKept(a: Runtime, b: Runtime) {
    forall extra :: CleanOk(a, extra) ==> CleanOk(b, extra)
  }

  lemma IdsAppend(a: seq<Cleanup>, b: seq<Cleanup>)
    ensures Ids(a + b) == Ids(a) + Ids(b)
  {
    if a == [] {
      assert a + b == b;
    } else {
      assert (a + b)[1..] == a[1..] + b;
    }
  }

  lemma IdsMembership(cs: seq<Cleanup>, c: Cleanup)
    requires c in cs
    ensures c.id in Ids(cs)
  {
  }

  lemma RanIdsAppend(a: seq<Event>, b: seq<Event>)
    ensures RanIds(a + b) == RanIds(a) + RanIds(b)
    decreases |b|
  {
    if b == [] {
      assert a + b == a;
    } else {
      assert (a + b)[..|a + b| - 1] == a + b[..|b| - 1];
      RanIdsAppend(a, b[..|b| - 1]);
    }
  }

  ghost predicate NoCleanupEvents(evs: seq<Event>) {
    forall i | 0 <= i < |evs| :: !evs[i].CleanupRan?
  }

  lemma RanIdsNone(evs: seq<Event>)
    requires NoCleanupEvents(evs)
    ensures RanIds(evs) == multiset{}
  {
    if evs != [] {
      RanIdsNone(evs[..|evs| - 1]);
    }
  }

  lemma RanIdsOne(id: nat)
    ensures RanIds([CleanupRan(id)]) == multiset{id}
  {
    assert [CleanupRan(id)][..0] == [];
  }

  /** Every called cleanup recorded in the log has its identity in `RanIds`. */
  lemma RanIdsMembership(log: seq<Event>, id: nat)
    ensures CleanupRan(id) in log <==> id in RanIds(log)
  {
    if log != [] {
      RanIdsMembership(log[..|log| - 1], id);
      assert log == log[..|log| - 1] + [log[|log| - 1]];
    }
  }

  lemma PendingSame(sa: seq<ScopeCell>, sb: seq<ScopeCell>)
    requires |sa| <= |sb|
    requires forall i | 0 <= i < |sa| :: sb[i].cleanups == sa[i].cleanups
    requires forall i | |sa| <= i < |sb| :: sb[i].cleanups == []
    ensures Pending(sb) == Pending(sa)
    decreases |sb|
  {
    if |sb| == 0 {
    } else if |sa| < |sb| {
      PendingSame(sa, sb[..|sb| - 1]);
    } else {
      PendingSame(sa[..|sa| - 1], sb[..|sb| - 1]);
    }
  }

  lemma PendingLast(sc: seq<ScopeCell>)
    requires |sc| > 0
    ensures Pending(sc) == Pending(sc[..|sc| - 1]) + Ids(sc[|sc| - 1].cleanups)
  {
  }

  lemma Shuffle(p: multiset<nat>, q: multiset<nat>, a: multiset<nat>, b: multiset<nat>, d: multiset<nat>)
    requires p + a == q + b
    ensures (p + d) + a == (q + d) + b
  {
    assert (p + d) + a == (p + a) + d;
    assert (q + d) + b == (q + b) + d;
  }

  lemma Cancel(x: multiset<nat>, y: multiset<nat>, a: multiset<nat>)
    requires x + a == y + a
    ensures x == y
  {
    forall k ensures x[k] == y[k] {
      assert (x + a)[k] == (y + a)[k];
    }
  }

  lemma {:induction false} PendingUpdate(sc: seq<ScopeCell>, s: nat, c: ScopeCell)
    requires s < |sc|
    ensures Pending(sc[s := c]) + Ids(sc[s].cleanups) == Pending(sc) + Ids(c.cleanups)
    decreases |sc|
  {
    var n := |sc| - 1;
    var sc' := sc[s := c];
    PendingLast(sc);
    PendingLast(sc');
    if s == n {
      assert sc'[..n] == sc[..n];
    } else {
      assert sc'[..n] == sc[..n][s := c];
      assert sc'[n] == sc[n];
      PendingUpdate(sc[..n], s, c);
      assert sc[..n][s] == sc[s];
      Shuffle(Pending(sc[..n][s := c]), Pending(sc[..n]), Ids(sc[s].cleanups), Ids(c.cleanups),
              Ids(sc[n].cleanups));
    }
  }

  /** A cleanup listed in any scope is counted as pending. */
  lemma PendingHas(sc: seq<ScopeCell>, s: nat, c: Cleanup)
    requires s < |sc| && c in sc[s].cleanups
    ensures c.id in Pending(sc)
  {
    PendingUpdate(sc, s, sc[s].(cleanups := []));
    assert Ids([]) == multiset{};
    IdsMembership(sc[s].cleanups, c);
  }

  /** A callback still pending in some scope has not been called yet. */
  lemma PendingNotRun(rt: Runtime, s: ScopeId, c: Cleanup)
    requires CleanOk(rt, multiset{}) && s < |rt.scopes| && c in rt.scopes[s].cleanups
    ensures CleanupRan(c.id) !in rt.log
  {
    PendingHas(rt.scopes, s, c);
    assert c.id in Pending(rt.scopes) + multiset{};
    RanIdsMembership(rt.log, c.id);
  }

  lemma CleanKeptRefl(a: Runtime)
    ensures CleanKept(a, a)
  {
  }

  lemma CleanKeptTrans(a: Runtime, b: Runtime, c: Runtime)
    requires CleanKept(a, b) && CleanKept(b, c)
    ensures CleanKept(a, c)
  {
  }

  /** A step that issues no identities, calls no cleanup and only drops pending ones
      keeps `CleanOk`. */
  lemma CleanKeptShrink(a: Runtime, b: Runtime)
    requires Pending(b.scopes) <= Pending(a.scopes)
    requires RanIds(b.log) == RanIds(a.log)
    requires a.nextCleanup <= b.nextCleanup
    ensures CleanKept(a, b)
  {
    forall extra | CleanOk(a, extra) ensures CleanOk(b, extra) {
      var ma := Pending(a.scopes) + extra;
      var mb := Pending(b.scopes) + extra;
      assert mb <= ma;
      forall id | id in mb ensures mb[id] == 1 {
        assert id in ma;
      }
    }
  }

  /** The scopes' cleanup lists are unchanged, except that new scopes have none. */
  ghost predicate SameCleanups(a: Runtime, b: Runtime) {
    && |a.scopes| <= |b.scopes|
    && (forall i | 0 <= i < |a.scopes| :: b.scopes[i].cleanups == a.scopes[i].cleanups)
    && (forall i | |a.scopes| <= i < |b.scopes| :: b.scopes[i].cleanups == [])
  }

  /** The general frame step: cleanup lists kept, only non-cleanup events logged. */
  lemma CleanKeptFrame(a: Runtime, b: Runtime)
    requires SameCleanups(a, b)
    requires a.log <= b.log && NoCleanupEvents(b.log[|a.log|..])
    requires a.nextCleanup <= b.nextCleanup
    ensures CleanKept(a, b)
  {
    PendingSame(a.scopes, b.scopes);
    assert b.log == a.log + b.log[|a.log|..];
    RanIdsAppend(a.log, b.log[|a.log|..]);
    RanIdsNone(b.log[|a.log|..]);
    CleanKeptShrink(a, b);
  }

  /** Registering a cleanup issues the next identity and keeps `CleanOk`. */
  lemma CleanKeptAddCleanup(rt: Runtime, s: ScopeId, body: seq<Instr>)
    requires s < |rt.scopes|
    ensures CleanKept(rt, AddCleanup(rt, s, body))
  {
    var r := AddCleanup(rt, s, body);
    PendingAdd(rt, s, body);
    forall extra | CleanOk(rt, extra) ensures CleanOk(r, extra) {
      CleanAddOne(rt, r, extra);
    }
  }

  lemma PendingAdd(rt: Runtime, s: ScopeId, body: seq<Instr>)
    requires s < |rt.scopes|
    ensures Pending(AddCleanup(rt, s, body).scopes) == Pending(rt.scopes) + multiset{rt.nextCleanup}
  {
    var c := rt.scopes[s].(cleanups := rt.scopes[s].cleanups + [Cleanup(rt.nextCleanup, body)]);
    PendingUpdate(rt.scopes, s, c);
    IdsAppend(rt.scopes[s].cleanups, [Cleanup(rt.nextCleanup, body)]);
    assert Ids([Cleanup(rt.nextCleanup, body)]) == multiset{rt.nextCleanup};
    var old_ := Ids(rt.scopes[s].cleanups);
    assert Pending(rt.scopes[s := c]) + old_ == (Pending(rt.scopes) + multiset{rt.nextCleanup}) + old_;
    Cancel(Pending(rt.scopes[s := c]), Pending(rt.scopes) + multiset{rt.nextCleanup}, old_);
  }

  lemma CleanAddOne(rt: Runtime, r: Runtime, extra: multiset<nat>)
    requires CleanOk(rt, extra)
    requires Pending(r.scopes) == Pending(rt.scopes) + multiset{rt.nextCleanup}
    requires r.log == rt.log && r.nextCleanup == rt.nextCleanup + 1
    ensures CleanOk(r, extra)
  {
    var ma := Pending(rt.scopes) + extra;
    var mb := Pending(r.scopes) + extra;
    assert rt.nextCleanup !in ma;
    assert mb == ma + multiset{rt.nextCleanup};
  }

  /** Taking a scope's cleanups out for calling moves them into `extra`. */
  lemma CleanTake(rt: Runtime, s: ScopeId, extra: multiset<nat>)
    requires s < |rt.scopes| && CleanOk(rt, extra)
    ensures CleanOk(SetScope(rt, s, rt.scopes[s].(cleanups := [])),
                    extra + Ids(rt.scopes[s].cleanups))
  {
    var r := SetScope(rt, s, rt.scopes[s].(cleanups := []));
    PendingUpdate(rt.scopes, s, rt.scopes[s].(cleanups := []));
    assert Ids([]) == multiset{};
    var cs := Ids(rt.scopes[s].cleanups);
    assert Pending(r.scopes) + cs == Pending(rt.scopes);
    assert Pending(r.scopes) + (extra + cs) == (Pending(r.scopes) + cs) + extra;
  }

  /** Calling the first taken cleanup logs it; it leaves `extra` and is never pending
      again. */
  lemma CleanCall(rt: Runtime, c: Cleanup, extra: multiset<nat>)
    requires CleanOk(rt, extra + multiset{c.id})
    ensures CleanOk(rt.(log := rt.log + [CleanupRan(c.id)]), extra)
  {
    var r := rt.(log := rt.log + [CleanupRan(c.id)]);
    RanIdsAppend(rt.log, [CleanupRan(c.id)]);
    RanIdsOne(c.id);
    var m := Pending(rt.scopes) + extra + multiset{c.id};
    assert c.id in m;
    forall id | id in Pending(r.scopes) + extra
      ensures id != c.id
    {
      assert m[id] >= (Pending(rt.scopes) + extra)[id] + (if id == c.id then 1 else 0);
    }
  }

  // ---------------------------------------------------------------- steps

  /** What every completed operation guarantees: it evolves the runtime, keeps `Inv`,
      and keeps `CleanOk`. */
  ghost predicate Step(a: Runtime, b: Runtime) {
    && Evolves(a, b)
    && (Inv(a) ==> Inv(b))
    && CleanKept(a, b)
  }

  lemma StepRefl(a: Runtime)
    ensures Step(a, a)
  {
    EvolvesRefl(a);
  }

  lemma StepTrans(a: Runtime, b: Runtime, c: Runtime)
    requires Step(a, b) && Step(b, c)
    ensures Step(a, c)
  {
    EvolvesTrans(a, b, c);
    CleanKeptTrans(a, b, c);
  }

  lemma StepTrackAll(rt: Runtime, xs: set<SignalId>)
    requires forall x | x in xs :: x < |rt.signals|
    ensures Step(rt, TrackAll(rt, xs))
  {
    var r := TrackAll(rt, xs);
    if Inv(rt) { InvTrackAll(rt, xs); }
    CleanKeptFrame(rt, r);
  }

  lemma StepTrackExpr(rt: Runtime, e: Expr)
    requires ExprValid(|rt.signals|, e)
    ensures Step(rt, TrackAll(rt, Reads(e)))
  {
    ReadsAreValid(|rt.signals|, e);
    StepTrackAll(rt, Reads(e));
  }

  lemma StepAssign(rt: Runtime, s: SignalId, v: Value)
    requires s < |rt.signals|
    ensures Step(rt, Assign(rt, s, v))
  {
    var r := Assign(rt, s, v);
    if Inv(rt) { InvAssign(rt, s, v); }
    CleanKeptFrame(rt, r);
  }

  lemma StepAddCleanup(rt: Runtime, s: ScopeId, body: seq<Instr>)
    requires s < |rt.scopes|
    ensures Step(rt, AddCleanup(rt, s, body))
  {
    var r := AddCleanup(rt, s, body);
    assert forall sc, c | 0 <= sc < |rt.scopes| && c in rt.scopes[sc].cleanups :: c in r.scopes[sc].cleanups;
    CleanKeptAddCleanup(rt, s, body);
  }

  /** Replacing an effect's captured state keeps everything. */
  lemma StepSetKind(rt: Runtime, e: EffectId, k: EffectKind)
    requires e < |rt.effects| && CodeOf(k) == CodeOf(rt.effects[e].kind)
    ensures Step(rt, SetEffect(rt, e, rt.effects[e].(kind := k)))
  {
    var c := rt.effects[e].(kind := k);
    EvolvesBySetEffect(rt, e, c);
    if Inv(rt) { InvSetEffect(rt, e, c); }
    CleanKeptFrame(rt, SetEffect(rt, e, c));
  }

  /** Replacing a scope's cell with the same cleanups keeps everything. */
  lemma StepSetScope(rt: Runtime, s: ScopeId, c: ScopeCell)
    requires s < |rt.scopes| && c.cleanups == rt.scopes[s].cleanups
    ensures Step(rt, SetScope(rt, s, c))
  {
    EvolvesBySetScope(rt, s, c);
    if Inv(rt) { InvSetScope(rt, s, c); }
    CleanKeptFrame(rt, SetScope(rt, s, c));
  }

  lemma StepNewChildScope(rt: Runtime, parent: ScopeId)
    requires parent < |rt.scopes|
    ensures Step(rt, NewChildScope(rt, parent).0)
  {
    var r := NewChildScope(rt, parent).0;
    assert forall s | 0 <= s < |rt.scopes| :: r.scopes[s].cleanups == rt.scopes[s].cleanups;
    if Inv(rt) { InvScopesOnly(rt, r); }
    CleanKeptFrame(rt, r);
  }

  lemma StepNewScope(rt: Runtime, parent: Option<ScopeId>)
    ensures Step(rt, NewScope(rt, parent).0)
  {
    var r := NewScope(rt, parent).0;
    assert forall s | 0 <= s < |rt.scopes| :: r.scopes[s] == rt.scopes[s];
    if Inv(rt) { InvScopesOnly(rt, r); }
    CleanKeptFrame(rt, r);
  }

  lemma StepNewSignal(rt: Runtime, scope: ScopeId, v: Value)
    requires scope < |rt.scopes|
    ensures Step(rt, NewSignal(rt, scope, v).0)
  {
    var r := NewSignal(rt, scope, v).0;
    assert forall s | 0 <= s < |rt.scopes| :: r.scopes[s].cleanups == rt.scopes[s].cleanups;
    if Inv(rt) { InvNewSignal(rt, scope, v); }
    CleanKeptFrame(rt, r);
  }

  lemma StepNewEffect(rt: Runtime, c: EffectCell)
    requires !c.running && c.deps == {}
    ensures Step(rt, rt.(effects := rt.effects + [c]))
  {
    var r := rt.(effects := rt.effects + [c]);
    if Inv(rt) { InvNewEffect(rt, c); }
    CleanKeptFrame(rt, r);
  }

  lemma StepDropEffects(rt: Runtime, s: ScopeId)
    requires s < |rt.scopes|
    ensures Step(rt, DropEffects(rt, s))
  {
    EvolvesDropEffects(rt, s);
    if Inv(rt) { InvDropEffects(rt, s); }
    var r := DropEffects(rt, s);
    DroppedOnly(rt, s);
    CleanKeptFrame(rt, r);
  }

  lemma EvolvesDropEffects(rt: Runtime, s: ScopeId)
    requires s < |rt.scopes|
    ensures Evolves(rt, DropEffects(rt, s))
  {
    DroppedOnly(rt, s);
  }

  /** Dropping effects logs only `EffectDropped` events. */
  lemma DroppedOnly(rt: Runtime, s: ScopeId)
    requires s < |rt.scopes|
    ensures var r := DropEffects(rt, s);
            && rt.log <= r.log
            && forall i | |rt.log| <= i < |r.log| :: r.log[i].EffectDropped?
  {
    var r := DropEffects(rt, s);
    forall i | |rt.log| <= i < |r.log| ensures r.log[i].EffectDropped? {
      assert r.log[i] == EffectDropped(rt.scopes[s].effects[i - |rt.log|]);
    }
  }

  lemma StepFreeAndDrop(rt: Runtime, s: ScopeId)
    requires s < |rt.scopes|
    ensures Step(rt, DisposeArena(FreeContexts(rt, s), s))
  {
    var r1 := FreeContexts(rt, s);
    var r := DisposeArena(r1, s);
    assert forall i | |rt.log| <= i < |r1.log| :: r1.log[i].ContextsFreed?;
    assert forall i | |r1.log| <= i < |r.log| :: r.log[i].Dropped?;
    if Inv(rt) { InvSetScope(rt, s, r1.scopes[s]); InvSetScope(r1, s, r.scopes[s]); }
    CleanKeptFrame(rt, r);
  }

  /** Running on an empty stack and putting the original back (`untrack`). */
  lemma StepUntracked(rt: Runtime, r: Runtime)
    requires Step(rt.(stack := []), r)
    ensures Step(rt, r.(stack := rt.stack))
  {
    var r' := r.(stack := rt.stack);
    if Inv(rt) {
      InvWithStack(r, rt.stack);
    }
    assert CleanKept(r, r');
  }

  /** One round of the cleanup loop: log the call of the first callback, run it, then
      the rest. The whole round evolves the state and keeps the invariant, and every
      callback of the round has been logged as called. */
  lemma CallCleanupStep(rt: Runtime, cs: seq<Cleanup>, rt2: Runtime, r: Runtime)
    requires cs != []
    requires Step(rt.(log := rt.log + [CleanupRan(cs[0].id)]), rt2)
    requires Evolves(rt2, r) && (Inv(rt2) ==> Inv(r))
    requires forall c | c in cs[1..] :: CleanupRan(c.id) in r.log
    ensures Evolves(rt, r) && (Inv(rt) ==> Inv(r))
    ensures forall c | c in cs :: CleanupRan(c.id) in r.log
  {
    var rt1 := rt.(log := rt.log + [CleanupRan(cs[0].id)]);
    assert Evolves(rt, rt1);
    EvolvesTrans(rt, rt1, rt2);
    EvolvesTrans(rt, rt2, r);
    assert r.log[|rt.log|] == CleanupRan(cs[0].id);
    assert forall c | c in cs :: c == cs[0] || c in cs[1..];
  }

  /** The same round keeps the cleanup invariant: the first callback leaves the taken
      ones as it is logged. */
  lemma CallCleanupClean(rt: Runtime, cs: seq<Cleanup>, rt2: Runtime, r: Runtime)
    requires cs != []
    requires CleanKept(rt.(log := rt.log + [CleanupRan(cs[0].id)]), rt2)
    requires forall extra :: CleanOk(rt2, extra + Ids(cs[1..])) ==> CleanOk(r, extra)
    ensures forall extra :: CleanOk(rt, extra + Ids(cs)) ==> CleanOk(r, extra)
  {
    forall extra | CleanOk(rt, extra + Ids(cs)) ensures CleanOk(r, extra) {
      assert extra + Ids(cs) == (extra + Ids(cs[1..])) + multiset{cs[0].id};
      CleanCall(rt, cs[0], extra + Ids(cs[1..]));
      assert CleanOk(rt2, extra + Ids(cs[1..]));
    }
  }
}
