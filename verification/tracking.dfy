/** Dynamic dependency tracking (`src/effect.rs:68-127`, `src/signal.rs:28-37`).

    Each run of an effect forgets its old dependencies and collects exactly the signals
    its body reads on that run. For bodies that only read (`ReadOnly`), the set a run
    collects is `ReadsOf` the signal values at the start of the run: which branch of
    an `If` is taken, and so which signals are read, depends on those values.
 */
module Tracking {

  import opened State
  import opened Invariant
  import opened Engine

  /** A body that reads signals and does nothing else. */
  ghost predicate ReadOnly(n: nat, p: seq<Instr>)
    decreases ProgSize(p), 1
  {
    p == [] || (ReadOnlyInstr(n, p[0]) && ReadOnly(n, p[1..]))
  }

  ghost predicate ReadOnlyInstr(n: nat, i: Instr)
    decreases InstrSize(i), 0
  {
    match i
    case Track(s) => s < n
    case Eval(e) => ExprValid(n, e)
    case If(c, t, e) => ExprValid(n, c) && ReadOnly(n, t) && ReadOnly(n, e)
    case _ => false
  }

  /** The signals a read-only body tracks when run on these signal values. */
  ghost function ReadsOf(signals: seq<SignalCell>, p: seq<Instr>): set<SignalId>
    requires ReadOnly(|signals|, p)
    decreases ProgSize(p), 1
  {
    if p == [] then {} else InstrReads(signals, p[0]) + ReadsOf(signals, p[1..])
  }

  ghost function InstrReads(signals: seq<SignalCell>, i: Instr): set<SignalId>
    requires ReadOnlyInstr(|signals|, i)
    decreases InstrSize(i), 0
  {
    match i
    case Track(s) => {s}
    case Eval(e) => Reads(e)
    case If(c, t, e) =>
      Reads(c) + (if EvalExpr(signals, c) != 0 then ReadsOf(signals, t) else ReadsOf(signals, e))
  }

  /** Two signal tables with the same values. */
  ghost predicate SameValues(a: seq<SignalCell>, b: seq<SignalCell>) {
    |a| == |b| && forall x | 0 <= x < |a| :: a[x].value == b[x].value
  }

  /** An expression's value depends only on the signal values, not on who subscribes. */
  lemma EvalSameValues(a: seq<SignalCell>, b: seq<SignalCell>, e: Expr)
    requires SameValues(a, b) && ExprValid(|a|, e)
    ensures EvalExpr(a, e) == EvalExpr(b, e)
  {
  }

  lemma {:induction false} ReadsOfSameValues(a: seq<SignalCell>, b: seq<SignalCell>, p: seq<Instr>)
    requires SameValues(a, b) && ReadOnly(|a|, p)
    ensures ReadsOf(a, p) == ReadsOf(b, p)
    decreases ProgSize(p), 1
  {
    if p != [] {
      InstrReadsSameValues(a, b, p[0]);
      ReadsOfSameValues(a, b, p[1..]);
    }
  }

  lemma {:induction false} InstrReadsSameValues(a: seq<SignalCell>, b: seq<SignalCell>, i: Instr)
    requires SameValues(a, b) && ReadOnlyInstr(|a|, i)
    ensures InstrReads(a, i) == InstrReads(b, i)
    decreases InstrSize(i), 0
  {
    match i
    case Track(_) =>
    case Eval(_) =>
    case If(c, t, e) =>
      EvalSameValues(a, b, c);
      ReadsOfSameValues(a, b, t);
      ReadsOfSameValues(a, b, e);
  }

  /** Tracking nothing changes nothing. */
  lemma TrackNothing(rt: Runtime)
    ensures TrackAll(rt, {}) == rt
  {
    var r := TrackAll(rt, {});
    forall e | 0 <= e < |rt.effects| ensures r.effects[e] == rt.effects[e] {
      if IsTop(rt, e) {
        assert rt.effects[e].deps + {} == rt.effects[e].deps;
      }
    }
    assert r.effects == rt.effects;
  }

  /** Tracking two sets one after the other is tracking their union. */
  lemma TrackTwice(rt: Runtime, a: set<SignalId>, b: set<SignalId>)
    ensures TrackAll(TrackAll(rt, a), b) == TrackAll(rt, a + b)
  {
    var r1 := TrackAll(TrackAll(rt, a), b);
    var r2 := TrackAll(rt, a + b);
    assert forall e :: IsTop(TrackAll(rt, a), e) <==> IsTop(rt, e);
    forall e | 0 <= e < |rt.effects| ensures r1.effects[e] == r2.effects[e] {
      if IsTop(rt, e) {
        assert rt.effects[e].deps + a + b == rt.effects[e].deps + (a + b);
      }
    }
    assert r1.effects == r2.effects;
  }

  /** Running a read-only body only tracks: it tracks exactly `ReadsOf` the current
      values, never fails, and changes nothing else. */
  lemma {:induction false} RunReadOnly(rt: Runtime, fuel: nat, scope: ScopeId, p: seq<Instr>)
    requires ReadOnly(|rt.signals|, p)
    ensures Run(rt, fuel, scope, p) == Ok(TrackAll(rt, ReadsOf(rt.signals, p)))
    decreases ProgSize(p), 1
  {
    if p == [] {
      TrackNothing(rt);
    } else {
      ExecReadOnly(rt, fuel, scope, p[0]);
      var rt1 := TrackAll(rt, InstrReads(rt.signals, p[0]));
      RunReadOnly(rt1, fuel, scope, p[1..]);
      TrackTwice(rt, InstrReads(rt.signals, p[0]), ReadsOf(rt.signals, p[1..]));
    }
  }

  lemma {:induction false} ExecReadOnly(rt: Runtime, fuel: nat, scope: ScopeId, i: Instr)
    requires ReadOnlyInstr(|rt.signals|, i)
    ensures Exec(rt, fuel, scope, i) == Ok(TrackAll(rt, InstrReads(rt.signals, i)))
    decreases InstrSize(i), 0
  {
    match i
    case Track(_) =>
    case Eval(_) =>
    case If(c, t, e) =>
      var rt1 := TrackAll(rt, Reads(c));
      if EvalExpr(rt.signals, c) != 0 {
        RunReadOnly(rt1, fuel, scope, t);
        TrackTwice(rt, Reads(c), ReadsOf(rt.signals, t));
      } else {
        RunReadOnly(rt1, fuel, scope, e);
        TrackTwice(rt, Reads(c), ReadsOf(rt.signals, e));
      }
  }

  /** Re-running an effect whose body only reads (the `recreate dependencies` behaviour
      of `src/effect.rs:244-279`): whatever it depended on before, afterwards it depends
      on exactly what this run read, and under `Inv` it is subscribed to exactly those
      signals. */
  lemma RerunRecomputesDeps(rt: Runtime, fuel: nat, e: EffectId, body: seq<Instr>)
    requires e < |rt.effects| && !rt.effects[e].running && rt.effects[e].kind == Plain(body)
    requires ReadOnly(|rt.signals|, body) && fuel > 0
    ensures var r := RunEffect(rt, fuel, e);
            && r.Ok? && e < |r.rt.effects| && |r.rt.signals| == |rt.signals|
            && r.rt.effects[e].deps == ReadsOf(rt.signals, body)
            && (Inv(rt) ==> forall x | 0 <= x < |rt.signals| ::
                              e in r.rt.signals[x].subs <==> x in ReadsOf(rt.signals, body))
  {
    RerunShape(rt, fuel, e, body);
    var r := RunEffect(rt, fuel, e).rt;
    assert !r.effects[e].running;
  }

  /** The run itself: begin, track what the body reads, finish. */
  lemma RerunShape(rt: Runtime, fuel: nat, e: EffectId, body: seq<Instr>)
    requires e < |rt.effects| && !rt.effects[e].running && rt.effects[e].kind == Plain(body)
    requires ReadOnly(|rt.signals|, body) && fuel > 0
    ensures var rt2 := TrackAll(Begin(rt, e), ReadsOf(rt.signals, body));
            && |rt2.stack| > 0 && e < |rt2.effects|
            && RunEffect(rt, fuel, e) == Ok(Finish(rt2, e))
            && rt2.effects[e].deps == ReadsOf(rt.signals, body)
  {
    var b := Begin(rt, e);
    assert SameValues(b.signals, rt.signals);
    ReadsOfSameValues(b.signals, rt.signals, body);
    var k: nat := fuel - 1;
    var xs := ReadsOf(rt.signals, body);
    ClosureReadOnly(b, k, e, body, xs);
    RunEffectUnfold(rt, fuel, e, TrackAll(b, xs));
    BeginThenTrack(rt, e, xs);
  }

  /** Right after `Begin`, the effect is on top with no dependencies, so tracking `xs`
      makes `xs` its dependencies. */
  lemma BeginThenTrack(rt: Runtime, e: EffectId, xs: set<SignalId>)
    requires e < |rt.effects|
    ensures var r := TrackAll(Begin(rt, e), xs);
            e < |r.effects| && r.effects[e].deps == xs
  {
    assert IsTop(Begin(rt, e), e);
  }

  lemma ClosureReadOnly(rt: Runtime, fuel: nat, e: EffectId, body: seq<Instr>, xs: set<SignalId>)
    requires e < |rt.effects| && rt.effects[e].kind == Plain(body) && ReadOnly(|rt.signals|, body)
    requires xs == ReadsOf(rt.signals, body)
    ensures ClosureEnds(rt, fuel, e, TrackAll(rt, xs))
  {
    RunReadOnly(rt, fuel, rt.effects[e].owner, body);
  }
}
