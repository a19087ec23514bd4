/** Observations on the event log: which cleanups have been called, and in what order. */
module Trace {

  import opened State

  /** The events logged when the callbacks `cs` are called, in list order. */
  function CleanupEvents(cs: seq<Cleanup>): (evs: seq<Event>)
    ensures |evs| == |cs|
    ensures forall i | 0 <= i < |cs| :: evs[i] == CleanupRan(cs[i].id)
  {
    seq(|cs|, i requires 0 <= i < |cs| => CleanupRan(cs[i].id))
  }

  /** `xs` occurs in `ys` in order, possibly with other events in between. */
  ghost predicate IsSubseq(xs: seq<Event>, ys: seq<Event>)
    decreases |ys|
  {
    if xs == [] then true
    else if ys == [] then false
    else (xs[0] == ys[0] && IsSubseq(xs[1..], ys[1..])) || IsSubseq(xs, ys[1..])
  }

  /** Events logged before the ones sought do not matter. */
  lemma {:induction false} SubseqSkip(xs: seq<Event>, junk: seq<Event>, ys: seq<Event>)
    requires IsSubseq(xs, ys)
    ensures IsSubseq(xs, junk + ys)
    decreases |junk|
  {
    if junk != [] {
      SubseqSkip(xs, junk[1..], ys);
      assert (junk + ys)[1..] == junk[1..] + ys;
    } else {
      assert junk + ys == ys;
    }
  }

  /** Matching the first event. */
  lemma SubseqCons(x: Event, xs: seq<Event>, ys: seq<Event>)
    requires IsSubseq(xs, ys)
    ensures IsSubseq([x] + xs, [x] + ys)
  {
    assert ([x] + xs)[1..] == xs;
    assert ([x] + ys)[1..] == ys;
  }

  /** A subsequence's own prefix is a subsequence too. */
  lemma {:induction false} SubseqPrefix(xs: seq<Event>, ys: seq<Event>, log: seq<Event>)
    requires IsSubseq(xs + ys, log)
    ensures IsSubseq(xs, log)
    decreases |log|
  {
    if xs != [] {
      assert log != [];
      if (xs + ys)[0] == log[0] && IsSubseq((xs + ys)[1..], log[1..]) {
        assert (xs + ys)[1..] == xs[1..] + ys;
        SubseqPrefix(xs[1..], ys, log[1..]);
      } else {
        SubseqPrefix(xs, ys, log[1..]);
      }
    }
  }

  lemma CleanupEventsAppend(a: seq<Cleanup>, b: seq<Cleanup>)
    ensures CleanupEvents(a + b) == CleanupEvents(a) + CleanupEvents(b)
  {
  }

  /** One event, then (after whatever else is logged) the events `xs` in order. */
  lemma SubseqAfter(log0: seq<Event>, log1: seq<Event>, log: seq<Event>, x: Event, xs: seq<Event>)
    requires log0 + [x] <= log1 <= log
    requires IsSubseq(xs, log[|log1|..])
    ensures |log0| < |log|
    ensures IsSubseq([x] + xs, log[|log0|..]) && IsSubseq(xs, log[|log0|..])
  {
    var a, b := |log0| + 1, |log1|;
    assert log[a..b] + log[b..] == log[a..];
    SubseqSkip(xs, log[a..b], log[b..]);
    SubseqCons(x, xs, log[a..]);
    assert [x] + log[a..] == log[|log0|..];
    assert log[|log0|..a] + log[a..] == log[|log0|..];
    SubseqSkip(xs, log[|log0|..a], log[a..]);
  }

  /** Everything sought occurs. */
  lemma {:induction false} SubseqMembers(xs: seq<Event>, ys: seq<Event>)
    requires IsSubseq(xs, ys)
    ensures forall x | x in xs :: x in ys
    decreases |ys|
  {
    if xs != [] {
      if xs[0] == ys[0] && IsSubseq(xs[1..], ys[1..]) {
        SubseqMembers(xs[1..], ys[1..]);
        assert forall x | x in xs :: x == xs[0] || x in xs[1..];
      } else {
        SubseqMembers(xs, ys[1..]);
      }
    }
  }

  /** Order is kept: if `a` comes before `b` in `xs` and `ys` holds each of them once,
      then `a` comes before `b` in `ys`. */
  lemma {:induction false} SubseqOrder(xs: seq<Event>, ys: seq<Event>, i: nat, j: nat)
    requires IsSubseq(xs, ys) && i < j < |xs|
    ensures exists p, q | 0 <= p < q < |ys| :: ys[p] == xs[i] && ys[q] == xs[j]
    decreases |ys|
  {
    if xs[0] == ys[0] && IsSubseq(xs[1..], ys[1..]) {
      if i == 0 {
        SubseqMembers(xs[1..], ys[1..]);
        assert xs[j] in xs[1..];
        var q :| 0 <= q < |ys[1..]| && ys[1..][q] == xs[j];
        assert ys[0] == xs[i] && ys[q + 1] == xs[j];
      } else {
        SubseqOrder(xs[1..], ys[1..], i - 1, j - 1);
        var p, q :| 0 <= p < q < |ys[1..]| && ys[1..][p] == xs[1..][i - 1] && ys[1..][q] == xs[1..][j - 1];
        assert ys[p + 1] == xs[i] && ys[q + 1] == xs[j];
      }
    } else {
      SubseqOrder(xs, ys[1..], i, j);
      var p, q :| 0 <= p < q < |ys[1..]| && ys[1..][p] == xs[i] && ys[1..][q] == xs[j];
      assert ys[p + 1] == xs[i] && ys[q + 1] == xs[j];
    }
  }

  /** The cleanups pending in scope `s` of `rt` have all been logged in `log`. */
  ghost predicate CleanupsDone(rt: Runtime, s: ScopeId, log: seq<Event>) {
    s < |rt.scopes| ==> forall c | c in rt.scopes[s].cleanups :: CleanupRan(c.id) in log
  }

  lemma CleanupsDoneLonger(rt: Runtime, s: ScopeId, log: seq<Event>, log': seq<Event>)
    requires CleanupsDone(rt, s, log) && log <= log'
    ensures CleanupsDone(rt, s, log')
  {
    if s < |rt.scopes| {
      forall c | c in rt.scopes[s].cleanups ensures CleanupRan(c.id) in log' {
        var i :| 0 <= i < |log| && log[i] == CleanupRan(c.id);
        assert log'[i] == log[i];
      }
    }
  }

  /** A cleanup pending earlier is still pending later or has been logged meanwhile, so
      "all logged" carries back along an evolution. */
  lemma CleanupsDoneBack(a: Runtime, b: Runtime, s: ScopeId, log: seq<Event>)
    requires Evolves(a, b) && b.log <= log && CleanupsDone(b, s, log)
    ensures CleanupsDone(a, s, log)
  {
    if s < |a.scopes| {
      forall c | c in a.scopes[s].cleanups ensures CleanupRan(c.id) in log {
        if CleanupRan(c.id) in b.log {
          var i :| 0 <= i < |b.log| && b.log[i] == CleanupRan(c.id);
          assert log[i] == b.log[i];
        }
      }
    }
  }
}
