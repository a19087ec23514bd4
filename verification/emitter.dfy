/** The subscriber list of a signal (`SignalEmitter` in `src/signal.rs`).

    The source keeps subscribers in an `IndexMap` keyed by the callback's address.
    `insert` of a key that is already present keeps its position; `remove` is indexmap's
    `swap_remove`, which moves the last entry into the hole. Effects are identified by
    their id, so the map becomes a duplicate-free sequence of ids in map order.
 */
module Emitter {

  type EffectId = nat

  ghost predicate NoDup(l: seq<EffectId>) {
    forall i, j | 0 <= i < j < |l| :: l[i] != l[j]
  }

  /** Position of `e` in `l`, if any. */
  function IndexOf(l: seq<EffectId>, e: EffectId): (k: nat)
    requires e in l
    ensures k < |l| && l[k] == e
    ensures forall j | 0 <= j < k :: l[j] != e
  {
    if l[0] == e then 0 else 1 + IndexOf(l[1..], e)
  }

  /** `SignalEmitter::subscribe`: insert; an existing subscriber keeps its place. */
  function Subscribe(l: seq<EffectId>, e: EffectId): (r: seq<EffectId>)
    ensures e in l ==> r == l
    ensures e !in l ==> r == l + [e]
  {
    if e in l then l else l + [e]
  }

  /** `SignalEmitter::unsubscribe`: indexmap `swap_remove` of `e`. */
  function Unsubscribe(l: seq<EffectId>, e: EffectId): (r: seq<EffectId>)
    ensures e !in l ==> r == l
    ensures e in l ==> |r| == |l| - 1
  {
    if e !in l then l
    else
      var k := IndexOf(l, e);
      if k == |l| - 1 then l[..k]
      else l[..k] + [l[|l| - 1]] + l[k + 1..|l| - 1]
  }

  /** Order in which `trigger_subscribers` calls a snapshot: reverse map order. */
  function NotifyOrder(l: seq<EffectId>): (r: seq<EffectId>)
    ensures |r| == |l|
    ensures forall i | 0 <= i < |l| :: r[i] == l[|l| - 1 - i]
  {
    if l == [] then [] else NotifyOrder(l[1..]) + [l[0]]
  }

  /** Subscribing is idempotent. */
  lemma SubscribeIdempotent(l: seq<EffectId>, e: EffectId)
    ensures Subscribe(Subscribe(l, e), e) == Subscribe(l, e)
  {
  }

  /** After `Subscribe`, `e` is a subscriber and the others are exactly the old ones,
      with their relative order untouched; duplicates never arise. */
  lemma SubscribeMembership(l: seq<EffectId>, e: EffectId)
    ensures forall x :: x in Subscribe(l, e) <==> x in l || x == e
    ensures NoDup(l) ==> NoDup(Subscribe(l, e))
  {
  }

  /** `swap_remove` on a duplicate-free list removes exactly `e` and keeps every other
      subscriber and the absence of duplicates. */
  lemma UnsubscribeMembership(l: seq<EffectId>, e: EffectId)
    requires NoDup(l)
    ensures forall x :: x in Unsubscribe(l, e) <==> x in l && x != e
    ensures NoDup(Unsubscribe(l, e))
  {
    if e in l {
      var k := IndexOf(l, e);
      if k == |l| - 1 {
        PopLast(l);
      } else {
        SwapRemoveMiddle(l, k);
      }
    }
  }

  /** Removing the last entry of a duplicate-free list. */
  lemma PopLast(l: seq<EffectId>)
    requires NoDup(l) && |l| > 0
    ensures forall x :: x in l[..|l| - 1] <==> x in l && x != l[|l| - 1]
    ensures NoDup(l[..|l| - 1])
  {
    var r := l[..|l| - 1];
    forall x ensures x in r <==> x in l && x != l[|l| - 1] {
      if x in l && x != l[|l| - 1] {
        var j :| 0 <= j < |l| && l[j] == x;
        assert r[j] == x;
      }
    }
  }

  /** Moving the last entry into the hole at `k` of a duplicate-free list. */
  lemma SwapRemoveMiddle(l: seq<EffectId>, k: nat)
    requires NoDup(l) && k < |l| - 1
    ensures var r := l[..k] + [l[|l| - 1]] + l[k + 1..|l| - 1];
            && (forall x :: x in r <==> x in l && x != l[k])
            && NoDup(r)
  {
    var r := l[..k] + [l[|l| - 1]] + l[k + 1..|l| - 1];
    SwapRemoveAt(l, k);
    forall x ensures x in r <==> x in l && x != l[k] {
      if x in l && x != l[k] {
        var j :| 0 <= j < |l| && l[j] == x;
        if j == |l| - 1 { assert r[k] == x; } else { assert r[j] == x; }
      }
      if x in r {
        var j :| 0 <= j < |r| && r[j] == x;
        if j == k { assert x == l[|l| - 1]; } else { assert x == l[j]; }
      }
    }
  }

  /** Where each entry of the swap-removed list comes from. */
  lemma SwapRemoveAt(l: seq<EffectId>, k: nat)
    requires k < |l| - 1
    ensures var r := l[..k] + [l[|l| - 1]] + l[k + 1..|l| - 1];
            && |r| == |l| - 1
            && forall j | 0 <= j < |r| :: r[j] == (if j == k then l[|l| - 1] else l[j])
  {
  }

  /** Unsubscribing a callback that was just added undoes the subscription exactly:
      the new entry sits at the end, so `swap_remove` just pops it. */
  lemma UnsubscribeUndoesSubscribe(l: seq<EffectId>, e: EffectId)
    requires e !in l
    ensures Unsubscribe(Subscribe(l, e), e) == l
  {
    var s := l + [e];
    var k := IndexOf(s, e);
    assert k == |l|;
  }

  /** The last subscriber in map order is the first one called. */
  lemma NotifyOrderFirst(l: seq<EffectId>)
    requires |l| > 0
    ensures NotifyOrder(l)[0] == l[|l| - 1]
  {
  }

  /** A snapshot is called in exactly reverse map order: of two subscribers, the one
      inserted earlier is called later. */
  lemma NotifyOrderReverses(l: seq<EffectId>, i: nat, j: nat)
    requires i < j < |l|
    ensures NotifyOrder(l)[|l| - 1 - j] == l[j]
    ensures NotifyOrder(l)[|l| - 1 - i] == l[i]
    ensures |l| - 1 - j < |l| - 1 - i
  {
  }

  /** Notification calls every subscriber of the snapshot, and nothing else. */
  lemma NotifyOrderSameMembers(l: seq<EffectId>)
    ensures forall x :: x in NotifyOrder(l) <==> x in l
  {
    var r := NotifyOrder(l);
    forall x ensures x in r <==> x in l {
      if x in l {
        var j :| 0 <= j < |l| && l[j] == x;
        assert r[|l| - 1 - j] == x;
      }
      if x in r {
        var j :| 0 <= j < |r| && r[j] == x;
        assert l[|l| - 1 - j] == x;
      }
    }
  }
}
