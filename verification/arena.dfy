/** The per-scope arena of `packages/sycamore-reactive/src/arena.rs`.

    An arena is an append-only list of boxed values. `Alloc` pushes one box and hands
    back a reference (its position); `Dispose` drops every box in allocation order and
    leaves the list empty, so disposing twice (once explicitly, once from `Drop`) drops
    each value exactly once. Raw pointers become positions in the list.
 */
module Arena {

  datatype Arena<T> = Arena(items: seq<T>)

  /** A reference to a value allocated on an arena: the position of its box. */
  datatype DataRef = DataRef(index: nat)

  /** Owned data tied to a scope's lifetime (the `Data` wrapper). */
  datatype Data<T> = Data(value: T)

  function Empty<T>(): (a: Arena<T>)
    ensures |a.items| == 0
  {
    Arena([])
  }

  /** Dereferences a `DataRef` against the arena it was allocated on. */
  function Deref<T>(a: Arena<T>, r: DataRef): T
    requires r.index < |a.items|
  {
    a.items[r.index]
  }

  /** `ScopeArena::alloc`: box the value, push the box, return a reference to it. */
  function Alloc<T>(a: Arena<T>, value: T): (res: (Arena<T>, DataRef))
    ensures |res.0.items| == |a.items| + 1
    ensures res.1.index < |res.0.items| && Deref(res.0, res.1) == value
    ensures res.0.items[..|a.items|] == a.items
  {
    (Arena(a.items + [value]), DataRef(|a.items|))
  }

  /** `ScopeArena::dispose`: drop every allocated box (returned in the order they are
      dropped) and clear the list. */
  function Dispose<T>(a: Arena<T>): (res: (Arena<T>, seq<T>))
    ensures res.1 == a.items
    ensures res.0.items == []
  {
    (Arena([]), a.items)
  }

  /** `Drop for ScopeArena`: just another `dispose`. */
  function Drop<T>(a: Arena<T>): (dropped: seq<T>)
    ensures dropped == a.items
  {
    Dispose(a).1
  }

  /** `DataRef::clone` copies the reference. */
  function CloneRef(r: DataRef): DataRef
  {
    DataRef(r.index)
  }

  /** A clone dereferences to the same value as the original. */
  lemma CloneSameReferent<T>(a: Arena<T>, r: DataRef)
    requires r.index < |a.items|
    ensures CloneRef(r).index < |a.items| && Deref(a, CloneRef(r)) == Deref(a, r)
  {
  }

  /** `Data::deref`. */
  function DerefData<T>(d: Data<T>): (v: T)
    ensures Data(v) == d
  {
    d.value
  }

  /** Allocation never disturbs what is already on the arena: every earlier reference
      still dereferences to the same value. */
  lemma AllocKeepsReferents<T>(a: Arena<T>, value: T, r: DataRef)
    requires r.index < |a.items|
    ensures r.index < |Alloc(a, value).0.items|
    ensures Deref(Alloc(a, value).0, r) == Deref(a, r)
  {
  }

  /** A sequence of allocations yields an arena whose contents are the allocated values,
      in allocation order. */
  function AllocAll<T>(a: Arena<T>, values: seq<T>): (r: Arena<T>)
    decreases |values|
  {
    if values == [] then a else AllocAll(Alloc(a, values[0]).0, values[1..])
  }

  lemma {:induction false} AllocAllAppends<T>(a: Arena<T>, values: seq<T>)
    ensures AllocAll(a, values).items == a.items + values
    decreases |values|
  {
    if values == [] {
    } else {
      AllocAllAppends(Alloc(a, values[0]).0, values[1..]);
      assert a.items + [values[0]] + values[1..] == a.items + values;
    }
  }

  /** Allocating values and then disposing drops exactly those values, each once and in
      allocation order; a second `Dispose` (the one from `Drop`) drops nothing. */
  lemma {:induction false} DisposeDropsEachOnce<T>(values: seq<T>)
    ensures Dispose(AllocAll(Empty<T>(), values)).1 == values
    ensures Drop(Dispose(AllocAll(Empty<T>(), values)).0) == []
  {
    AllocAllAppends(Empty<T>(), values);
  }
}
