/** The `child_scopes` table of a scope (`src/lib.rs`), a `slotmap::SlotMap`.

    Slots are never removed from the backing vector. A removed slot becomes vacant, its
    version is bumped, and its index goes on a LIFO free list that the next `Insert`
    reuses. A key is the pair (index, version), so a key taken before a slot was reused
    no longer matches it. Iteration visits occupied slots in index order.
 */
module SlotMap {

  import opened Wrappers

  datatype Slot<T> = Slot(version: nat, occupant: Option<T>)

  datatype Key = Key(index: nat, version: nat)

  datatype SlotMap<T> = SlotMap(slots: seq<Slot<T>>, free: seq<nat>)

  function Empty<T>(): SlotMap<T> {
    SlotMap([], [])
  }

  /** The vacant slots are exactly the ones on the free list, each listed once. */
  ghost predicate Valid<T>(m: SlotMap<T>) {
    && (forall i | 0 <= i < |m.free| :: m.free[i] < |m.slots| && m.slots[m.free[i]].occupant.None?)
    && (forall i, j | 0 <= i < j < |m.free| :: m.free[i] != m.free[j])
    && (forall k | 0 <= k < |m.slots| && m.slots[k].occupant.None? :: k in m.free)
  }

  function Get<T>(m: SlotMap<T>, k: Key): Option<T> {
    if k.index < |m.slots| && m.slots[k.index].version == k.version then m.slots[k.index].occupant
    else None
  }

  /** `SlotMap::insert`: reuse the most recently freed slot, else push a new one. */
  function Insert<T>(m: SlotMap<T>, v: T): (res: (SlotMap<T>, Key))
    ensures Get(res.0, res.1) == Some(v)
    ensures Valid(m) ==> Valid(res.0)
    ensures Valid(m) ==> Get(m, res.1).None?
    ensures Valid(m) ==> forall k: Key | k != res.1 :: Get(res.0, k) == Get(m, k)
  {
    if |m.free| > 0 && m.free[|m.free| - 1] < |m.slots| then
      var idx := m.free[|m.free| - 1];
      var k := Key(idx, m.slots[idx].version + 1);
      var m' := SlotMap(m.slots[idx := Slot(k.version, Some(v))], m.free[..|m.free| - 1]);
      assert Valid(m) ==> forall i | 0 <= i < |m'.free| :: m'.free[i] == m.free[i] && m'.free[i] != idx;
      (m', k)
    else
      (SlotMap(m.slots + [Slot(0, Some(v))], m.free), Key(|m.slots|, 0))
  }

  /** `SlotMap::remove`: returns the occupant if the key is current, and frees the slot. */
  function Remove<T>(m: SlotMap<T>, k: Key): (res: (SlotMap<T>, Option<T>))
    ensures res.1 == Get(m, k)
    ensures Get(res.0, k).None?
    ensures Valid(m) ==> Valid(res.0)
    ensures forall k': Key | k' != k :: Get(res.0, k') == Get(m, k')
  {
    match Get(m, k)
    case None => (m, None)
    case Some(v) =>
      var m' := SlotMap(m.slots[k.index := Slot(k.version + 1, None)], m.free + [k.index]);
      assert Valid(m) ==> k.index !in m.free;
      (m', Some(v))
  }

  /** Occupants from slot `from` on, in index order (what `.values()` yields). */
  function ValuesFrom<T(!new)>(slots: seq<Slot<T>>, from: nat): (vs: seq<T>)
    requires from <= |slots|
    ensures forall v :: v in vs <==> exists i | from <= i < |slots| :: slots[i].occupant == Some(v)
    decreases |slots| - from
  {
    if from == |slots| then []
    else
      var rest := ValuesFrom(slots, from + 1);
      match slots[from].occupant
      case None => rest
      case Some(v) => [v] + rest
  }

  function Values<T(!new)>(m: SlotMap<T>): seq<T> {
    ValuesFrom(m.slots, 0)
  }

  /** A value is listed by `Values` iff some current key maps to it. */
  lemma ValuesAreOccupants<T(!new)>(m: SlotMap<T>, v: T)
    ensures v in Values(m) <==> exists k: Key :: Get(m, k) == Some(v)
  {
    if v in Values(m) {
      var i :| 0 <= i < |m.slots| && m.slots[i].occupant == Some(v);
      assert Get(m, Key(i, m.slots[i].version)) == Some(v);
    }
  }

  /** Inserting into a fresh table and removing with the returned key gives the value back
      and leaves no occupant behind. */
  lemma InsertThenRemove<T>(m: SlotMap<T>, v: T)
    requires Valid(m)
    ensures var (m1, k) := Insert(m, v); Remove(m1, k).1 == Some(v)
    ensures var (m1, k) := Insert(m, v); forall k' :: Get(Remove(m1, k).0, k') == Get(m, k')
  {
  }

  /** A key can be used to remove at most once: the second removal finds nothing (this is
      what makes the disposer's `unwrap` panic if the key is stale). */
  lemma RemoveTwiceFindsNothing<T>(m: SlotMap<T>, k: Key)
    requires Valid(m)
    ensures Remove(Remove(m, k).0, k).1 == None
  {
  }
}
