/** Per-scope context values (`src/context.rs`).

    A scope's contexts form a map from a type identifier to one boxed value. The model
    follows the code as written: providing a second value of a type panics, and lookup
    only ever consults the scope it was called on, because the loop in `try_use_context`
    never moves `this` to the parent. A miss therefore spins forever instead of
    returning `None`.
 */
module Context {

  import opened Wrappers

  type TypeId = nat
  type Value = int
  type ContextMap = map<TypeId, Value>

  datatype Provided = Stored(contexts: ContextMap) | Panicked(reason: string)

  /** What a call of `try_use_context` does: return (with `Some` or `None`), or loop. */
  datatype Lookup = Returned(result: Option<Value>) | Diverges

  /** What a call of `use_context` does: return a value, panic in `expect`, or loop. */
  datatype Use = Found(value: Value) | ExpectPanics | Loops

  /** `provide_context`: the value is stored under its type, and a call that finds an
      entry for the type already there panics. A panicking call ends the program's
      thread, so the map it leaves behind is not part of the result. */
  function Provide(m: ContextMap, t: TypeId, v: Value): (r: Provided)
    ensures r.Stored? <==> t !in m
    ensures r.Stored? ==> r.contexts == m[t := v]
  {
    if t in m then Panicked("existing context with type exists already") else Stored(m[t := v])
  }

  /** `try_use_context`: a hit returns the stored value; on a miss the loop condition
      never changes, so the call does not return. */
  function TryUse(m: ContextMap, t: TypeId): (r: Lookup)
    ensures r.Returned? <==> t in m
    ensures r.Returned? ==> r.result == Some(m[t])
  {
    if t in m then Returned(Some(m[t])) else Diverges
  }

  /** `use_context`: `try_use_context(..).expect(..)`. */
  function UseCtx(m: ContextMap, t: TypeId): (r: Use)
    ensures r.Found? <==> t in m
    ensures r.Found? ==> r.value == m[t]
    ensures !r.ExpectPanics?
  {
    match TryUse(m, t)
    case Returned(Some(v)) => Found(v)
    case Returned(None) => ExpectPanics
    case Diverges => Loops
  }

  /** A provided value is found again by its type. */
  lemma ProvideThenUse(m: ContextMap, t: TypeId, v: Value)
    requires t !in m
    ensures Provide(m, t, v).Stored?
    ensures UseCtx(Provide(m, t, v).contexts, t) == Found(v)
  {
  }

  /** Values of distinct types coexist; providing one type does not disturb another. */
  lemma DistinctTypesCoexist(m: ContextMap, t1: TypeId, v1: Value, t2: TypeId, v2: Value)
    requires t1 != t2 && t1 !in m && t2 !in m
    ensures Provide(m, t1, v1).Stored?
    ensures Provide(Provide(m, t1, v1).contexts, t2, v2).Stored?
    ensures var m2 := Provide(Provide(m, t1, v1).contexts, t2, v2).contexts;
            UseCtx(m2, t1) == Found(v1) && UseCtx(m2, t2) == Found(v2)
  {
  }

  /** Providing the same type twice panics on the second call. */
  lemma ProvideTwicePanics(m: ContextMap, t: TypeId, v1: Value, v2: Value)
    requires t !in m
    ensures Provide(Provide(m, t, v1).contexts, t, v2).Panicked?
  {
  }

  /** A lookup never returns `None`, so the `expect` in `use_context` cannot fire. */
  lemma NeverReturnsNone(m: ContextMap, t: TypeId)
    ensures TryUse(m, t) != Returned(None)
  {
  }
}
