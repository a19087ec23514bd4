# sycamore-reactive: a Dafny model of the reactive runtime

This project models the reactive core of `sycamore-reactive`:
- signals with ordered subscriber lists;
- effects with dynamic dependency sets, an effect stack and a re-entrancy guard;
- memos, selectors and reducers built on effects;
- the scope tree, with child scopes, cleanup callbacks, disposal, per-scope context maps and the append-only scope arena.

The runtime is an immutable record (`State.Runtime`) with these parts:
- signal cells (value and subscriber list);
- effect cells (closure, owner scope, dependency set, `running` and `alive` flags);
- scope cells (parent, `child_scopes` slot map, effects, cleanups, contexts, arena);
- the effect stack;
- a counter that gives each cleanup callback its own identity;
- an event log that records effect runs, effect drops, cleanup calls, freed contexts and dropped arena values.

Every operation is a pure transition on that record. Raw pointers, `Rc`, `Weak` and boxes become integer ids into the tables.

User closures are a small first-order instruction language, `State.Instr` and `State.Expr`. It can do the following:
- read a signal tracked or untracked, and apply a pure function to values;
- write, set silently, take, take silently or track a signal;
- branch on a value;
- register a cleanup callback;
- create an effect or a scoped effect in the current scope;
- run a block untracked.

A closure cannot create signals, memos, child scopes or contexts itself. Those are `Api` operations.

Propagation is a direct synchronous callback over a snapshot of the subscriber list, taken in reverse insertion order. There is no batching, no equality check on `set` and no cycle error. The recursion between effects, notification and disposal is bounded by a `fuel` argument; running out is the outcome `OutOfFuel`.

Modules:
- `Wrappers`: `Option`.
- `Emitter`: the subscriber list (`SignalEmitter`), an insertion-ordered map with `swap_remove`.
- `SlotMap`: the `child_scopes` table, with versioned keys and a LIFO free list.
- `Arena`: `ScopeArena`, `DataRef` and `Data`.
- `Context`: the per-scope context map and its lookup.
- `State`: the runtime, the closure language and the single-table updates.
- `Invariant`: the subscription invariant `Inv` and the cleanup bookkeeping `CleanOk`. It also holds `Step`, which every operation establishes. `Step` says the stack is restored, ids are only added, the log only grows and no effect is re-entered. It also says `Inv` and `CleanOk` are kept and every pending cleanup is either still pending or has been called.
- `Engine`: effect runs, notification and disposal, as mutually recursive functions.
- `Api`: the public operations.
- `Trace`, `Disposal`, `Tracking`, `Notification`, `Laws`: the properties.

## Model

| member | source | states |
|---|---|---|
| Api.CreateScope | src/lib.rs:104-119 | the new scope gets the next id and the setup closure's run is a step |
| Api.RootDisposer | src/lib.rs:111-118 | when the disposer returns, every cleanup pending in the scope has been called |
| Api.CreateScopeImmediate | src/lib.rs:122-125 | creating then disposing at once adds the scope and is a step |
| Api.CreateChildScope | src/lib.rs:196-217 | the child gets the next scope id, and the key it is stored under was vacant in the parent's `child_scopes` |
| Api.ChildDisposer | src/lib.rs:218-227 | on return the key named a child and all of that child's cleanups have been called; a key no longer present panics with the `unwrap` message |
| Api.CreateSignal | src/lib.rs:130-133 | succeeds exactly when the scope id names a scope; the new signal holds the value with no subscribers and is recorded on the scope's arena |
| Api.CreateRef | src/lib.rs:156-159 | succeeds exactly when the scope id names a scope; the reference dereferences to the value; the arena grows and keeps every earlier entry |
| Api.OnCleanup | src/lib.rs:162-164 | succeeds exactly when the scope id names a scope; the callback is appended with an identity no pending callback has |
| Api.Get | src/signal.rs:84-87 | returns the current value; the effect on top of the stack gains exactly this signal as a dependency, and every other effect, signal, scope and the log are unchanged |
| Api.GetUntracked | src/signal.rs:107-109 | returns the current value exactly when the signal exists |
| Api.Track | src/signal.rs:133-135 | the top effect gains exactly this signal as a dependency; every other effect, every signal, scope and the log are unchanged |
| Api.Set | src/signal.rs:165-168 | an unknown signal is an error; otherwise a step (value and notification facts are in the laws below) |
| Api.SetSilent | src/signal.rs:173-175 | replaces the value, changes no other signal and runs nothing |
| Api.Take | src/signal.rs:182-186 | returns the value the signal held before |
| Api.TakeSilent | src/signal.rs:191-193 | returns the old value, leaves the default behind and runs nothing |
| Api.TriggerSubscribers | src/signal.rs:43-59 | an unknown signal is an error; with no subscribers nothing changes |
| Api.Dispatch | src/memo.rs:127-129 | an unknown state signal is an error; a completed dispatch is a step |
| Api.CreateSelectorWith | src/memo.rs:62-85 | the returned output is a signal of the new state, and creation is a step |
| Api.CreateMemo | src/memo.rs:22-24 | as `create_selector_with`: the output exists and creation is a step |
| Api.CreateSelector | src/memo.rs:46-51 | as `create_selector_with`: the output exists and creation is a step |
| Api.Map | src/signal.rs:126-128 | as `create_memo`: the output exists and creation is a step |
| Api.CreateEffect | src/effect.rs:68-127 | the new effect is owned by the scope, listed in its `effects`, idle afterwards, and keeps the given body |
| Api.CreateEffectScoped | src/effect.rs:129-145 | as `create_effect`, with the scoped closure around the body |
| Api.Untrack | src/effect.rs:167-185 | the effect stack is restored, and no running effect gains or loses a dependency |
| Api.CreateReducer | src/memo.rs:120-132 | succeeds exactly when the scope id names a scope; the state is a new signal holding the initial value |
| Api.ProvideContext | src/context.rs:7-14 | succeeds exactly when the type is absent and then stores the value under it; an existing entry panics with the source's message |
| Api.TryUseContext | src/context.rs:17-36 | returns exactly on a hit, and then returns `Some` of the stored value |
| Api.UseContext | src/context.rs:40-42 | finds a value exactly on a hit, and the `expect` never panics |
| Emitter.Subscribe | src/signal.rs:17-19 | an existing subscriber keeps its place; a new one is appended |
| Emitter.Unsubscribe | src/signal.rs:23-25 | a non-subscriber leaves the list unchanged; a subscriber shortens it by one |
| Emitter.NotifyOrder | src/signal.rs:43-49 | the snapshot is visited in exactly reverse map order |
| Emitter.SubscribeIdempotent | src/signal.rs:16-19 | subscribing twice is subscribing once |
| Emitter.SubscribeMembership | src/signal.rs:17-19 | afterwards the members are the old ones plus the new one, with no duplicates |
| Emitter.UnsubscribeMembership | src/signal.rs:23-25 | on a duplicate-free list, exactly the removed callback leaves and no duplicate appears |
| Emitter.UnsubscribeUndoesSubscribe | src/signal.rs:17-25 | removing a callback that was just added gives back the original list |
| Emitter.NotifyOrderFirst | src/signal.rs:49 | the most recently subscribed callback is called first |
| Emitter.NotifyOrderReverses | src/signal.rs:44-49 | of two subscribers, the earlier one is called later |
| Emitter.NotifyOrderSameMembers | src/signal.rs:44-49 | the snapshot visits every subscriber and nothing else |
| SlotMap.Insert | src/lib.rs:206-210 | the new key maps to the value and was vacant before; every other key keeps its entry; validity is kept |
| SlotMap.Remove | src/lib.rs:219 | returns what the key named and vacates it; every other key keeps its entry |
| SlotMap.ValuesAreOccupants | src/lib.rs:241 | `values()` lists exactly the values some current key maps to |
| SlotMap.InsertThenRemove | src/lib.rs:206-219 | removing with the key `insert` returned gives the value back and restores every lookup |
| SlotMap.RemoveTwiceFindsNothing | src/lib.rs:219 | a second removal with the same key finds nothing, which is why a second disposer call would panic |
| Arena.Alloc | packages/sycamore-reactive/src/arena.rs:81-98 | appends exactly one entry, keeps the earlier ones, and returns a reference to the value |
| Arena.Dispose | packages/sycamore-reactive/src/arena.rs:106-115 | drops every allocated value in order and leaves the arena empty |
| Arena.Drop | packages/sycamore-reactive/src/arena.rs:118-121 | dropping is disposing |
| Arena.CloneSameReferent | packages/sycamore-reactive/src/arena.rs:39-46 | a cloned `DataRef` dereferences to the same value |
| Arena.DerefData | packages/sycamore-reactive/src/arena.rs:66-71 | dereferencing `Data` yields the wrapped value |
| Arena.AllocKeepsReferents | packages/sycamore-reactive/src/arena.rs:85-95 | an allocation never changes what an earlier reference dereferences to |
| Arena.AllocAllAppends | packages/sycamore-reactive/src/arena.rs:81-98 | a run of allocations holds exactly the allocated values, in allocation order |
| Arena.DisposeDropsEachOnce | packages/sycamore-reactive/src/arena.rs:105-121 | disposal drops each allocated value exactly once in allocation order, and the later `Drop` drops nothing |
| Context.Provide | src/context.rs:7-14 | stores exactly when the type is absent, updating only that entry |
| Context.TryUse | src/context.rs:17-36 | returns exactly on a hit, with the stored value; a miss never returns, because the loop never changes its scope |
| Context.UseCtx | src/context.rs:40-42 | finds the value exactly on a hit, and never panics in `expect` |
| Context.ProvideThenUse | src/context.rs:50-56 | a provided value is found again by its type |
| Context.DistinctTypesCoexist | src/context.rs:8-13 | values of two different types are both found after both are provided |
| Context.ProvideTwicePanics | src/context.rs:11-13 | a second value of the same type panics |
| Context.NeverReturnsNone | src/context.rs:18-35 | a lookup never yields `None` |
| Engine.Notify | src/signal.rs:49-58 | a completed pass over a snapshot is a step: the stack is restored, ids are only added, the log only grows, no running effect is re-entered, and `Inv` and `CleanOk` are kept |
| Engine.Trigger | src/signal.rs:43-59 | a completed notification of a signal's subscribers is a step |
| Engine.RunEffect | src/effect.rs:72-114 | a completed run of an idle effect is a step |
| Engine.RunScoped | src/effect.rs:129-145 | a completed scoped closure is a step |
| Engine.RunSelector | src/memo.rs:71-81 | a completed memo closure is a step |
| Engine.CallChildDisposer | src/lib.rs:218-227 | a completed disposer call is a step |
| Engine.Dispose | src/lib.rs:239-262 | a completed disposal is a step |
| Engine.DropScope | src/lib.rs:265-270 | a completed drop of a scope box is a step |
| State.ClearDependencies | src/effect.rs:40-45 | the effect leaves the subscriber list of exactly the signals it depended on, its dependency set becomes empty, and every value and every other effect is unchanged |
| State.DropEffects | src/lib.rs:247-248 | exactly the scope's effects are marked dropped, one event per effect in list order, and the scope's effect list is emptied |
| Engine.InvBegin | src/effect.rs:40-45 | clearing the dependencies of an idle effect keeps the subscription invariant |
| Engine.InvFinish | src/effect.rs:104-106 | re-subscribing to the collected dependencies at the end of a run keeps the subscription invariant |
| Engine.RunEffectStep | src/effect.rs:72-114 | a whole effect run, from begin through the closure to finish, is a step: the stack length is restored |
| Tracking.RerunRecomputesDeps | src/effect.rs:72-114 | re-running a read-only effect sets its dependencies to exactly what this run read; under the invariant it is subscribed to exactly those signals |
| Tracking.RunReadOnly | src/signal.rs:28-37 | a body that only reads never fails and only adds what it reads to the top effect's dependencies |
| Disposal.RunCleanupsOrder | src/lib.rs:250-254 | the taken callbacks are called in registration order |
| Disposal.DisposeCleanupsOrder | src/lib.rs:249-254 | the cleanup phase calls every callback the scope held, in registration order |
| Disposal.DisposeCleanupsUntracked | src/lib.rs:249-254 | no running effect gains or loses a dependency while cleanups run |
| Disposal.UntrackKeepsDeps | src/effect.rs:167-185 | an untracked block restores the stack and changes no running effect's dependencies |
| Disposal.DisposeCleanupsDone | src/lib.rs:239-262 | when `dispose` returns, every callback the scope held has been called |
| Disposal.DisposePhases | src/lib.rs:239-262 | the log has cut points k1 <= k2 <= k3: every cleanup of each child has been called by k1; only effect drops lie between k1 and k2; every cleanup of the scope itself has been called by k3; after k3 come one event freeing the scope's contexts and then only drops of its arena values; contexts and arena end empty |
| Disposal.DisposeInOrder | src/lib.rs:239-262 | when the children leave the scope's own lists in place: the scope's effects are dropped in list order right after the children phase, none of its cleanups is called before that, and all of them are called in registration order before the contexts are freed |
| Disposal.DisposeChildrenDone | src/lib.rs:240-246 | every child scope in the list has had all its cleanups called |
| Disposal.DropScopeDone | src/lib.rs:265-270 | dropping a scope box after `dispose` has called all its cleanups |
| Laws.RunEffectOnce | src/signal.rs:50-56 | a run logs the effect first and does not run it again before returning, whatever its body writes |
| Laws.NotifyFirst | src/signal.rs:49-56 | the first snapshot entry, if alive and idle, is run first |
| Laws.NotifySkips | src/signal.rs:50-56 | a dropped or running entry is skipped |
| Laws.SetThenGet | src/signal.rs:267-275 | with no subscribers, `set` then `get` returns the new value and nothing runs |
| Laws.SetAlwaysNotifies | src/signal.rs:165-168 | even writing the same value runs the subscribers, the last subscribed first |
| Laws.SetSilentThenGet | src/signal.rs:290-299 | `set_silent` then `get` returns the new value; every other signal, such as a memo, keeps its value; nothing runs |
| Laws.TakeThenGet | src/signal.rs:326-334 | `take` returns the old value and leaves the default |
| Laws.TakeSilentThenGet | src/signal.rs:337-347 | `take_silent` returns the old value, leaves the default and runs nothing |
| Laws.UntrackedReadTracksNothing | src/signal.rs:96-109 | an untracked read changes nothing; a tracked read makes the signal a dependency of the top effect |
| Laws.TrackWithoutEffect | src/signal.rs:28-37 | tracking with an empty effect stack changes nothing |
| Laws.EffectRunsOnceAtCreation | src/effect.rs:192-208 | creating an effect runs it exactly once and restores the stack |
| Laws.EffectTracksItsReads | src/effect.rs:223-241 | a new read-only effect depends on exactly what it read, subscribed once to each such signal |
| Laws.ScopedRerunDisposesPrevious | src/effect.rs:129-145 | a re-run of a scoped effect first calls the previous run's disposer, which succeeds and returns the state `mid`; every cleanup of the previous child scope has been called in the log up to `mid`, and the body then runs from `mid` in a new child scope, so every event of the new body, and every run it triggers, comes later |
| Laws.SelectorFirstRun | src/memo.rs:78-80 | the first run creates the output signal holding `f()` and tracks what `f` reads |
| Laws.MemoInitialValue | src/memo.rs:62-85 | creation succeeds whenever the scope id names a scope; the output holds `f()` at creation and its effect depends on exactly what `f` reads |
| Laws.SelectorFirstEffect | src/memo.rs:69-82 | the first run of the selector effect leaves it depending on exactly what `f` read |
| Laws.SelectorSkipsEqual | src/memo.rs:72-77 | when the comparator calls the values equal, no signal changes and nothing else runs; the effect depends on `f`'s reads and on the output |
| Laws.SelectorWritesWhenDifferent | src/memo.rs:73-76 | when the comparator reports a difference and no effect other than the memo itself subscribes to the output, the re-run sets the output to `f()`, every other signal keeps its value and nothing else runs |
| Laws.InvOnlySelf | src/memo.rs:72-76 | under the invariant, an output whose only subscriber is the memo (which it is from the memo's second run on, because the re-run reads the output) meets the condition of `SelectorWritesWhenDifferent`, so the law covers every re-run in which no other effect subscribes to the output |
| Laws.MapInitialValue | src/signal.rs:126-128 | the mapped signal starts as `f` of the source's value and depends on the source alone |
| Laws.MemoAlwaysWrites | src/memo.rs:22-24 | the memo comparator never calls two values equal; the selector comparator is `==` |
| Laws.DispatchReduces | src/memo.rs:127-129 | dispatch sets the state to `reduce(current, msg)` and changes no other signal |
| Laws.ReducerCounter | src/memo.rs:100-119 | the counter example: starts at 0, an increment gives 1, a decrement gives 0 again |
| Notification.NotifyRunsAll | src/signal.rs:49-58 | a pass calls, in snapshot order, every entry that was idle when it began and whose effect is still alive when it ends |
| Notification.MustRunMembers | src/signal.rs:49-58 | the entries a pass has to call are exactly the snapshot entries that were idle at its start and alive at its end |
| Notification.TriggerRunsAll | src/signal.rs:43-59 | under `Inv`, notifying a signal calls every subscriber of the snapshot that is still alive at the end, the last subscribed first |
| Notification.TriggerRunsEvery | src/signal.rs:43-59 | under `Inv`, when no subscriber has been dropped by the end, every subscriber of the snapshot is called, in reverse subscription order |
| Notification.SetRunsEvery | src/signal.rs:165-168 | the same for `set` |
| Notification.SetRunsSubscribers | src/signal.rs:165-168 | `set` calls, in snapshot order, every subscriber it has to call |
| Notification.TakeRunsSubscribers | src/signal.rs:182-186 | `take` notifies exactly as `set` does |
| Notification.DispatchRunsSubscribers | src/memo.rs:127-129 | the reducer's dispatcher notifies exactly as `set` does |
| Notification.SelectorWriteRuns | src/memo.rs:71-80 | a memo re-run whose comparator reports a change logs its own run first and then calls every subscriber of the output it has to call, in snapshot order |
| Notification.WriteClosurePass | src/memo.rs:73-76 | the closure of such a run is the write's notification pass over the output's subscribers |
| Invariant.PendingNotRun | src/lib.rs:162-164 | a callback still pending in a scope has not been called |
| Laws.RanIdsCount | src/lib.rs:250-254 | the cleanup bookkeeping counts exactly the logged cleanup calls |
| Laws.CleanupsAtMostOnce | src/lib.rs:250-254 | no callback is ever called twice |
| Laws.RootDisposerCallsEachOnce | src/lib.rs:111-118 | the disposer calls each pending callback exactly once, although `dispose` runs twice |
| Laws.ChildCleanupRunsOnDisposer | src/lib.rs:289-301 | a callback registered in a child scope is not called during setup and is called exactly once by the child's disposer |
| Laws.DisposeEmptiedNoop | src/lib.rs:230-238 | disposing a scope that holds nothing changes nothing |
| Laws.DropAfterDispose | src/lib.rs:265-270 | dropping after a disposal that emptied the scope ends where the disposal alone ended |
| Laws.ParentDisposesChild | src/lib.rs:240-246 | disposing a parent calls every pending callback of every child it holds |
| Laws.ProvideThenUseContext | src/context.rs:50-56 | after `provide_context`, both `use_context` and `try_use_context` find the value on that scope |
| Laws.ProvideContextTwicePanics | src/context.rs:11-13 | providing the same type twice on a scope panics on the second call |

## Left out

- Raw pointers, `Box::into_raw`, `transmute`, lifetimes and `InvariantLifetime` are not modelled. Handles are integer ids. An id that names no node gives the error `Dangling`, where Rust's lifetimes would reject the program.
- The `thread_local!` effect stack and the `try_with` fallback of `untrack` are not modelled. The stack is a field of the runtime, and the destructor-time fallback is not modelled.
- `RcSignal` (reference counting only), the macro crate, `flow`, `component`, `futures` and the examples are not part of this model.
- `RefCell` borrow panics are not modelled, except for the failed `try_borrow_mut` that skips a running callback. That one is the `running` flag.
- Recursion between effects, notification and disposal is bounded by `fuel`. A run that would go deeper ends in `OutOfFuel`, so the laws speak only of runs that return `Ok`, and an unbounded effect cycle is not modelled.
- Values are mathematical integers, and `T::default()` is 0. There is no integer width or overflow, and no values of other types.
- User closures are instruction-language programs, not arbitrary Rust. A function passed to `map`, to a reducer or to `Apply` is a pure Dafny function.
- A memo or selector closure is an `Expr`: it only reads signals and is deterministic. The two calls of `f` in one re-run of `create_selector_with` therefore always agree, and `Laws.SelectorWritesWhenDifferent` speaks of the second call only for such an `f`. A memo closure that writes, creates effects or keeps state between calls is not modelled.
- Disposing context values and arena boxes only logs what was freed. Rust destructors of user values are not run.
- The context lookup follows the code, which never climbs to a parent scope: a miss loops forever, and `Context.TryUse` reports this as `Diverges`. A lookup that searches the parent scopes is not modelled.
- Api.Set, Api.Take, Api.CreateMemo, Api.CreateSelector, Api.CreateSelectorWith, Api.Map and Api.Dispatch: their own contracts state only the step. The values they write are stated in `Laws` (`SetThenGet`, `TakeThenGet`, `MemoInitialValue`, `MapInitialValue`, `SelectorWritesWhenDifferent`, `DispatchReduces`). The notification passes of `set`, `take`, dispatch and a memo's write are stated in `Notification`.
- Engine.Notify, Engine.Trigger, Engine.RunEffect, Engine.RunScoped, Engine.RunSelector, Engine.CallChildDisposer, Engine.Dispose and Engine.DropScope: their own contracts state only the step. What they log is stated by `Notification`, `Disposal` and `Laws`.
- Api.CreateChildScope: does not promise that the key still names the child, or that the child's parent link is set, when the call returns. The setup closure can write signals. Their effects can dispose the parent, which empties its `child_scopes`. The parent link of a scope is not part of `Step`.
- Api.ChildDisposer: does not promise that the key is vacant afterwards. The disposed child's cleanups can reach the parent's table, and slot versions are not tracked across them.
- Disposed scopes are not marked. A scope id stays valid after `dispose`, and a later operation on it succeeds on the emptied scope. In Rust the lifetimes forbid such a call.
- Disposal.DisposePhases: does not place the scope's own cleanups after the children phase, nor tie the drops to the scope's own effects. `Disposal.DisposeInOrder` does both, under `ChildrenKeepOwn`.
- Disposal.DisposeInOrder: holds under `ChildrenKeepOwn`, that disposing the children does not take or replace the scope's own effects and cleanups. A child's callback could reach the parent through a signal write. `Disposal.ChildlessKeepsOwn` shows that a scope with no children meets the condition.
- Notification.NotifyRunsAll, Notification.TriggerRunsAll, Notification.SetRunsSubscribers, Notification.TakeRunsSubscribers, Notification.DispatchRunsSubscribers and Notification.SelectorWriteRuns: an entry whose effect was dropped before the end of the pass is not promised to have run, because it may have been dropped before its turn.
- Laws.SetThenGet: stated only for a signal with no subscribers, because a subscriber could write the signal again before `get`.
- Laws.TakeThenGet: stated only for a signal with no subscribers, for the same reason.
- Laws.SelectorWritesWhenDifferent: stated only when no effect other than the memo's own subscribes to the output. Another subscriber would run during the write, and what it does is covered by `Notification.SelectorWriteRuns`. The memo's own subscription is removed when its run begins.
- Laws.DispatchReduces: stated only for a state signal with no subscribers.
- Laws.EffectTracksItsReads: stated only for bodies that only read signals. Bodies that also write can trigger nested runs.
- Laws.RootDisposerCallsEachOnce: assumes the cleanup bookkeeping `CleanOk`. It holds for the empty runtime (`Invariant.InitClean`), and every operation keeps it (`Step`).
- Laws.CleanupsAtMostOnce: assumes `CleanOk`, as above.
- Laws.ChildCleanupRunsOnDisposer: assumes `CleanOk`, as above.
- Laws.DisposeEmptiedNoop: idempotence of `dispose` is stated only for a scope that holds nothing. A cleanup called during `dispose` may register new callbacks or children on the scope being disposed, so a second `dispose` is not a no-op in every case.
