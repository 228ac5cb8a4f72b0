# Immediately-resolved result futures

A Dafny model of the immediately-resolved future of `ResultFutures.java`
(package `com.shkil.android.util.concurrent`) and the two listener adapters
beside it.

An `ImmediateResultFuture` is built already holding a `Result` (a success
value or an exception) and a default executor. The only things that can
still change are a `cancelled` flag and a single cancellation-listener slot,
which holds a listener and the executor it should run on. Every listener
operation (`cancel`, `onCancel`, `onResult`, `onCompleted`, `onSuccess`,
`onError`) decides, from that state, to run a listener inline, to hand it to
an executor, or to drop it. `onCancel` can also throw
`IllegalStateException`.

Layout:

- `optional.dfy`, `results.dfy`: Java `null` as `Option`; the `Result` value
  with the `getValue`/`getException` accessors the future and the adapters
  use.
- `listeners.dfy`: listener identities, the callbacks user code receives,
  and `ResultListener`, whose `SuccessAdapter`/`ErrorAdapter` cases are the
  two adapters (and the `successAdapter`/`errorAdapter` factories).
- `dispatch.dfy`: executors as identities (with the main-thread executor
  singled out), the units of work (`Task`) a future builds around a listener, and the
  dispatch record `Inline(task)` / `Scheduled(executor, task)`.
- `future_state.dfy`: the future as a pure state machine. One step function
  per operation gives the new state, the Java return value and the
  dispatches. Lemmas over any sequence of calls prove the cancellation
  guarantees: `cancel()` wins once, a registered listener fires exactly once,
  and a cancelled future stays cancelled.
- `immediate_future.dfy`: the class itself, whose fields are the source's
  fields, and the `result`/`success`/`failure` factories. Each method
  returns what it dispatched as `effects` and is proved to follow the step
  function of `future_state.dfy`.

The inner static `ImmediateResultFuture.success`/`failure`/`create`
(`ResultFutures.java:94-104`) do what the outer factories do, and are
covered by the same factory methods.

Behaviour of the code that a reader might not expect, all modelled as
written:

- `onCancel` on an already-cancelled future without an executor drops the
  listener. The inline branch at `ResultFutures.java:218-219` is guarded by
  `isResultReady()`, which is `!isCancelled()` (:113), so it is unreachable
  once the future is cancelled.
- `onCancel` on a future that is not cancelled stores the listener
  (:221-223), although the result is already there; a later `cancel()` then
  fires it.
- `cancel()` returns true on its first call (:173, :187), although the
  future already holds its result.
- `onCompleted` always passes `false` to its listener (:245, :249),
  including when the listener is handed to an executor after cancellation.

## Model

| member | source | states |
|---|---|---|
| `Results.Result.GetValue` | common/src/main/java/com/shkil/android/util/concurrent/ResultFutures.java:151-154 | non-null exactly for a success, and then it is the success value |
| `Results.Result.GetException` | common/src/main/java/com/shkil/android/util/concurrent/ResultFutures.java:313-315 | non-null exactly for a failure, and then it is the stored exception |
| `Results.AccessorsExclusive` | common/src/main/java/com/shkil/android/util/concurrent/ResultFutures.java:298-318 | exactly one of `getValue` and `getException` is non-null |
| `Listeners.ResultListener.OnResult` | common/src/main/java/com/shkil/android/util/concurrent/ResultFutures.java:290-318 | a user listener receives the result; the success adapter calls its listener, with the value, iff the result is a success; the error adapter calls its listener, with the exception, iff the exception is non-null |
| `Listeners.AdaptersPartition` | common/src/main/java/com/shkil/android/util/concurrent/ResultFutures.java:298-318 | for every result exactly one of the two adapters fires, and it fires once |
| `Dispatch.Task.Run` | common/src/main/java/com/shkil/android/util/concurrent/ResultFutures.java:179-250 | a cancellation task runs its runnable; a completion task reports `false`; an inline result task is `listener.onResult(result)` |
| `Dispatch.DispatchTo` | common/src/main/java/com/shkil/android/util/concurrent/ResultFutures.java:178-182 | a task is handed to the executor when there is one, otherwise run inline |
| `FutureState.Initial` | common/src/main/java/com/shkil/android/util/concurrent/ResultFutures.java:106-109 | a new future is not cancelled, has an empty slot, and keeps the given result and default executor |
| `FutureState.IsResultReady` | common/src/main/java/com/shkil/android/util/concurrent/ResultFutures.java:111-114 | ready iff not cancelled |
| `FutureState.CancelStep` | common/src/main/java/com/shkil/android/util/concurrent/ResultFutures.java:171-188 | returns true iff not yet cancelled; a later call changes nothing and fires nothing; the first call fires the stored listener exactly once (scheduled iff it has an executor), fires nothing on an empty slot, and clears listener and executor |
| `FutureState.OnCancelStep` | common/src/main/java/com/shkil/android/util/concurrent/ResultFutures.java:210-227 | an occupied slot throws `IllegalStateException` and changes nothing; on a live future it stores listener and executor and runs nothing; on a cancelled future it schedules once with an executor and drops the listener without one, never storing it |
| `FutureState.Deliver` | common/src/main/java/com/shkil/android/util/concurrent/ResultFutures.java:230-250 | with an executor exactly one hand-off; without one, inline iff not cancelled, otherwise nothing |
| `FutureState.OnResultEvents` | common/src/main/java/com/shkil/android/util/concurrent/ResultFutures.java:229-237 | at most one delivery, always of the future's own result; scheduled whenever an executor is given; inline iff not cancelled otherwise |
| `FutureState.OnCompletedEvents` | common/src/main/java/com/shkil/android/util/concurrent/ResultFutures.java:239-252 | the same rule as `onResult`, and every delivery reports `false` |
| `FutureState.Apply` | common/src/main/java/com/shkil/android/util/concurrent/ResultFutures.java:171-252 | no call changes the result or the default executor; only `cancel` sets the flag; every call keeps the invariant; `onResult`/`onCompleted` leave the state as it is |
| `FutureState.FinalState` | common/src/main/java/com/shkil/android/util/concurrent/ResultFutures.java:84-91 | after any sequence of calls the result and default executor are unchanged, the future is cancelled iff it was or some call was `cancel`, and the invariant holds |
| `FutureState.CancelledOnlySchedules` | common/src/main/java/com/shkil/android/util/concurrent/ResultFutures.java:215-250 | on a cancelled future every dispatch made by any sequence of calls is a hand-off to an executor |
| `FutureState.NothingInlineAfterCancel` | common/src/main/java/com/shkil/android/util/concurrent/ResultFutures.java:172-250 | once some call has cancelled the future, no later call runs any listener inline |
| `FutureState.CancelledIsTerminal` | common/src/main/java/com/shkil/android/util/concurrent/ResultFutures.java:172-175 | once cancelled, no later `cancel()` returns true or fires anything |
| `FutureState.CancelWinsOnce` | common/src/main/java/com/shkil/android/util/concurrent/ResultFutures.java:172-187 | over any sequence of calls, `cancel()` returns true exactly once if the future was live and some call is `cancel`, and never otherwise |
| `FutureState.RegisteredListenerFiresOnce` | common/src/main/java/com/shkil/android/util/concurrent/ResultFutures.java:176-186 | a listener in the slot of a live future is dispatched exactly once, on its executor or inline, if some later call is `cancel`, never otherwise, and until then the state does not change |
| `FutureState.CancelFiresAtMostOnce` | common/src/main/java/com/shkil/android/util/concurrent/ResultFutures.java:172-186 | over any sequence of calls, all `cancel()` calls together dispatch at most one listener |
| `FutureState.SecondListenerRejected` | common/src/main/java/com/shkil/android/util/concurrent/ResultFutures.java:211-214 | a second `onCancel` throws, leaves the state unchanged, and the later `cancel()` fires only the first listener |
| `ImmediateFutures.ImmediateResultFuture.constructor` | common/src/main/java/com/shkil/android/util/concurrent/ResultFutures.java:106-109 | the new object is the initial state, with the given result and default executor |
| `ImmediateFutures.ImmediateResultFuture.IsCancelled` | common/src/main/java/com/shkil/android/util/concurrent/ResultFutures.java:190-193 | returns the cancelled flag |
| `ImmediateFutures.ImmediateResultFuture.IsResultReady` | common/src/main/java/com/shkil/android/util/concurrent/ResultFutures.java:111-114 | true exactly while not cancelled |
| `ImmediateFutures.ImmediateResultFuture.Await` | common/src/main/java/com/shkil/android/util/concurrent/ResultFutures.java:116-119 | the constructor's result, cancelled or not |
| `ImmediateFutures.ImmediateResultFuture.AwaitFor` | common/src/main/java/com/shkil/android/util/concurrent/ResultFutures.java:141-144 | the constructor's result whatever the timeout |
| `ImmediateFutures.ImmediateResultFuture.PeekResult` | common/src/main/java/com/shkil/android/util/concurrent/ResultFutures.java:146-149 | the constructor's result, cancelled or not |
| `ImmediateFutures.ImmediateResultFuture.AwaitValue` | common/src/main/java/com/shkil/android/util/concurrent/ResultFutures.java:121-124 | the success value, or null iff the result is a failure |
| `ImmediateFutures.ImmediateResultFuture.PeekValue` | common/src/main/java/com/shkil/android/util/concurrent/ResultFutures.java:151-154 | the success value, or null iff the result is a failure |
| `ImmediateFutures.ImmediateResultFuture.GetDefaultResultExecutor` | common/src/main/java/com/shkil/android/util/concurrent/ResultFutures.java:284-287 | the constructor-supplied executor, unchanged |
| `ImmediateFutures.ImmediateResultFuture.Cancel` | common/src/main/java/com/shkil/android/util/concurrent/ResultFutures.java:171-188 | follows `CancelStep`: true only on the first call, which fires the stored listener once and clears the slot; later calls return false and change nothing |
| `ImmediateFutures.ImmediateResultFuture.OnCancelWithExecutor` | common/src/main/java/com/shkil/android/util/concurrent/ResultFutures.java:210-227 | follows `OnCancelStep`: throws iff the slot is occupied, leaving all fields as they were; stores on a live future; schedules or drops on a cancelled one |
| `ImmediateFutures.ImmediateResultFuture.OnCancel` | common/src/main/java/com/shkil/android/util/concurrent/ResultFutures.java:195-198 | `onCancel` with the default executor |
| `ImmediateFutures.ImmediateResultFuture.OnResultWithExecutor` | common/src/main/java/com/shkil/android/util/concurrent/ResultFutures.java:229-237 | one hand-off with an executor; without one, inline iff not cancelled, else dropped |
| `ImmediateFutures.ImmediateResultFuture.OnResult` | common/src/main/java/com/shkil/android/util/concurrent/ResultFutures.java:200-203 | `onResult` with the default executor; at most one delivery |
| `ImmediateFutures.ImmediateResultFuture.OnCompletedWithExecutor` | common/src/main/java/com/shkil/android/util/concurrent/ResultFutures.java:239-252 | one hand-off with an executor; without one, the listener is told `false` inline iff not cancelled, else dropped |
| `ImmediateFutures.ImmediateResultFuture.OnCompleted` | common/src/main/java/com/shkil/android/util/concurrent/ResultFutures.java:205-208 | `onCompleted` with the default executor; at most one delivery |
| `ImmediateFutures.ImmediateResultFuture.OnSuccessWithExecutor` | common/src/main/java/com/shkil/android/util/concurrent/ResultFutures.java:259-262 | `onResult` with a success adapter; inline, the listener gets the value iff the future is live and holds a success |
| `ImmediateFutures.ImmediateResultFuture.OnSuccess` | common/src/main/java/com/shkil/android/util/concurrent/ResultFutures.java:254-257 | `onSuccess` with the default executor |
| `ImmediateFutures.ImmediateResultFuture.OnErrorWithExecutor` | common/src/main/java/com/shkil/android/util/concurrent/ResultFutures.java:269-272 | `onResult` with an error adapter; inline, the listener gets the exception iff the future is live and holds a failure |
| `ImmediateFutures.ImmediateResultFuture.OnError` | common/src/main/java/com/shkil/android/util/concurrent/ResultFutures.java:264-267 | `onError` with the default executor |
| `ImmediateFutures.ResultFuture` | common/src/main/java/com/shkil/android/util/concurrent/ResultFutures.java:40-42 | a fresh future in the initial state with the given result and executor |
| `ImmediateFutures.ResultFutureOnMainThread` | common/src/main/java/com/shkil/android/util/concurrent/ResultFutures.java:36-38 | the same, with the main-thread executor |
| `ImmediateFutures.SuccessFuture` | common/src/main/java/com/shkil/android/util/concurrent/ResultFutures.java:48-50 | a fresh future holding `Success(value)` |
| `ImmediateFutures.SuccessFutureOnMainThread` | common/src/main/java/com/shkil/android/util/concurrent/ResultFutures.java:44-46 | the same, with the main-thread executor |
| `ImmediateFutures.FailureFuture` | common/src/main/java/com/shkil/android/util/concurrent/ResultFutures.java:56-58 | a fresh future holding `Failure(exception)` |
| `ImmediateFutures.FailureFutureOnMainThread` | common/src/main/java/com/shkil/android/util/concurrent/ResultFutures.java:52-54 | the same, with the main-thread executor |

## Left out

- Concurrency: the `AtomicBoolean`, `synchronized` blocks and `volatile` fields are read as one sequential step per call. Races between threads are not modelled.
- `map` (both overloads): it delegates to `ResultFutureAdapter`, which is not part of this model.
- `awaitValueOrThrow`, `awaitValueOrThrowEx`, `awaitValueOrThrowRuntime` and the matching `peekValueOrThrow*`: they rest on `Result`'s throwing accessors, and `Result.java` is not part of this model.
- `futureTask`, `executeTask` and `latch`: `ResultFutureTask` and `LatchResultFuture` are not part of this model.
- `OnResultRunnable`: a result delivery handed to an executor is recorded with its listener and result only. What the runnable does when it runs is not part of this model, and neither is the cancelled flag it is given.
- Executors only record a hand-off (`Scheduled`). Whether an executor such as the main-thread executor then runs a handed-off `Task` at once or posts it is not modelled.
- Null arguments: a null listener, a null result passed to `result(...)`, a failure holding a null exception, and a success holding a null value are not modelled. The null guards of `peekValue` therefore never apply.
- Results.Result.GetValue: "non-null exactly for a success" holds only because a success holding a null value is not modelled; for `success(null)` the source's `getValue()` is null.
- Results.AccessorsExclusive: "exactly one accessor is non-null" likewise excludes a success holding a null value, or a failure holding a null exception, for which both accessors are null.
- Listeners.AdaptersPartition: "exactly one adapter fires" excludes a failure holding a null exception, which neither adapter passes on in the source.
- ImmediateFutures.ImmediateResultFuture.AwaitValue: "null iff the result is a failure" excludes a success holding a null value, for which it is also null.
- ImmediateFutures.ImmediateResultFuture.PeekValue: "null iff the result is a failure" excludes a success holding a null value, for which it is also null.
- FutureState.CancelStep: assumes the listener and its executor return normally and do not call back into the future. In the source, an `execute` that throws (:179) or an inline `run()` that throws (:181) leaves `cancel()` before the slot is cleared (:184-185), so the future stays cancelled with an occupied slot and every later `onCancel` throws (:212-213); an inline listener that calls `onCancel` re-entrantly likewise still finds the slot occupied. Neither case is modelled.
- FutureState.FinalState: its "a cancelled future holds no listener" invariant (`Valid`) rests on the same assumption, and does not hold in the source after a throwing or re-entrant cancellation listener.
- ImmediateFutures.ImmediateResultFuture.Cancel: follows `CancelStep`, so it shares the assumption that dispatching the listener returns normally.
- The `this` that the `on*` methods return for chaining, and the time unit of `await(timeout, unit)`, are not modelled.
- Blocking: `await` on this future never blocks, so nothing about waiting is modelled.
