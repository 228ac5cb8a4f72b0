/**
 * `ResultFutures.ImmediateResultFuture`: a future constructed already
 * holding its result, and the `ResultFutures` factories that build one.
 * Each method returns, besides what the Java method returns, the dispatch
 * decisions it took (`effects`), and is proved to follow the step
 * functions of `FutureState`.
 */
module ImmediateFutures {
  import opened Optional
  import opened Results
  import opened Listeners
  import opened Dispatch
  import opened FutureState

  class ImmediateResultFuture<V> {
    const result: Result<V>
    const defaultResultExecutor: Option<Executor>
    var cancelled: bool
    var cancellationListener: Option<Runnable>
    var cancellationListenerExecutor: Option<Executor>

    /** The abstract value of the object. */
    function Snapshot(): State<V>
      reads this
    {
      State(result, defaultResultExecutor, cancelled, cancellationListener, cancellationListenerExecutor)
    }

    ghost predicate Consistent()
      reads this
    {
      FutureState.Valid(Snapshot())
    }

    constructor (result: Result<V>, defaultResultExecutor: Option<Executor>)
      ensures Consistent()
      ensures Snapshot() == Initial(result, defaultResultExecutor)
    {
      this.result := result;
      this.defaultResultExecutor := defaultResultExecutor;
      cancelled := false;
      cancellationListener := None;
      cancellationListenerExecutor := None;
    }

    method IsCancelled() returns (c: bool)
      ensures c == cancelled
    {
      c := cancelled;
    }

    /** `isResultReady()`: true exactly while the future is not cancelled. */
    method IsResultReady() returns (ready: bool)
      ensures ready <==> !cancelled
      ensures ready == FutureState.IsResultReady(Snapshot())
    {
      var c := IsCancelled();
      ready := !c;
    }

    /** `await()`: never blocks and always yields the constructor's result, cancelled or not. */
    method Await() returns (r: Result<V>)
      ensures r == result
    {
      r := result;
    }

    /** `await(timeout, unit)`: the bound is ignored; the result is already there. */
    method AwaitFor(timeout: int) returns (r: Result<V>)
      ensures r == result
    {
      r := result;
    }

    /** `peekResult()`: the constructor's result, cancelled or not. */
    method PeekResult() returns (r: Result<V>)
      ensures r == result
    {
      r := result;
    }

    /** `awaitValue()`: the value of a success, null for a failure. */
    method AwaitValue() returns (v: Option<V>)
      ensures v.Some? <==> result.Success?
      ensures result.Success? ==> v.value == result.value
    {
      var r := Await();
      v := r.GetValue();
    }

    /** `peekValue()`: the value of a success, null for a failure. */
    method PeekValue() returns (v: Option<V>)
      ensures v.Some? <==> result.Success?
      ensures result.Success? ==> v.value == result.value
    {
      v := result.GetValue();
    }

    method GetDefaultResultExecutor() returns (x: Option<Executor>)
      ensures x == defaultResultExecutor
    {
      x := defaultResultExecutor;
    }

    /**
     * `cancel()`: true only for the first call, which fires the registered
     * listener once (on its executor, else inline) and empties the slot;
     * every later call returns false and changes nothing.
     */
    method Cancel() returns (ok: bool, effects: seq<Event<V>>)
      requires Consistent()
      modifies this
      ensures Consistent()
      ensures Step(Snapshot(), Bool(ok), effects) == CancelStep(old(Snapshot()))
      ensures ok == !old(cancelled) && cancelled
      ensures !ok ==> (effects == [] && cancellationListener == old(cancellationListener) &&
                       cancellationListenerExecutor == old(cancellationListenerExecutor))
      ensures ok ==> cancellationListener.None? && cancellationListenerExecutor.None?
      ensures ok ==> effects == match old(cancellationListener)
                                case Some(l) => [DispatchTo(old(cancellationListenerExecutor), CancelTask(l))]
                                case None => []
    {
      var was := cancelled;
      cancelled := true;
      if was {
        return false, [];
      }
      effects := [];
      if cancellationListener.Some? {
        if cancellationListenerExecutor.Some? {
          effects := [Scheduled(cancellationListenerExecutor.value, CancelTask(cancellationListener.value))];
        } else {
          effects := [Inline(CancelTask(cancellationListener.value))];
        }
      }
      cancellationListener := None;
      cancellationListenerExecutor := None;
      ok := true;
    }

    /**
     * `onCancel(listener, executor)`: throws when a listener is already
     * registered, stores the listener on a live future, hands it to the
     * executor on a cancelled one, and drops it on a cancelled one without
     * an executor.
     */
    method OnCancelWithExecutor(listener: Runnable, executor: Option<Executor>)
      returns (thrown: Option<RuntimeException>, effects: seq<Event<V>>)
      requires Consistent()
      modifies this
      ensures Consistent()
      ensures Step(Snapshot(), if thrown.Some? then Threw(thrown.value) else ReturnedThis, effects)
           == OnCancelStep(old(Snapshot()), listener, executor)
      ensures thrown.Some? <==> old(cancellationListener).Some?
      ensures thrown.Some? ==> thrown.value == IllegalStateException(OnlyOneListenerMessage)
      ensures thrown.Some? || old(cancelled) ==> Snapshot() == old(Snapshot())
      ensures thrown.None? && !old(cancelled) ==>
        cancellationListener == Some(listener) && cancellationListenerExecutor == executor && effects == []
      ensures thrown.None? && old(cancelled) ==>
        effects == if executor.Some? then [Scheduled(executor.value, CancelTask(listener))] else []
    {
      if cancellationListener.Some? {
        return Some(IllegalStateException(OnlyOneListenerMessage)), [];
      }
      thrown, effects := None, [];
      var c := IsCancelled();
      if c {
        if executor.Some? {
          effects := [Scheduled(executor.value, CancelTask(listener))];
        } else {
          // As written: this guard is never true on a cancelled future.
          var ready := IsResultReady();
          if ready {
            effects := [Inline(CancelTask(listener))];
          }
        }
      } else {
        cancellationListener := Some(listener);
        cancellationListenerExecutor := executor;
      }
    }

    /** `onCancel(listener)`: the two-argument form with the default executor. */
    method OnCancel(listener: Runnable) returns (thrown: Option<RuntimeException>, effects: seq<Event<V>>)
      requires Consistent()
      modifies this
      ensures Consistent()
      ensures Step(Snapshot(), if thrown.Some? then Threw(thrown.value) else ReturnedThis, effects)
           == OnCancelStep(old(Snapshot()), listener, defaultResultExecutor)
    {
      thrown, effects := OnCancelWithExecutor(listener, defaultResultExecutor);
    }

    /**
     * `onResult(listener, executor)`: with an executor, exactly one hand-off
     * of the result and no `Inline` event (whether the executor then runs
     * the task on the calling thread, as the main-thread executor does when
     * called on the main thread, is not modelled); without one, inline
     * delivery if and only if the future is not cancelled, otherwise
     * nothing. The state is not changed.
     */
    method OnResultWithExecutor(listener: ResultListener, executor: Option<Executor>)
      returns (effects: seq<Event<V>>)
      ensures effects == OnResultEvents(Snapshot(), listener, executor)
      ensures executor.Some? ==> effects == [Scheduled(executor.value, ResultTask(listener, result))]
      ensures executor.Some? ==> InlineCalls(effects) == []
      ensures executor.None? && !cancelled ==> effects == [Inline(ResultTask(listener, result))]
      ensures executor.None? && cancelled ==> effects == []
    {
      if executor.Some? {
        effects := [Scheduled(executor.value, ResultTask(listener, result))];
      } else {
        var ready := IsResultReady();
        effects := if ready then [Inline(ResultTask(listener, result))] else [];
      }
    }

    /** `onResult(listener)`: the two-argument form with the default executor. */
    method OnResult(listener: ResultListener) returns (effects: seq<Event<V>>)
      ensures effects == OnResultEvents(Snapshot(), listener, defaultResultExecutor)
      ensures |effects| <= 1
    {
      effects := OnResultWithExecutor(listener, defaultResultExecutor);
    }

    /**
     * `onCompleted(listener, executor)`: the same delivery rule as
     * `onResult`; the listener is always told `false`.
     */
    method OnCompletedWithExecutor(listener: CompletionListener, executor: Option<Executor>)
      returns (effects: seq<Event<V>>)
      ensures effects == OnCompletedEvents(Snapshot(), listener, executor)
      ensures executor.Some? ==> effects == [Scheduled(executor.value, CompletedTask(listener))]
      ensures executor.Some? ==> InlineCalls(effects) == []
      ensures executor.None? && !cancelled ==> InlineCalls(effects) == [CompletionReceived(listener, false)]
      ensures executor.None? && cancelled ==> effects == []
    {
      if executor.Some? {
        effects := [Scheduled(executor.value, CompletedTask(listener))];
      } else {
        var ready := IsResultReady();
        effects := if ready then [Inline(CompletedTask(listener))] else [];
      }
    }

    /** `onCompleted(listener)`: the two-argument form with the default executor. */
    method OnCompleted(listener: CompletionListener) returns (effects: seq<Event<V>>)
      ensures effects == OnCompletedEvents(Snapshot(), listener, defaultResultExecutor)
      ensures |effects| <= 1
    {
      effects := OnCompletedWithExecutor(listener, defaultResultExecutor);
    }

    /**
     * `onSuccess(listener, executor)`: `onResult` with a success adapter.
     * Inline, the listener gets the value exactly when the future is live
     * and holds a success.
     */
    method OnSuccessWithExecutor(listener: ValueListener, executor: Option<Executor>)
      returns (effects: seq<Event<V>>)
      ensures effects == OnResultEvents(Snapshot(), SuccessAdapter(listener), executor)
      ensures executor.None? ==>
        InlineCalls(effects) == if !cancelled && result.Success? then [ValueReceived(listener, result.value)] else []
    {
      effects := OnResultWithExecutor(SuccessAdapter(listener), executor);
    }

    /** `onSuccess(listener)`: the two-argument form with the default executor. */
    method OnSuccess(listener: ValueListener) returns (effects: seq<Event<V>>)
      ensures effects == OnResultEvents(Snapshot(), SuccessAdapter(listener), defaultResultExecutor)
      ensures |effects| <= 1
    {
      effects := OnSuccessWithExecutor(listener, defaultResultExecutor);
    }

    /**
     * `onError(listener, executor)`: `onResult` with an error adapter.
     * Inline, the listener gets the exception exactly when the future is
     * live and holds a failure.
     */
    method OnErrorWithExecutor(listener: ExceptionListener, executor: Option<Executor>)
      returns (effects: seq<Event<V>>)
      ensures effects == OnResultEvents(Snapshot(), ErrorAdapter(listener), executor)
      ensures executor.None? ==>
        InlineCalls(effects) == if !cancelled && result.Failure? then [ExceptionReceived(listener, result.exception)] else []
    {
      effects := OnResultWithExecutor(ErrorAdapter(listener), executor);
    }

    /** `onError(listener)`: the two-argument form with the default executor. */
    method OnError(listener: ExceptionListener) returns (effects: seq<Event<V>>)
      ensures effects == OnResultEvents(Snapshot(), ErrorAdapter(listener), defaultResultExecutor)
      ensures |effects| <= 1
    {
      effects := OnErrorWithExecutor(listener, defaultResultExecutor);
    }
  }

  /** `ResultFutures.result(result, executor)`. */
  method ResultFuture<V>(result: Result<V>, defaultResultExecutor: Option<Executor>)
    returns (f: ImmediateResultFuture<V>)
    ensures fresh(f) && f.Consistent()
    ensures f.Snapshot() == Initial(result, defaultResultExecutor)
  {
    f := new ImmediateResultFuture(result, defaultResultExecutor);
  }

  /** `ResultFutures.result(result)`: on the main-thread executor. */
  method ResultFutureOnMainThread<V>(result: Result<V>) returns (f: ImmediateResultFuture<V>)
    ensures fresh(f) && f.Consistent()
    ensures f.Snapshot() == Initial(result, Some(MainThreadExecutor))
  {
    f := ResultFuture(result, Some(MainThreadExecutor));
  }

  /** `ResultFutures.success(value, executor)`. */
  method SuccessFuture<V>(value: V, defaultResultExecutor: Option<Executor>)
    returns (f: ImmediateResultFuture<V>)
    ensures fresh(f) && f.Consistent()
    ensures f.Snapshot() == Initial(Success(value), defaultResultExecutor)
  {
    f := ResultFuture(Success(value), defaultResultExecutor);
  }

  /** `ResultFutures.success(value)`: on the main-thread executor. */
  method SuccessFutureOnMainThread<V>(value: V) returns (f: ImmediateResultFuture<V>)
    ensures fresh(f) && f.Consistent()
    ensures f.Snapshot() == Initial(Success(value), Some(MainThreadExecutor))
  {
    f := SuccessFuture(value, Some(MainThreadExecutor));
  }

  /** `ResultFutures.failure(exception, executor)`. */
  method FailureFuture<V>(exception: Exception, defaultResultExecutor: Option<Executor>)
    returns (f: ImmediateResultFuture<V>)
    ensures fresh(f) && f.Consistent()
    ensures f.Snapshot() == Initial(Failure(exception), defaultResultExecutor)
  {
    f := ResultFuture(Failure(exception), defaultResultExecutor);
  }

  /** `ResultFutures.failure(exception)`: on the main-thread executor. */
  method FailureFutureOnMainThread<V>(exception: Exception) returns (f: ImmediateResultFuture<V>)
    ensures fresh(f) && f.Consistent()
    ensures f.Snapshot() == Initial(Failure(exception), Some(MainThreadExecutor))
  {
    f := FailureFuture(exception, Some(MainThreadExecutor));
  }
}
