/**
 * The listener kinds a future delivers to, and the two adapters that turn a
 * value-only or an exception-only callback into a full result listener.
 * User listeners are opaque objects: the model records which of their
 * callbacks is invoked and with what argument.
 */
module Listeners {
  import opened Optional
  import opened Results

  /** A `Runnable` registered with `onCancel`. */
  datatype Runnable = Runnable(id: nat)
  /** A `ValueListener` given to `onSuccess`. */
  datatype ValueListener = ValueListener(id: nat)
  /** An `ExceptionListener` given to `onError`. */
  datatype ExceptionListener = ExceptionListener(id: nat)
  /** A `CompletionListener` given to `onCompleted`. */
  datatype CompletionListener = CompletionListener(id: nat)

  /** One invocation of user code. */
  datatype Callback<V> =
    | CancellationRun(runnable: Runnable)
    | ResultReceived(listenerId: nat, result: Result<V>)
    | ValueReceived(valueListener: ValueListener, value: V)
    | ExceptionReceived(exceptionListener: ExceptionListener, exception: Exception)
    | CompletionReceived(completionListener: CompletionListener, cancelled: bool)

  /**
   * A `ResultListener`: either one supplied by the caller of `onResult`, or
   * one of the adapters built by `successAdapter` / `errorAdapter`
   * (`SuccessAdapter(l)` and `ErrorAdapter(l)` are those factories).
   */
  datatype ResultListener =
    | UserListener(id: nat)
    | SuccessAdapter(valueListener: ValueListener)
    | ErrorAdapter(exceptionListener: ExceptionListener)
  {
    /** What `onResult(result)` on this listener invokes. */
    function OnResult<V>(result: Result<V>): (calls: seq<Callback<V>>)
      ensures UserListener? ==> calls == [ResultReceived(id, result)]
      ensures SuccessAdapter? ==> (calls != [] <==> result.Success?)
      ensures SuccessAdapter? && result.Success? ==> calls == [ValueReceived(valueListener, result.value)]
      ensures ErrorAdapter? ==> (calls != [] <==> result.GetException().Some?)
      ensures ErrorAdapter? && result.Failure? ==> calls == [ExceptionReceived(exceptionListener, result.exception)]
    {
      match this
      case UserListener(id) => [ResultReceived(id, result)]
      case SuccessAdapter(l) =>
        if result.Success? then [ValueReceived(l, result.GetValue().value)] else []
      case ErrorAdapter(l) =>
        var ex := result.GetException();
        if ex.Some? then [ExceptionReceived(l, ex.value)] else []
    }
  }

  /**
   * For every result, exactly one of a success adapter and an error adapter
   * invokes its inner listener, and it invokes it exactly once.
   */
  lemma AdaptersPartition<V>(vl: ValueListener, el: ExceptionListener, r: Result<V>)
    ensures |SuccessAdapter(vl).OnResult(r)| + |ErrorAdapter(el).OnResult(r)| == 1
    ensures SuccessAdapter(vl).OnResult(r) == [] <==> ErrorAdapter(el).OnResult(r) != []
  {
  }
}
