/**
 * Executors and the record of what a future does with a listener: run it
 * inline on the calling thread, or hand it to an executor.
 */
module Dispatch {
  import opened Optional
  import opened Results
  import opened Listeners

  /**
   * An `Executor`, known only by its identity. `MainThreadExecutor` is the
   * process-wide instance that the one-argument factories use.
   */
  datatype Executor = MainThreadExecutor | OtherExecutor(id: nat)

  /** A unit of work built by the future around a listener. */
  datatype Task<V> =
    | CancelTask(runnable: Runnable)
    | ResultTask(listener: ResultListener, result: Result<V>)
    | CompletedTask(completionListener: CompletionListener)
  {
    /**
     * What running this `Task` on the calling thread invokes: the meaning of
     * an `Inline` event, and the only way `InlineCalls` uses it. A
     * `ResultTask` handed to an executor is the source's `OnResultRunnable`,
     * which is also given the `cancelled` flag and whose own `run` is not
     * part of this model, so `Run` says nothing about what a `Scheduled`
     * result delivery eventually invokes.
     */
    function Run(): (calls: seq<Callback<V>>)
      ensures CancelTask? ==> calls == [CancellationRun(runnable)]
      ensures CompletedTask? ==> calls == [CompletionReceived(completionListener, false)]
      ensures ResultTask? ==> calls == listener.OnResult(result)
    {
      match this
      case CancelTask(r) => [CancellationRun(r)]
      case ResultTask(l, res) => l.OnResult(res)
      case CompletedTask(l) => [CompletionReceived(l, false)]
    }
  }

  /** One dispatch decision. */
  datatype Event<V> = Inline(task: Task<V>) | Scheduled(executor: Executor, task: Task<V>)

  /** Hand `task` to `executor` when there is one, otherwise run it inline. */
  function DispatchTo<V>(executor: Option<Executor>, task: Task<V>): (e: Event<V>)
    ensures e.task == task
    ensures e.Scheduled? <==> executor.Some?
    ensures e.Scheduled? ==> e.executor == executor.value
  {
    match executor
    case Some(x) => Scheduled(x, task)
    case None => Inline(task)
  }

  /** The user callbacks that the inline events of `events` invoke, in order. */
  function InlineCalls<V>(events: seq<Event<V>>): (calls: seq<Callback<V>>)
    ensures (forall i :: 0 <= i < |events| ==> events[i].Scheduled?) ==> calls == []
    decreases |events|
  {
    if events == [] then []
    else (if events[0].Inline? then events[0].task.Run() else []) + InlineCalls(events[1..])
  }

  /** The inline calls of two batches of dispatches, one after the other, are those of each batch in turn. */
  lemma {:induction false} InlineCallsAppend<V>(a: seq<Event<V>>, b: seq<Event<V>>)
    ensures InlineCalls(a + b) == InlineCalls(a) + InlineCalls(b)
    decreases |a|
  {
    if a == [] {
      assert a + b == b;
    } else {
      assert (a + b)[0] == a[0] && (a + b)[1..] == a[1..] + b;
      InlineCallsAppend(a[1..], b);
    }
  }
}
