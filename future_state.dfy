/**
 * The state machine of an immediately-resolved future, as pure functions.
 * A future is built already holding its result; what can still change is
 * the `cancelled` flag and the single cancellation-listener slot (a listener
 * and the executor it should run on). Every operation returns the new
 * state, what the Java method returns, and the dispatch decisions it took.
 * The locking and atomics of the source are read as one sequential step
 * per call.
 */
module FutureState {
  import opened Optional
  import opened Results
  import opened Listeners
  import opened Dispatch

  datatype State<V> = State(
    result: Result<V>,
    defaultExecutor: Option<Executor>,
    cancelled: bool,
    listener: Option<Runnable>,
    listenerExecutor: Option<Executor>)

  /** What a Java call hands back to its caller. */
  datatype Reply = Bool(b: bool) | ReturnedThis | Threw(exception: RuntimeException)

  datatype RuntimeException = IllegalStateException(message: string)

  const OnlyOneListenerMessage := "Only one cancellation listener is supported"

  /** A call on the future: its new state, its reply and its dispatches. */
  datatype Step<V> = Step(state: State<V>, reply: Reply, events: seq<Event<V>>)

  /** The future as the constructor leaves it. */
  function Initial<V>(result: Result<V>, defaultExecutor: Option<Executor>): (s: State<V>)
    ensures Valid(s) && !s.cancelled && s.listener.None?
    ensures s.result == result && s.defaultExecutor == defaultExecutor
  {
    State(result, defaultExecutor, false, None, None)
  }

  /**
   * The invariant every operation keeps: a cancelled future holds no
   * listener, and an empty slot holds no executor either.
   */
  predicate Valid<V>(s: State<V>) {
    (s.cancelled ==> s.listener.None?) && (s.listener.None? ==> s.listenerExecutor.None?)
  }

  /** `isResultReady()`: the result is there from the start, so only cancellation hides it. */
  function IsResultReady<V>(s: State<V>): (ready: bool)
    ensures ready <==> !s.cancelled
  {
    !s.cancelled
  }

  /**
   * `cancel()`: only the first call wins. It fires the registered listener
   * once, on its executor or else inline, and empties the slot.
   */
  function CancelStep<V>(s: State<V>): (o: Step<V>)
    ensures o.reply == Bool(!s.cancelled)
    ensures o.state.cancelled
    ensures o.state.result == s.result && o.state.defaultExecutor == s.defaultExecutor
    ensures s.cancelled ==> o.state == s && o.events == []
    ensures !s.cancelled ==> o.state.listener.None? && o.state.listenerExecutor.None?
    ensures !s.cancelled && s.listener.None? ==> o.events == []
    ensures !s.cancelled && s.listener.Some? ==>
      |o.events| == 1 && o.events[0].task == CancelTask(s.listener.value) &&
      (o.events[0].Scheduled? <==> s.listenerExecutor.Some?) &&
      (o.events[0].Scheduled? ==> o.events[0].executor == s.listenerExecutor.value)
  {
    if s.cancelled then
      Step(s, Bool(false), [])
    else
      var fired := match s.listener
        case Some(l) => [DispatchTo(s.listenerExecutor, CancelTask(l))]
        case None => [];
      Step(s.(cancelled := true, listener := None, listenerExecutor := None), Bool(true), fired)
  }

  /**
   * `onCancel(listener, executor)`. An occupied slot is an error that
   * changes nothing. A live future stores the listener and runs nothing.
   * A cancelled future hands it to the executor if there is one; with no
   * executor the inline branch is guarded by `isResultReady()`, which is
   * false once cancelled, so the listener is dropped.
   */
  function OnCancelStep<V>(s: State<V>, listener: Runnable, executor: Option<Executor>): (o: Step<V>)
    ensures s.listener.Some? ==>
      o.state == s && o.events == [] && o.reply == Threw(IllegalStateException(OnlyOneListenerMessage))
    ensures s.listener.None? ==> o.reply == ReturnedThis
    ensures s.listener.None? && !s.cancelled ==>
      o.events == [] && o.state == s.(listener := Some(listener), listenerExecutor := executor)
    ensures s.listener.None? && s.cancelled ==> o.state == s
    ensures s.listener.None? && s.cancelled && executor.Some? ==>
      o.events == [Scheduled(executor.value, CancelTask(listener))]
    ensures s.listener.None? && s.cancelled && executor.None? ==> o.events == []
  {
    if s.listener.Some? then
      Step(s, Threw(IllegalStateException(OnlyOneListenerMessage)), [])
    else if s.cancelled then
      if executor.Some? then Step(s, ReturnedThis, [Scheduled(executor.value, CancelTask(listener))])
      else if IsResultReady(s) then Step(s, ReturnedThis, [Inline(CancelTask(listener))])
      else Step(s, ReturnedThis, [])
    else
      Step(s.(listener := Some(listener), listenerExecutor := executor), ReturnedThis, [])
  }

  /**
   * The delivery rule shared by `onResult` and `onCompleted`: with an
   * executor, always exactly one hand-off; without one, inline if and only
   * if the future is not cancelled, otherwise nothing.
   */
  function Deliver<V>(s: State<V>, executor: Option<Executor>, task: Task<V>): (events: seq<Event<V>>)
    ensures executor.Some? ==> events == [Scheduled(executor.value, task)]
    ensures executor.None? ==> (events != [] <==> !s.cancelled)
    ensures executor.None? && !s.cancelled ==> events == [Inline(task)]
  {
    if executor.Some? then [Scheduled(executor.value, task)]
    else if IsResultReady(s) then [Inline(task)]
    else []
  }

  /** `onResult(listener, executor)`: delivers the future's own result; the state is untouched. */
  function OnResultEvents<V>(s: State<V>, listener: ResultListener, executor: Option<Executor>): (events: seq<Event<V>>)
    ensures |events| <= 1
    ensures forall e :: e in events ==> e.task == ResultTask(listener, s.result)
    ensures executor.Some? ==> events == [Scheduled(executor.value, ResultTask(listener, s.result))]
    ensures executor.None? ==> (events == [Inline(ResultTask(listener, s.result))] <==> !s.cancelled)
    ensures executor.None? && s.cancelled ==> events == []
  {
    Deliver(s, executor, ResultTask(listener, s.result))
  }

  /** `onCompleted(listener, executor)`: the listener is told `false` whichever way it runs. */
  function OnCompletedEvents<V>(s: State<V>, listener: CompletionListener, executor: Option<Executor>): (events: seq<Event<V>>)
    ensures |events| <= 1
    ensures forall e :: e in events ==> e.task.Run() == [CompletionReceived(listener, false)]
    ensures executor.Some? ==> events == [Scheduled(executor.value, CompletedTask(listener))]
    ensures executor.None? ==> (events == [Inline(CompletedTask(listener))] <==> !s.cancelled)
    ensures executor.None? && s.cancelled ==> events == []
  {
    Deliver(s, executor, CompletedTask(listener))
  }

  /** A call on the future, with the executor each Java overload ends up using. */
  datatype Op =
    | Cancel
    | OnCancel(runnable: Runnable, executor: Option<Executor>)
    | OnResult(listener: ResultListener, executor: Option<Executor>)
    | OnCompleted(completionListener: CompletionListener, executor: Option<Executor>)

  function Apply<V>(s: State<V>, op: Op): (o: Step<V>)
    ensures o.state.result == s.result && o.state.defaultExecutor == s.defaultExecutor
    ensures o.state.cancelled == (s.cancelled || op.Cancel?)
    ensures Valid(s) ==> Valid(o.state)
    ensures !op.Cancel? && !op.OnCancel? ==> o.state == s && o.reply == ReturnedThis
  {
    match op
    case Cancel => CancelStep(s)
    case OnCancel(l, x) => OnCancelStep(s, l, x)
    case OnResult(l, x) => Step(s, ReturnedThis, OnResultEvents(s, l, x))
    case OnCompleted(l, x) => Step(s, ReturnedThis, OnCompletedEvents(s, l, x))
  }

  /** The state after performing `ops` in order. */
  function Final<V>(s: State<V>, ops: seq<Op>): (t: State<V>)
    decreases |ops|
  {
    if ops == [] then s else Final(Apply(s, ops[0]).state, ops[1..])
  }

  /** How many `cancel()` calls among `ops` return true. */
  function CancelWins<V>(s: State<V>, ops: seq<Op>): (wins: nat)
    decreases |ops|
  {
    if ops == [] then 0
    else
      var o := Apply(s, ops[0]);
      (if ops[0].Cancel? && o.reply == Bool(true) then 1 else 0) + CancelWins(o.state, ops[1..])
  }

  /** The dispatches made by the `cancel()` calls among `ops`, in order. */
  function CancelDispatches<V>(s: State<V>, ops: seq<Op>): (fired: seq<Event<V>>)
    decreases |ops|
  {
    if ops == [] then []
    else
      var o := Apply(s, ops[0]);
      (if ops[0].Cancel? then o.events else []) + CancelDispatches(o.state, ops[1..])
  }

  /** Every dispatch made by the calls `ops`, in order. */
  function AllDispatches<V>(s: State<V>, ops: seq<Op>): (events: seq<Event<V>>)
    decreases |ops|
  {
    if ops == [] then [] else
      var o := Apply(s, ops[0]);
      o.events + AllDispatches(o.state, ops[1..])
  }

  /** The dispatches of two call sequences run one after the other. */
  lemma {:induction false} AllDispatchesSplit<V>(s: State<V>, a: seq<Op>, b: seq<Op>)
    ensures AllDispatches(s, a + b) == AllDispatches(s, a) + AllDispatches(Final(s, a), b)
    decreases |a|
  {
    if a == [] {
      assert a + b == b;
    } else {
      assert (a + b)[0] == a[0] && (a + b)[1..] == a[1..] + b;
      AllDispatchesSplit(Apply(s, a[0]).state, a[1..], b);
    }
  }

  /**
   * On a cancelled future every later dispatch is a hand-off to an
   * executor: each inline branch is guarded by `isResultReady()`.
   */
  lemma {:induction false} CancelledOnlySchedules<V>(s: State<V>, ops: seq<Op>)
    requires s.cancelled
    ensures forall i :: 0 <= i < |AllDispatches(s, ops)| ==> AllDispatches(s, ops)[i].Scheduled?
    decreases |ops|
  {
    if ops != [] {
      var o := Apply(s, ops[0]);
      CancelledOnlySchedules(o.state, ops[1..]);
      assert forall i :: 0 <= i < |o.events| ==> o.events[i].Scheduled?;
    }
  }

  /**
   * Once some call has cancelled the future, no later call runs listener
   * code inline: the inline calls of the whole sequence are those made up
   * to and including the cancelling calls.
   */
  lemma {:induction false} NothingInlineAfterCancel<V>(s: State<V>, a: seq<Op>, b: seq<Op>)
    requires Cancel in a
    ensures InlineCalls(AllDispatches(s, a + b)) == InlineCalls(AllDispatches(s, a))
  {
    AllDispatchesSplit(s, a, b);
    FinalState(s, a);
    CancelledOnlySchedules(Final(s, a), b);
    InlineCallsAppend(AllDispatches(s, a), AllDispatches(Final(s, a), b));
  }

  /**
   * Whatever is done to the future, its result and default executor never
   * change, it is cancelled exactly when it was or some call cancelled it,
   * and the invariant holds throughout.
   */
  lemma {:induction false} FinalState<V>(s: State<V>, ops: seq<Op>)
    ensures Final(s, ops).result == s.result
    ensures Final(s, ops).defaultExecutor == s.defaultExecutor
    ensures Final(s, ops).cancelled <==> s.cancelled || Cancel in ops
    ensures Valid(s) ==> Valid(Final(s, ops))
    decreases |ops|
  {
    if ops != [] {
      FinalState(Apply(s, ops[0]).state, ops[1..]);
      assert ops == [ops[0]] + ops[1..];
    }
  }

  /** Once cancelled, no later `cancel()` returns true or fires anything. */
  lemma {:induction false} CancelledIsTerminal<V>(s: State<V>, ops: seq<Op>)
    requires s.cancelled
    ensures CancelWins(s, ops) == 0
    ensures CancelDispatches(s, ops) == []
    decreases |ops|
  {
    if ops != [] {
      CancelledIsTerminal(Apply(s, ops[0]).state, ops[1..]);
    }
  }

  /** `cancel()` returns true once over the life of a future, on the first call, and never after. */
  lemma {:induction false} CancelWinsOnce<V>(s: State<V>, ops: seq<Op>)
    ensures CancelWins(s, ops) == if !s.cancelled && Cancel in ops then 1 else 0
    decreases |ops|
  {
    if ops != [] {
      var o := Apply(s, ops[0]);
      assert ops == [ops[0]] + ops[1..];
      if s.cancelled || ops[0].Cancel? {
        CancelledIsTerminal(o.state, ops[1..]);
      } else {
        CancelWinsOnce(o.state, ops[1..]);
      }
    }
  }

  /**
   * A listener sitting in the slot of a live future is dispatched exactly
   * once if the future is ever cancelled, on the executor it was registered
   * with or else inline, and never otherwise; until then the slot and the
   * state stay as they are.
   */
  lemma {:induction false} RegisteredListenerFiresOnce<V>(s: State<V>, ops: seq<Op>)
    requires !s.cancelled && s.listener.Some?
    ensures CancelDispatches(s, ops) ==
      if Cancel in ops then [DispatchTo(s.listenerExecutor, CancelTask(s.listener.value))] else []
    ensures Cancel !in ops ==> Final(s, ops) == s
    decreases |ops|
  {
    if ops != [] {
      var o := Apply(s, ops[0]);
      assert ops == [ops[0]] + ops[1..];
      if ops[0].Cancel? {
        CancelledIsTerminal(o.state, ops[1..]);
      } else {
        assert o.state == s;
        RegisteredListenerFiresOnce(s, ops[1..]);
      }
    }
  }

  /** However the calls are interleaved, `cancel()` dispatches at most one listener in all. */
  lemma {:induction false} CancelFiresAtMostOnce<V>(s: State<V>, ops: seq<Op>)
    ensures |CancelDispatches(s, ops)| <= 1
    decreases |ops|
  {
    if ops != [] {
      var o := Apply(s, ops[0]);
      if s.cancelled {
        CancelledIsTerminal(s, ops);
      } else if ops[0].Cancel? {
        CancelledIsTerminal(o.state, ops[1..]);
      } else if s.listener.Some? {
        RegisteredListenerFiresOnce(s, ops);
      } else {
        CancelFiresAtMostOnce(o.state, ops[1..]);
      }
    }
  }

  /**
   * A second `onCancel` is refused and leaves the first registration in
   * charge: the later `cancel()` fires the first listener only.
   */
  lemma SecondListenerRejected<V>(result: Result<V>, d: Option<Executor>,
                                  first: Runnable, x1: Option<Executor>,
                                  second: Runnable, x2: Option<Executor>)
    ensures var s0 := Initial(result, d);
            var s1 := OnCancelStep(s0, first, x1).state;
            var o2 := OnCancelStep(s1, second, x2);
            o2.reply == Threw(IllegalStateException(OnlyOneListenerMessage)) &&
            o2.state == s1 &&
            CancelStep(o2.state).events == [DispatchTo(x1, CancelTask(first))]
  {
  }
}
