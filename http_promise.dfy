/** The handler-deque promise of async-http-client (Promise.java).

    The promise is an abstract class over a Future supplied by its subclass. Here that
    future is abstract state (is it done, is it cancelled) which the subclass hooks
    handleResult and handleFailure may change: each hook call takes as a parameter the
    future state the hook leaves behind. The future's timed get is a parameter as well,
    a function from the timeout to what the get returns or throws. An unchecked
    exception from that get (the CancellationException of a cancelled future, say) is
    not caught by addCompletionHandler: it reaches the caller, no handler is called and
    nothing is queued; the trace records it as Escaped. */
module HttpPromise {
  import opened Lang

  /** The default bound, in milliseconds, for the timed get in addCompletionHandler. */
  const DEFAULT_TIMEOUT: int := 30000

  /** What the subclass's future reports through isDone() and isCancelled(). */
  datatype FutureStatus = FutureStatus(done: bool, cancelled: bool)

  /** What future.get(timeout, MILLISECONDS) does: return a value, throw an
      InterruptedException, ExecutionException or TimeoutException (Threw), or throw an
      unchecked exception such as CancellationException (Unchecked). */
  datatype GetOutcome<V> = Got(value: V) | Threw(error: Throwable) | Unchecked(error: Throwable)

  /** A call into a handler, or into one of the subclass hooks, or an exception that
      escaped addCompletionHandler(handler) to its caller. */
  datatype Event<V> =
    | Completed(handler: HandlerId, value: V)
    | Failed(handler: HandlerId, error: Throwable)
    | Cancelled(handler: HandlerId, force: bool)
    | HandleResult(value: V)
    | HandleFailure(error: Throwable)
    | Escaped(handler: HandlerId, error: Throwable)
  {
    predicate IsHandlerCall() { Completed? || Failed? || Cancelled? }
  }

  /** The trace entry of a done future with no stored value: the timed get's value
      goes to completed, a caught exception to failed, and an unchecked one escapes. */
  function TimedGetEvent<V>(h: HandlerId, o: GetOutcome<V>): (e: Event<V>)
    ensures (e.IsHandlerCall() || e.Escaped?) && e.handler == h && (e.Escaped? <==> o.Unchecked?)
    ensures o.Got? ==> e == Completed(h, o.value)
    ensures o.Threw? ==> e == Failed(h, o.error)
    ensures o.Unchecked? ==> e == Escaped(h, o.error)
  {
    match o
    case Got(v) => Completed(h, v)
    case Threw(t) => Failed(h, t)
    case Unchecked(t) => Escaped(h, t)
  }

  function CompletedAll<V>(hs: seq<HandlerId>, v: V): (es: seq<Event<V>>)
    ensures |es| == |hs|
    ensures forall i :: 0 <= i < |hs| ==> es[i] == Completed(hs[i], v)
  {
    if hs == [] then [] else CompletedAll(hs[..|hs| - 1], v) + [Completed(hs[|hs| - 1], v)]
  }

  function FailedAll<V>(hs: seq<HandlerId>, t: Throwable): (es: seq<Event<V>>)
    ensures |es| == |hs|
    ensures forall i :: 0 <= i < |hs| ==> es[i] == Failed(hs[i], t)
  {
    if hs == [] then [] else FailedAll(hs[..|hs| - 1], t) + [Failed(hs[|hs| - 1], t)]
  }

  /** What cancel reports and the promise afterwards. */
  datatype Cancellation<V> = Cancellation(accepted: bool, state: PromiseState<V>)

  datatype PromiseState<V> = PromiseState(
    completionHandlers: seq<HandlerId>,
    error: Option<Throwable>,
    timeout: int,
    obj: Option<V>,
    future: FutureStatus,
    trace: seq<Event<V>>)
  {
    /** Neither done, nor cancelled, nor failed: a new handler waits in the deque. */
    predicate Pending() { !future.done && !future.cancelled && error.None? }

    /** addCompletionHandler(h): on a done future, completed with the stored value, or
        with what the timed get returns (a caught exception from it becomes failed, an
        unchecked one escapes with no call made); on a cancelled one, cancelled(true);
        with a recorded error, failed(error); and otherwise h is appended to the deque
        and nothing is called. */
    function AddCompletionHandler(h: HandlerId, timedGet: int -> GetOutcome<V>): (s: PromiseState<V>)
      ensures s.error == error && s.timeout == timeout && s.obj == obj && s.future == future
      ensures Pending() <==> s.trace == trace
      ensures Pending() ==> s.completionHandlers == completionHandlers + [h]
      ensures !Pending() ==> (s.completionHandlers == completionHandlers && |s.trace| == |trace| + 1
        && s.trace[..|trace|] == trace
        && (s.trace[|trace|].IsHandlerCall() || s.trace[|trace|].Escaped?) && s.trace[|trace|].handler == h)
      ensures (!Pending() && s.trace[|trace|].Escaped?) <==> (future.done && obj.None? && timedGet(timeout).Unchecked?)
      ensures future.done && obj.Some? ==> s.trace == trace + [Completed(h, obj.value)]
      ensures future.done && obj.None? ==> s.trace == trace + [TimedGetEvent(h, timedGet(timeout))]
      ensures !future.done && future.cancelled ==> s.trace == trace + [Cancelled(h, true)]
      ensures !future.done && !future.cancelled && error.Some? ==> s.trace == trace + [Failed(h, error.value)]
    {
      if future.done then
        var call := if obj.Some? then Completed(h, obj.value) else TimedGetEvent(h, timedGet(timeout));
        this.(trace := trace + [call])
      else if future.cancelled then this.(trace := trace + [Cancelled(h, true)])
      else if error.Some? then this.(trace := trace + [Failed(h, error.value)])
      else this.(completionHandlers := completionHandlers + [h])
    }

    /** result(v): with handlers waiting, drains them and calls completed(v) on each in
        FIFO order, storing nothing and skipping the hook; with none, stores v and
        calls handleResult(v) once, which may change the future. */
    function Result(v: V, hookLeaves: FutureStatus): (s: PromiseState<V>)
      ensures s.error == error && s.timeout == timeout && s.completionHandlers == []
      ensures completionHandlers != [] ==>
        s.obj == obj && s.future == future && s.trace == trace + CompletedAll(completionHandlers, v)
      ensures completionHandlers == [] ==>
        s.obj == Some(v) && s.future == hookLeaves && s.trace == trace + [HandleResult(v)]
    {
      if completionHandlers != [] then
        this.(completionHandlers := [], trace := trace + CompletedAll(completionHandlers, v))
      else
        this.(obj := Some(v), future := hookLeaves, trace := trace + [HandleResult(v)])
    }

    /** failure(t): the mirror image of result, with failed(t), the error field and
        handleFailure. */
    function Failure(t: Throwable, hookLeaves: FutureStatus): (s: PromiseState<V>)
      ensures s.obj == obj && s.timeout == timeout && s.completionHandlers == []
      ensures completionHandlers != [] ==>
        s.error == error && s.future == future && s.trace == trace + FailedAll(completionHandlers, t)
      ensures completionHandlers == [] ==>
        s.error == Some(t) && s.future == hookLeaves && s.trace == trace + [HandleFailure(t)]
    {
      if completionHandlers != [] then
        this.(completionHandlers := [], trace := trace + FailedAll(completionHandlers, t))
      else
        this.(error := Some(t), future := hookLeaves, trace := trace + [HandleFailure(t)])
    }

    function SetTimeout(t: int): (s: PromiseState<V>)
      ensures s.timeout == t && s == this.(timeout := t)
    {
      this.(timeout := t)
    }

    /** cancel(force), delegated to the future. The future's class is not part of
        this model; it is taken to refuse when it has already completed or been
        cancelled, and otherwise to accept, becoming done and cancelled. No promise
        field and no handler is touched. */
    function Cancel(force: bool): (c: Cancellation<V>)
      ensures c.accepted <==> !future.done && !future.cancelled
      ensures c.state.future == if c.accepted then FutureStatus(true, true) else future
      ensures c.state.(future := future) == this
    {
      if future.done || future.cancelled then Cancellation(false, this)
      else Cancellation(true, this.(future := FutureStatus(true, true)))
    }
  }

  /** A fresh promise over a future in the given state. */
  function Init<V>(future: FutureStatus): (s: PromiseState<V>)
    ensures s.completionHandlers == [] && s.trace == [] && s.error.None? && s.obj.None?
    ensures s.timeout == DEFAULT_TIMEOUT && s.future == future
  {
    PromiseState([], None, DEFAULT_TIMEOUT, None, future, [])
  }

  // ---------------------------------------------------------------------------
  // Properties

  /** Handlers drained by a result are never called again: a second result finds the
      deque empty, stores its value and calls the hook instead. */
  lemma DrainedHandlersNotCalledTwice<V>(s: PromiseState<V>, v1: V, v2: V, f1: FutureStatus, f2: FutureStatus)
    requires s.completionHandlers != []
    ensures s.Result(v1, f1).Result(v2, f2).trace
      == s.trace + CompletedAll(s.completionHandlers, v1) + [HandleResult(v2)]
  {
  }

  /** A result that drains waiting handlers neither stores the value nor calls the
      hook, so the future is as it was: a handler added afterwards waits in the deque
      and is not called. */
  lemma LateHandlerWaitsAfterDrain<V>(s: PromiseState<V>, v: V, f: FutureStatus, h: HandlerId, get: int -> GetOutcome<V>)
    requires s.completionHandlers != [] && s.Pending()
    ensures var t := s.Result(v, f).AddCompletionHandler(h, get);
      t.completionHandlers == [h] && t.trace == s.Result(v, f).trace && t.obj == s.obj
  {
  }

  /** setTimeout(t) replaces the bound that the timed get receives. */
  lemma TimeoutReachesTimedGet<V>(s: PromiseState<V>, t: int, h: HandlerId, get: int -> GetOutcome<V>)
    requires s.future.done && s.obj.None?
    ensures s.SetTimeout(t).AddCompletionHandler(h, get).trace == s.trace + [TimedGetEvent(h, get(t))]
  {
  }

  /** cancel changes no promise field; and since a future cancelled through it is
      also done, a handler added afterwards takes the isDone branch and is never
      given cancelled(true). */
  lemma CancelledBranchNotReachedAfterCancel<V>(s: PromiseState<V>, force: bool, h: HandlerId, get: int -> GetOutcome<V>)
    requires s.Cancel(force).accepted
    ensures var c := s.Cancel(force).state;
      && c.completionHandlers == s.completionHandlers && c.obj == s.obj && c.error == s.error
      && c.timeout == s.timeout && c.trace == s.trace
      && c.AddCompletionHandler(h, get).trace[|s.trace|] != Cancelled(h, true)
  {
  }

  /** A future that keeps the contract of java.util.concurrent.Future reports done
      once it is cancelled; for such a future the isCancelled() branch of
      addCompletionHandler is never taken, and no handler is given cancelled(true). */
  lemma {:induction false} CancelledBranchUnreachable<V>(s: PromiseState<V>, h: HandlerId, get: int -> GetOutcome<V>)
    requires s.future.cancelled ==> s.future.done
    ensures s.AddCompletionHandler(h, get).trace[|s.trace|..] != [Cancelled(h, true)]
  {
    var t := s.AddCompletionHandler(h, get);
    if !s.Pending() {
      assert t.trace[|s.trace|..] == [t.trace[|s.trace|]];
      if s.future.done {
        assert t.trace[|s.trace|] == (if s.obj.Some? then Completed(h, s.obj.value) else TimedGetEvent(h, get(s.timeout)));
      }
    }
  }

  /** After a cancel that succeeds with no value stored, addCompletionHandler reaches
      the timed get; when that get throws its CancellationException, the exception
      reaches the caller, the handler is neither called nor queued, and nothing else
      changes. */
  lemma CancelledGetEscapes<V>(s: PromiseState<V>, force: bool, h: HandlerId, get: int -> GetOutcome<V>, t: Throwable)
    requires s.Cancel(force).accepted && s.obj.None? && get(s.timeout) == Unchecked(t)
    ensures var a := s.Cancel(force).state.AddCompletionHandler(h, get);
      a == s.(future := FutureStatus(true, true), trace := s.trace + [Escaped(h, t)])
  {
  }

  /** The calls a caller can make on the promise. */
  datatype Op<V> =
    | Add(handler: HandlerId, timedGet: int -> GetOutcome<V>)
    | ResultOp(value: V, hookLeaves: FutureStatus)
    | FailureOp(error: Throwable, hookLeaves: FutureStatus)
    | SetTimeoutOp(timeout: int)
    | CancelOp(force: bool)

  function Step<V>(s: PromiseState<V>, op: Op<V>): PromiseState<V>
  {
    match op
    case Add(h, get) => s.AddCompletionHandler(h, get)
    case ResultOp(v, f) => s.Result(v, f)
    case FailureOp(t, f) => s.Failure(t, f)
    case SetTimeoutOp(t) => s.SetTimeout(t)
    case CancelOp(b) => s.Cancel(b).state
  }

  function Run<V>(s: PromiseState<V>, ops: seq<Op<V>>): PromiseState<V>
    decreases |ops|
  {
    if ops == [] then s else Step(Run(s, ops[..|ops| - 1]), ops[|ops| - 1])
  }

  /** Every handler passed to addCompletionHandler, in order. */
  function Added<V>(ops: seq<Op<V>>): seq<HandlerId>
    decreases |ops|
  {
    if ops == [] then []
    else Added(ops[..|ops| - 1]) + (if ops[|ops| - 1].Add? then [ops[|ops| - 1].handler] else [])
  }

  /** How many times handler h was called (completed, failed or cancelled). */
  function CallCount<V>(es: seq<Event<V>>, h: HandlerId): nat
    decreases |es|
  {
    if es == [] then 0
    else CallCount(es[..|es| - 1], h) + (if es[|es| - 1].IsHandlerCall() && es[|es| - 1].handler == h then 1 else 0)
  }

  lemma {:induction false} CallCountAppend<V>(a: seq<Event<V>>, b: seq<Event<V>>, h: HandlerId)
    ensures CallCount(a + b, h) == CallCount(a, h) + CallCount(b, h)
    decreases |b|
  {
    if b == [] {
      assert a + b == a;
    } else {
      assert (a + b)[..|a + b| - 1] == a + b[..|b| - 1];
      CallCountAppend(a, b[..|b| - 1], h);
    }
  }

  /** How many registrations of handler h escaped with an unchecked exception. */
  function EscapeCount<V>(es: seq<Event<V>>, h: HandlerId): nat
    decreases |es|
  {
    if es == [] then 0
    else EscapeCount(es[..|es| - 1], h) + (if es[|es| - 1].Escaped? && es[|es| - 1].handler == h then 1 else 0)
  }

  lemma {:induction false} EscapeCountAppend<V>(a: seq<Event<V>>, b: seq<Event<V>>, h: HandlerId)
    ensures EscapeCount(a + b, h) == EscapeCount(a, h) + EscapeCount(b, h)
    decreases |b|
  {
    if b == [] {
      assert a + b == a;
    } else {
      assert (a + b)[..|a + b| - 1] == a + b[..|b| - 1];
      EscapeCountAppend(a, b[..|b| - 1], h);
    }
  }

  lemma {:induction false} CompletedAllCallCount<V>(hs: seq<HandlerId>, v: V, h: HandlerId)
    ensures CallCount(CompletedAll(hs, v), h) == Count(hs, h)
    ensures EscapeCount(CompletedAll(hs, v), h) == 0
    decreases |hs|
  {
    if hs != [] {
      assert CompletedAll(hs, v)[..|hs| - 1] == CompletedAll(hs[..|hs| - 1], v);
      CompletedAllCallCount(hs[..|hs| - 1], v, h);
    }
  }

  lemma {:induction false} FailedAllCallCount<V>(hs: seq<HandlerId>, t: Throwable, h: HandlerId)
    ensures CallCount(FailedAll<V>(hs, t), h) == Count(hs, h)
    ensures EscapeCount(FailedAll<V>(hs, t), h) == 0
    decreases |hs|
  {
    if hs != [] {
      assert FailedAll<V>(hs, t)[..|hs| - 1] == FailedAll<V>(hs[..|hs| - 1], t);
      FailedAllCallCount<V>(hs[..|hs| - 1], t, h);
    }
  }

  /** Calls received, registrations that escaped, and registrations still waiting. */
  ghost function Accounted<V>(s: PromiseState<V>, h: HandlerId): nat
  {
    CallCount(s.trace, h) + EscapeCount(s.trace, h) + Count(s.completionHandlers, h)
  }

  /** The balance an operation must keep for handler h: what is accounted for grows
      by one exactly when h is registered. */
  ghost predicate Balanced<V>(s: PromiseState<V>, t: PromiseState<V>, h: HandlerId, added: nat)
  {
    Accounted(t, h) == Accounted(s, h) + added
  }

  lemma AddKeepsBalance<V>(s: PromiseState<V>, x: HandlerId, get: int -> GetOutcome<V>, h: HandlerId)
    ensures Balanced(s, s.AddCompletionHandler(x, get), h, if x == h then 1 else 0)
  {
    var t := s.AddCompletionHandler(x, get);
    if s.Pending() {
      CountAppend(s.completionHandlers, [x], h);
    } else {
      assert t.trace == s.trace + [t.trace[|s.trace|]];
      CallCountAppend(s.trace, [t.trace[|s.trace|]], h);
      EscapeCountAppend(s.trace, [t.trace[|s.trace|]], h);
      assert [t.trace[|s.trace|]][..0] == [];
    }
  }

  lemma ResultKeepsBalance<V>(s: PromiseState<V>, v: V, f: FutureStatus, h: HandlerId)
    ensures Balanced(s, s.Result(v, f), h, 0)
  {
    if s.completionHandlers == [] {
      CallCountAppend(s.trace, [HandleResult(v)], h);
      EscapeCountAppend(s.trace, [HandleResult(v)], h);
    } else {
      CallCountAppend(s.trace, CompletedAll(s.completionHandlers, v), h);
      EscapeCountAppend(s.trace, CompletedAll(s.completionHandlers, v), h);
      CompletedAllCallCount(s.completionHandlers, v, h);
    }
  }

  lemma FailureKeepsBalance<V>(s: PromiseState<V>, e: Throwable, f: FutureStatus, h: HandlerId)
    ensures Balanced(s, s.Failure(e, f), h, 0)
  {
    if s.completionHandlers == [] {
      CallCountAppend<V>(s.trace, [HandleFailure(e)], h);
      EscapeCountAppend<V>(s.trace, [HandleFailure(e)], h);
    } else {
      CallCountAppend(s.trace, FailedAll<V>(s.completionHandlers, e), h);
      EscapeCountAppend(s.trace, FailedAll<V>(s.completionHandlers, e), h);
      FailedAllCallCount<V>(s.completionHandlers, e, h);
    }
  }

  lemma StepKeepsBalance<V>(s: PromiseState<V>, op: Op<V>, h: HandlerId)
    ensures Balanced(s, Step(s, op), h, if op.Add? && op.handler == h then 1 else 0)
  {
    match op
    case Add(x, get) => AddKeepsBalance(s, x, get, h);
    case ResultOp(v, f) => ResultKeepsBalance(s, v, f, h);
    case FailureOp(e, f) => FailureKeepsBalance(s, e, f, h);
    case SetTimeoutOp(_) =>
    case CancelOp(_) =>
  }

  /** Nothing is lost or duplicated: after any sequential run from a fresh promise,
      every registration of a handler has either received exactly one call, or ended
      in an unchecked exception from the timed get that reached the caller (the
      CancellationException after a cancel), or is still waiting in the deque; and
      nothing else calls a handler. */
  lemma {:induction false} EveryRegistrationAnsweredOnce<V>(future: FutureStatus, ops: seq<Op<V>>, h: HandlerId)
    ensures var s := Run(Init<V>(future), ops);
      CallCount(s.trace, h) + EscapeCount(s.trace, h) + Count(s.completionHandlers, h) == Count(Added(ops), h)
    decreases |ops|
  {
    if ops != [] {
      var pre := ops[..|ops| - 1];
      EveryRegistrationAnsweredOnce(future, pre, h);
      StepKeepsBalance(Run(Init<V>(future), pre), ops[|ops| - 1], h);
      CountAppend(Added(pre), if ops[|ops| - 1].Add? then [ops[|ops| - 1].handler] else [], h);
    }
  }

  // ---------------------------------------------------------------------------

  /** Promise.java: `future` stands for the state of getFuture(); `trace` records the
      calls into handlers and hooks. */
  class Promise<V> {
    var completionHandlers: seq<HandlerId>
    var error: Option<Throwable>
    var timeout: int
    var obj: Option<V>
    var future: FutureStatus
    var trace: seq<Event<V>>

    function Model(): PromiseState<V>
      reads this
    {
      PromiseState(completionHandlers, error, timeout, obj, future, trace)
    }

    /** A subclass instance whose future starts in the given state. */
    constructor (initial: FutureStatus)
      ensures Model() == Init(initial)
    {
      completionHandlers, error, timeout, obj, future, trace := [], None, DEFAULT_TIMEOUT, None, initial, [];
    }

    method GetCompletionHandlers() returns (hs: seq<HandlerId>)
      ensures hs == Model().completionHandlers
    {
      hs := completionHandlers;
    }

    method SetTimeout(t: int)
      modifies this
      ensures Model() == old(Model()).SetTimeout(t)
    {
      timeout := t;
    }

    method AddCompletionHandler(h: HandlerId, timedGet: int -> GetOutcome<V>)
      modifies this
      ensures Model() == old(Model()).AddCompletionHandler(h, timedGet)
    {
      if future.done {
        if obj.Some? {
          trace := trace + [Completed(h, obj.value)];
        } else {
          match timedGet(timeout)
          case Got(v) => trace := trace + [Completed(h, v)];
          case Threw(e) => trace := trace + [Failed(h, e)];
          case Unchecked(e) => trace := trace + [Escaped(h, e)];
        }
      } else if future.cancelled {
        trace := trace + [Cancelled(h, true)];
      } else if error.Some? {
        trace := trace + [Failed(h, error.value)];
      } else {
        completionHandlers := completionHandlers + [h];
      }
    }

    method Result(v: V, hookLeaves: FutureStatus)
      modifies this
      ensures Model() == old(Model()).Result(v, hookLeaves)
    {
      if completionHandlers != [] {
        var handlers := completionHandlers;
        completionHandlers := [];
        for i := 0 to |handlers|
          invariant completionHandlers == [] && handlers == old(completionHandlers)
          invariant error == old(error) && timeout == old(timeout) && obj == old(obj) && future == old(future)
          invariant trace == old(trace) + CompletedAll(handlers[..i], v)
        {
          trace := trace + [Completed(handlers[i], v)];
          assert handlers[..i + 1][..i] == handlers[..i];
        }
        assert handlers[..|handlers|] == handlers;
      } else {
        obj := Some(v);
        future := hookLeaves;
        trace := trace + [HandleResult(v)];
      }
    }

    method Failure(t: Throwable, hookLeaves: FutureStatus)
      modifies this
      ensures Model() == old(Model()).Failure(t, hookLeaves)
    {
      if completionHandlers != [] {
        var handlers := completionHandlers;
        completionHandlers := [];
        for i := 0 to |handlers|
          invariant completionHandlers == [] && handlers == old(completionHandlers)
          invariant error == old(error) && timeout == old(timeout) && obj == old(obj) && future == old(future)
          invariant trace == old(trace) + FailedAll(handlers[..i], t)
        {
          trace := trace + [Failed(handlers[i], t)];
          assert handlers[..i + 1][..i] == handlers[..i];
        }
        assert handlers[..|handlers|] == handlers;
      } else {
        error := Some(t);
        future := hookLeaves;
        trace := trace + [HandleFailure(t)];
      }
    }

    method Cancel(force: bool) returns (accepted: bool)
      modifies this
      ensures old(Model()).Cancel(force) == Cancellation(accepted, Model())
    {
      if future.done || future.cancelled {
        return false;
      }
      future := FutureStatus(true, true);
      return true;
    }

    method IsCancelled() returns (b: bool)
      ensures b == Model().future.cancelled
    {
      b := future.cancelled;
    }

    method IsDone() returns (b: bool)
      ensures b == Model().future.done
    {
      b := future.done;
    }
  }
}
