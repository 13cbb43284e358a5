/** The single-slot promise of async-api-tests (Promise.java).

    The promise keeps a result queue that holds at most one value, an attachment, and
    the list of handlers registered before the result. Handlers are objects outside the
    model; every call into one of them is appended to the promise's event trace, so
    "exactly once", "in registration order" and "nothing else happens" can be stated. */
module ApiPromise {
  import opened Lang

  /** A call into a handler: completed(result, attachment) or failed(t, attachment). */
  datatype Event<T, A> =
    | Completed(handler: HandlerId, result: T, attachment: Option<A>)
    | Failed(handler: HandlerId, error: Throwable, attachment: Option<A>)

  /** completed(r, a) on each handler of `hs`, in order. */
  function CompletedAll<T, A>(hs: seq<HandlerId>, r: T, a: Option<A>): (es: seq<Event<T, A>>)
    ensures |es| == |hs|
    ensures forall i :: 0 <= i < |hs| ==> es[i] == Completed(hs[i], r, a)
  {
    if hs == [] then [] else CompletedAll(hs[..|hs| - 1], r, a) + [Completed(hs[|hs| - 1], r, a)]
  }

  /** failed(t, a) on each handler of `hs`, in order. */
  function FailedAll<T, A>(hs: seq<HandlerId>, t: Throwable, a: Option<A>): (es: seq<Event<T, A>>)
    ensures |es| == |hs|
    ensures forall i :: 0 <= i < |hs| ==> es[i] == Failed(hs[i], t, a)
  {
    if hs == [] then [] else FailedAll(hs[..|hs| - 1], t, a) + [Failed(hs[|hs| - 1], t, a)]
  }

  /** What setResult reports and the promise afterwards. */
  datatype Resolution<T, A> = Resolution(accepted: bool, state: PromiseState<T, A>)

  datatype PromiseState<T, A> = PromiseState(
    resultQueue: seq<T>,
    attachment: Option<A>,
    handlers: seq<HandlerId>,
    trace: seq<Event<T, A>>)
  {
    predicate Valid() { |resultQueue| <= 1 }

    predicate HasResult() { resultQueue != [] }

    /** complete(handlers...): each handler is queued while there is no result, and
        called at once with the stored result and the current attachment otherwise. */
    function Complete(hs: seq<HandlerId>): (s: PromiseState<T, A>)
      requires Valid()
      ensures s.Valid() && s.resultQueue == resultQueue && s.attachment == attachment
      ensures !HasResult() ==> s.handlers == handlers + hs && s.trace == trace
      ensures HasResult() ==>
        s.handlers == handlers && s.trace == trace + CompletedAll(hs, resultQueue[0], attachment)
    {
      if resultQueue == [] then this.(handlers := handlers + hs)
      else this.(trace := trace + CompletedAll(hs, resultQueue[0], attachment))
    }

    /** setResult(r): accepted only when no result is stored; then every registered
        handler gets completed(r, attachment) in registration order. The handler list
        is kept. A refused call changes nothing. */
    function SetResult(r: T): (res: Resolution<T, A>)
      requires Valid()
      ensures res.state.Valid()
      ensures res.accepted <==> !HasResult()
      ensures res.accepted ==> res.state == this.(resultQueue := [r],
                                                  trace := trace + CompletedAll(handlers, r, attachment))
      ensures !res.accepted ==> res.state == this
    {
      if |resultQueue| == 0 then
        Resolution(true, this.(resultQueue := [r] + resultQueue,
                               trace := trace + CompletedAll(handlers, r, attachment)))
      else
        Resolution(false, this)
    }

    /** setFailure(t): every registered handler gets failed(t, attachment) in order;
        nothing is recorded, so the list stays and a later failure notifies again. */
    function SetFailure(t: Throwable): (s: PromiseState<T, A>)
      requires Valid()
      ensures s.Valid() && s.resultQueue == resultQueue && s.handlers == handlers
      ensures s.attachment == attachment
      ensures s.trace == trace + FailedAll(handlers, t, attachment)
    {
      this.(trace := trace + FailedAll(handlers, t, attachment))
    }

    function SetAttachment(a: Option<A>): (s: PromiseState<T, A>)
      requires Valid()
      ensures s.Valid() && s.attachment == a
      ensures s.resultQueue == resultQueue && s.handlers == handlers && s.trace == trace
    {
      this.(attachment := a)
    }
  }

  /** new Promise() (attachment None) and new Promise(attachment). */
  function Init<T, A>(a: Option<A>): (s: PromiseState<T, A>)
    ensures s.Valid() && !s.HasResult() && s.handlers == [] && s.trace == [] && s.attachment == a
  {
    PromiseState([], a, [], [])
  }

  // ---------------------------------------------------------------------------
  // Sequential runs

  datatype Op<T, A> =
    | Register(hs: seq<HandlerId>)
    | Resolve(result: T)
    | Fail(error: Throwable)
    | Attach(attachment: Option<A>)

  function Step<T, A>(s: PromiseState<T, A>, op: Op<T, A>): (t: PromiseState<T, A>)
    requires s.Valid()
    ensures t.Valid()
  {
    match op
    case Register(hs) => s.Complete(hs)
    case Resolve(r) => s.SetResult(r).state
    case Fail(e) => s.SetFailure(e)
    case Attach(a) => s.SetAttachment(a)
  }

  function Run<T, A>(s: PromiseState<T, A>, ops: seq<Op<T, A>>): (t: PromiseState<T, A>)
    requires s.Valid()
    ensures t.Valid()
    decreases |ops|
  {
    if ops == [] then s else Step(Run(s, ops[..|ops| - 1]), ops[|ops| - 1])
  }

  /** Every handler passed to complete, in order. */
  function Registered<T, A>(ops: seq<Op<T, A>>): seq<HandlerId>
    decreases |ops|
  {
    if ops == [] then []
    else Registered(ops[..|ops| - 1]) + (if ops[|ops| - 1].Register? then ops[|ops| - 1].hs else [])
  }

  /** The value of the first setResult of the run, if any. */
  function FirstResult<T, A>(ops: seq<Op<T, A>>): Option<T>
    decreases |ops|
  {
    if ops == [] then None
    else
      var earlier := FirstResult(ops[..|ops| - 1]);
      if earlier.Some? then earlier
      else if ops[|ops| - 1].Resolve? then Some(ops[|ops| - 1].result)
      else None
  }

  /** How many completed calls handler h received. */
  function CompletedCount<T, A>(es: seq<Event<T, A>>, h: HandlerId): nat
    decreases |es|
  {
    if es == [] then 0
    else CompletedCount(es[..|es| - 1], h) + (if es[|es| - 1].Completed? && es[|es| - 1].handler == h then 1 else 0)
  }

  lemma {:induction false} CompletedCountAppend<T, A>(a: seq<Event<T, A>>, b: seq<Event<T, A>>, h: HandlerId)
    ensures CompletedCount(a + b, h) == CompletedCount(a, h) + CompletedCount(b, h)
    decreases |b|
  {
    if b == [] {
      assert a + b == a;
    } else {
      assert (a + b)[..|a + b| - 1] == a + b[..|b| - 1];
      CompletedCountAppend(a, b[..|b| - 1], h);
    }
  }

  lemma {:induction false} CompletedAllCount<T, A>(hs: seq<HandlerId>, r: T, a: Option<A>, h: HandlerId)
    ensures CompletedCount(CompletedAll(hs, r, a), h) == Count(hs, h)
    decreases |hs|
  {
    if hs != [] {
      var es := CompletedAll(hs, r, a);
      assert es[..|es| - 1] == CompletedAll(hs[..|hs| - 1], r, a);
      CompletedAllCount(hs[..|hs| - 1], r, a, h);
    }
  }

  lemma {:induction false} FailedAllCount<T, A>(hs: seq<HandlerId>, t: Throwable, a: Option<A>, h: HandlerId)
    ensures CompletedCount(FailedAll<T, A>(hs, t, a), h) == 0
    decreases |hs|
  {
    if hs != [] {
      var es := FailedAll<T, A>(hs, t, a);
      assert es[..|es| - 1] == FailedAll<T, A>(hs[..|hs| - 1], t, a);
      FailedAllCount<T, A>(hs[..|hs| - 1], t, a, h);
    }
  }

  /** What holds after any sequential run from a fresh promise. */
  ghost predicate RunInvariant<T, A>(s: PromiseState<T, A>, ops: seq<Op<T, A>>)
  {
    && s.resultQueue == (if FirstResult(ops).Some? then [FirstResult(ops).value] else [])
    && (FirstResult(ops).None? ==> s.handlers == Registered(ops))
    && (forall h :: CompletedCount(s.trace, h) ==
          if FirstResult(ops).Some? then Count(Registered(ops), h) else 0)
    && (forall i :: 0 <= i < |s.trace| && s.trace[i].Completed? ==>
          FirstResult(ops).Some? && s.trace[i].result == FirstResult(ops).value)
  }

  lemma {:induction false} RunKeepsInvariant<T, A>(a: Option<A>, ops: seq<Op<T, A>>)
    ensures RunInvariant(Run(Init<T, A>(a), ops), ops)
    decreases |ops|
  {
    if ops != [] {
      var pre := ops[..|ops| - 1];
      var op := ops[|ops| - 1];
      RunKeepsInvariant(a, pre);
      var s := Run(Init<T, A>(a), pre);
      var t := Step(s, op);
      assert Run(Init<T, A>(a), ops) == t;
      match op
      case Register(hs) =>
        assert Registered(ops) == Registered(pre) + hs;
        forall h ensures CompletedCount(t.trace, h) ==
          if FirstResult(ops).Some? then Count(Registered(ops), h) else 0
        {
          CountAppend(Registered(pre), hs, h);
          if s.HasResult() {
            CompletedCountAppend(s.trace, CompletedAll(hs, s.resultQueue[0], s.attachment), h);
            CompletedAllCount(hs, s.resultQueue[0], s.attachment, h);
          }
        }
      case Resolve(r) =>
        assert Registered(ops) == Registered(pre);
        if !s.HasResult() {
          forall h ensures CompletedCount(t.trace, h) == Count(Registered(ops), h) {
            CompletedCountAppend(s.trace, CompletedAll(s.handlers, r, s.attachment), h);
            CompletedAllCount(s.handlers, r, s.attachment, h);
          }
        }
      case Fail(e) =>
        assert Registered(ops) == Registered(pre);
        forall h ensures CompletedCount(t.trace, h) == CompletedCount(s.trace, h) {
          CompletedCountAppend(s.trace, FailedAll<T, A>(s.handlers, e, s.attachment), h);
          FailedAllCount<T, A>(s.handlers, e, s.attachment, h);
        }
      case Attach(x) =>
        assert Registered(ops) == Registered(pre);
    }
  }

  /** Exactly once: in any sequential run of complete, setResult, setFailure and
      setAttachment calls on a fresh promise, every registration of a handler -- before
      or after the result -- yields exactly one completed call, and every completed
      call carries the first accepted result. With no setResult there is none. */
  lemma ExactlyOnce<T, A>(a: Option<A>, ops: seq<Op<T, A>>, h: HandlerId)
    ensures var s := Run(Init<T, A>(a), ops);
      && CompletedCount(s.trace, h) == (if FirstResult(ops).Some? then Count(Registered(ops), h) else 0)
      && (forall e :: e in s.trace && e.Completed? ==> FirstResult(ops).Some? && e.result == FirstResult(ops).value)
  {
    RunKeepsInvariant(a, ops);
  }

  /** A second setResult is refused and the first result is what later handlers see. */
  lemma {:induction false} SecondResultRefused<T, A>(s: PromiseState<T, A>, r1: T, r2: T, hs: seq<HandlerId>)
    requires s.Valid() && !s.HasResult()
    ensures var first := s.SetResult(r1);
      var second := first.state.SetResult(r2);
      && first.accepted && !second.accepted && second.state == first.state
      && second.state.Complete(hs).trace == first.state.trace + CompletedAll(hs, r1, s.attachment)
  {
  }

  // ---------------------------------------------------------------------------

  /** Promise.java: the fields are those of the source; `trace` records the handler
      calls. */
  class Promise<T, A> {
    var resultQueue: seq<T>
    var attachment: Option<A>
    var handlers: seq<HandlerId>
    var trace: seq<Event<T, A>>

    function Model(): PromiseState<T, A>
      reads this
    {
      PromiseState(resultQueue, attachment, handlers, trace)
    }

    ghost predicate Valid()
      reads this
    {
      Model().Valid()
    }

    /** new Promise() */
    constructor ()
      ensures Valid() && Model() == Init(None)
    {
      resultQueue, attachment, handlers, trace := [], None, [], [];
    }

    /** new Promise(attachment) */
    constructor WithAttachment(a: A)
      ensures Valid() && Model() == Init(Some(a))
    {
      resultQueue, attachment, handlers, trace := [], Some(a), [], [];
    }

    method GetAttachment() returns (a: Option<A>)
      ensures a == Model().attachment
    {
      a := attachment;
    }

    method SetAttachment(a: Option<A>)
      requires Valid()
      modifies this
      ensures Valid() && Model() == old(Model()).SetAttachment(a)
    {
      attachment := a;
    }

    /** complete(List) and complete(varargs) share this body. */
    method Complete(hs: seq<HandlerId>)
      requires Valid()
      modifies this
      ensures Valid() && Model() == old(Model()).Complete(hs)
    {
      for i := 0 to |hs|
        invariant resultQueue == old(resultQueue) && attachment == old(attachment)
        invariant resultQueue == [] ==> handlers == old(handlers) + hs[..i] && trace == old(trace)
        invariant resultQueue != [] ==>
          handlers == old(handlers) && trace == old(trace) + CompletedAll(hs[..i], resultQueue[0], attachment)
      {
        if resultQueue == [] {
          handlers := handlers + [hs[i]];
        } else {
          trace := trace + [Completed(hs[i], resultQueue[0], attachment)];
        }
        assert hs[..i + 1][..i] == hs[..i];
      }
      assert hs[..|hs|] == hs;
    }

    method SetResult(r: T) returns (accepted: bool)
      requires Valid()
      modifies this
      ensures Valid()
      ensures old(Model()).SetResult(r) == Resolution(accepted, Model())
    {
      if |resultQueue| == 0 {
        resultQueue := [r] + resultQueue;
        for i := 0 to |handlers|
          invariant resultQueue == [r] && handlers == old(handlers) && attachment == old(attachment)
          invariant trace == old(trace) + CompletedAll(handlers[..i], r, attachment)
        {
          trace := trace + [Completed(handlers[i], r, attachment)];
          assert handlers[..i + 1][..i] == handlers[..i];
        }
        assert handlers[..|handlers|] == handlers;
        return true;
      } else {
        return false;
      }
    }

    method SetFailure(t: Throwable)
      requires Valid()
      modifies this
      ensures Valid() && Model() == old(Model()).SetFailure(t)
    {
      for i := 0 to |handlers|
        invariant resultQueue == old(resultQueue) && handlers == old(handlers) && attachment == old(attachment)
        invariant trace == old(trace) + FailedAll(handlers[..i], t, attachment)
      {
        trace := trace + [Failed(handlers[i], t, attachment)];
        assert handlers[..i + 1][..i] == handlers[..i];
      }
      assert handlers[..|handlers|] == handlers;
    }
  }
}
