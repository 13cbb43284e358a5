/** AbstractClientHttpRequest: a request template that executes at most once.

    The subclass's executeInternal is outside the model: what it does on a call (return
    a response, or throw an IOException) is a parameter. Each call into it is recorded
    with the headers object it was given. */
module Request {
  import opened Lang
  import opened Http

  /** A response returned by executeInternal, by identity. */
  type ResponseId = nat

  /** What execute (or executeInternal) does: return a response or throw. */
  datatype Outcome = Returned(response: ResponseId) | Raised(error: Throwable)

  /** Thrown by checkExecuted through Assert.state. */
  const ALREADY_EXECUTED: Throwable := Throwable("IllegalStateException", "ClientHttpRequest already executed")

  /** The request as a value: the flag, the stored handler, and how often
      executeInternal has been called. */
  datatype RequestState = RequestState(executed: bool, completionHandler: Option<HandlerId>, internalCalls: nat)
  {
    /** execute(): when already executed, the IllegalStateException from
        checkExecuted, before executeInternal is called; otherwise executeInternal
        runs once, and the flag is set only when it returns. */
    function Execute(internal: Outcome): (e: Execution)
      ensures e.state.completionHandler == completionHandler
      ensures executed ==> e == Execution(Raised(ALREADY_EXECUTED), this)
      ensures !executed ==> (e.outcome == internal && e.state.internalCalls == internalCalls + 1
        && (e.state.executed <==> internal.Returned?))
    {
      if executed then Execution(Raised(ALREADY_EXECUTED), this)
      else Execution(internal, RequestState(internal.Returned?, completionHandler, internalCalls + 1))
    }

    /** setCompletionHandler(h): overwrites the stored handler; nothing else changes. */
    function SetCompletionHandler(h: HandlerId): (s: RequestState)
      ensures s.completionHandler == Some(h) && s.executed == executed && s.internalCalls == internalCalls
    {
      this.(completionHandler := Some(h))
    }
  }

  /** What execute reports and the request afterwards. */
  datatype Execution = Execution(outcome: Outcome, state: RequestState)

  const Fresh: RequestState := RequestState(false, None, 0)

  // ---------------------------------------------------------------------------
  // Runs

  datatype Op = ExecuteOp(internal: Outcome) | SetHandlerOp(handler: HandlerId)

  /** The request after a sequence of calls, and what each execute reported. */
  datatype Trail = Trail(state: RequestState, outcomes: seq<Outcome>)

  function Run(s: RequestState, ops: seq<Op>): Trail
    decreases |ops|
  {
    if ops == [] then Trail(s, [])
    else
      var t := Run(s, ops[..|ops| - 1]);
      match ops[|ops| - 1]
      case ExecuteOp(o) =>
        var e := t.state.Execute(o);
        Trail(e.state, t.outcomes + [e.outcome])
      case SetHandlerOp(h) => Trail(t.state.SetCompletionHandler(h), t.outcomes)
  }

  /** How many executes returned a response. */
  function Successes(os: seq<Outcome>): nat
    decreases |os|
  {
    if os == [] then 0 else Successes(os[..|os| - 1]) + (if os[|os| - 1].Returned? then 1 else 0)
  }

  /** How many execute calls a run makes. */
  function Executes(ops: seq<Op>): nat
    decreases |ops|
  {
    if ops == [] then 0 else Executes(ops[..|ops| - 1]) + (if ops[|ops| - 1].ExecuteOp? then 1 else 0)
  }

  /** From a fresh request, in any sequence of execute and setCompletionHandler calls:
      at most one execute returns a response; the flag is set exactly when one has;
      every execute after it fails with "already executed"; and setCompletionHandler
      never touches the flag. */
  lemma {:induction false} ExecutesAtMostOnce(ops: seq<Op>)
    ensures var t := Run(Fresh, ops);
      && |t.outcomes| == Executes(ops)
      && Successes(t.outcomes) <= 1
      && (t.state.executed <==> Successes(t.outcomes) == 1)
      && t.state.internalCalls <= |t.outcomes|
    decreases |ops|
  {
    if ops != [] {
      var pre := ops[..|ops| - 1];
      ExecutesAtMostOnce(pre);
      var t := Run(Fresh, pre);
      match ops[|ops| - 1]
      case ExecuteOp(o) =>
        var e := t.state.Execute(o);
        assert (t.outcomes + [e.outcome])[..|t.outcomes|] == t.outcomes;
      case SetHandlerOp(h) =>
    }
  }

  /** Once a run has produced a response, every later execute fails with the
      IllegalStateException and calls nothing. */
  lemma {:induction false} RefusedAfterSuccess(ops: seq<Op>, more: seq<Op>)
    requires Run(Fresh, ops).state.executed
    ensures var t := Run(Fresh, ops + more);
      && t.state.executed
      && t.state.internalCalls == Run(Fresh, ops).state.internalCalls
      && t.outcomes == Run(Fresh, ops).outcomes + seq(Executes(more), _ => Raised(ALREADY_EXECUTED))
    decreases |more|
  {
    if more == [] {
      assert ops + more == ops;
    } else {
      var pre := more[..|more| - 1];
      assert (ops + more)[..|ops + more| - 1] == ops + pre;
      assert (ops + more)[|ops + more| - 1] == more[|more| - 1];
      RefusedAfterSuccess(ops, pre);
      var k := Executes(pre);
      if more[|more| - 1].ExecuteOp? {
        assert seq(k, _ => Raised(ALREADY_EXECUTED)) + [Raised(ALREADY_EXECUTED)]
          == seq(k + 1, _ => Raised(ALREADY_EXECUTED));
      }
    }
  }

  /** A failing executeInternal leaves the flag clear, so the next execute calls
      executeInternal again. */
  lemma RetryAfterFailure(s: RequestState, error: Throwable, next: Outcome)
    requires !s.executed
    ensures var e := s.Execute(Raised(error)).state.Execute(next);
      e.outcome == next && e.state.internalCalls == s.internalCalls + 2
  {
  }

  // ---------------------------------------------------------------------------

  /** AbstractClientHttpRequest. `internalCalls` records the headers object passed to
      each call of executeInternal. */
  class ClientHttpRequest {
    var executed: bool
    const headers: HttpHeaders
    var completionHandler: Option<HandlerId>
    var internalCalls: seq<HttpHeaders>

    function Model(): RequestState
      reads this
    {
      RequestState(executed, completionHandler, |internalCalls|)
    }

    constructor ()
      ensures Model() == Fresh && fresh(headers) && internalCalls == []
    {
      executed := false;
      headers := new HttpHeaders();
      completionHandler := None;
      internalCalls := [];
    }

    /** getHeaders(): the same object for the whole life of the request. */
    method GetHeaders() returns (h: HttpHeaders)
      ensures h == headers
    {
      h := headers;
    }

    method SetCompletionHandler(h: HandlerId)
      modifies this
      ensures Model() == old(Model()).SetCompletionHandler(h) && internalCalls == old(internalCalls)
    {
      completionHandler := Some(h);
    }

    /** checkExecuted(): the IllegalStateException when already executed. */
    method CheckExecuted() returns (failure: Option<Throwable>)
      ensures failure == if executed then Some(ALREADY_EXECUTED) else None
    {
      failure := if executed then Some(ALREADY_EXECUTED) else None;
    }

    /** execute(): `internal` is what executeInternal does on this call. */
    method Execute(internal: Outcome) returns (r: Outcome)
      modifies this
      ensures old(Model()).Execute(internal) == Execution(r, Model())
      ensures !old(executed) ==> internalCalls == old(internalCalls) + [headers]
      ensures old(executed) ==> internalCalls == old(internalCalls)
    {
      var failure := CheckExecuted();
      if failure.Some? {
        return Raised(failure.value);
      }
      internalCalls := internalCalls + [headers];
      if internal.Raised? {
        return internal;
      }
      executed := true;
      r := internal;
    }
  }
}
