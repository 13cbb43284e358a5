/** GrizzlyClientHttpResponse: the chunk bookkeeping of an incoming response, and the
    three promises (headers, status code, status text) that the first content fills.

    Content that arrives before a completion handler is set is pushed onto the head of
    a deque; setting a handler drains the deque head to tail into it, so buffered
    chunks are replayed newest first. Content that arrives once a handler is set goes
    straight to the handler. A call into handler.chunk is recorded as a ChunkCall. */
module Response {
  import opened Lang
  import opened Nio
  import opened Http
  import HttpPromise

  /** One piece of content from Grizzly: the (already parsed) response head, and the
      remaining bytes of its content buffer, None when that buffer is null. */
  datatype HttpContent = HttpContent(head: ResponseHead, content: Option<seq<byte>>)

  /** A call of handler.chunk with a buffer holding `bytes`. */
  datatype ChunkCall = ChunkCall(handler: HandlerId, bytes: seq<byte>)

  /** Replaying `bs` into handler h, in the order given. */
  function Replay(h: HandlerId, bs: seq<seq<byte>>): (calls: seq<ChunkCall>)
    ensures |calls| == |bs|
    ensures forall i :: 0 <= i < |bs| ==> calls[i] == ChunkCall(h, bs[i])
  {
    seq(|bs|, i requires 0 <= i < |bs| => ChunkCall(h, bs[i]))
  }

  /** What read(buffer) returns, the target buffer afterwards, and the chunk state. */
  datatype ReadResult = ReadResult(count: nat, target: Region, state: ChunkState)

  /** The deque `buffers` (head first), the current handler, and the calls made on
      handlers so far. */
  datatype ChunkState = ChunkState(buffers: seq<seq<byte>>, handler: Option<HandlerId>, calls: seq<ChunkCall>)
  {
    /** The chunk branch of addContent. */
    function Deliver(content: Option<seq<byte>>): (s: ChunkState)
      ensures s.handler == handler
      ensures content.None? || content.value == [] ==> s == this
      ensures content.Some? && content.value != [] && handler.Some? ==>
        s.buffers == buffers && s.calls == calls + [ChunkCall(handler.value, content.value)]
      ensures content.Some? && content.value != [] && handler.None? ==>
        s.buffers == [content.value] + buffers && s.calls == calls
    {
      if content.None? || content.value == [] then this
      else if handler.Some? then this.(calls := calls + [ChunkCall(handler.value, content.value)])
      else this.(buffers := [content.value] + buffers)
    }

    /** setCompletionHandler(h): replaces any earlier handler, then hands every
        buffered chunk to h, head to tail, and leaves the deque empty. */
    function SetCompletionHandler(h: HandlerId): (s: ChunkState)
      ensures s.handler == Some(h) && s.buffers == []
      ensures |s.calls| == |calls| + |buffers| && s.calls[..|calls|] == calls
      ensures forall i :: 0 <= i < |buffers| ==> s.calls[|calls| + i] == ChunkCall(h, buffers[i])
    {
      ChunkState([], Some(h), calls + Replay(h, buffers))
    }

    /** read(target) on the response's channel: 0 and no change when the deque is
        empty; otherwise the head chunk is removed and as many of its bytes as fit are
        copied into the target, and the count is how far the target's position moved.
        The rest of a chunk that does not fit is dropped with it. */
    function Read(target: Region): (r: ReadResult)
      requires target.Valid()
      ensures r.target.Valid() && r.state.handler == handler && r.state.calls == calls
      ensures buffers == [] ==> r == ReadResult(0, target, this)
      ensures buffers != [] ==> (
        && r.state.buffers == buffers[1..]
        && r.count == r.target.position - target.position
        && r.count == (if |buffers[0]| <= target.Remaining() then |buffers[0]| else target.Remaining())
        && r.target == target.Put(buffers[0][..r.count]).value)
    {
      if buffers == [] then ReadResult(0, target, this)
      else
        var n := if |buffers[0]| <= target.limit - target.position then |buffers[0]| else target.limit - target.position;
        var t := target.Put(buffers[0][..n]).value;
        ReadResult(t.position - target.position, t, this.(buffers := buffers[1..]))
    }
  }

  const NoChunks: ChunkState := ChunkState([], None, [])

  // ---------------------------------------------------------------------------
  // Chunk ordering

  /** The non-empty contents among `cs`, in arrival order. */
  function NonEmpty(cs: seq<Option<seq<byte>>>): seq<seq<byte>>
    decreases |cs|
  {
    if cs == [] then []
    else
      var c := cs[|cs| - 1];
      NonEmpty(cs[..|cs| - 1]) + (if c.Some? && c.value != [] then [c.value] else [])
  }

  function Reverse<T>(s: seq<T>): (r: seq<T>)
    ensures |r| == |s|
    ensures forall i :: 0 <= i < |s| ==> r[i] == s[|s| - 1 - i]
  {
    seq(|s|, i requires 0 <= i < |s| => s[|s| - 1 - i])
  }

  /** The chunk state after a run of addContent calls. */
  function DeliverAll(s: ChunkState, cs: seq<Option<seq<byte>>>): ChunkState
    decreases |cs|
  {
    if cs == [] then s else DeliverAll(s, cs[..|cs| - 1]).Deliver(cs[|cs| - 1])
  }

  /** With no handler set, every non-empty content goes onto the head of the deque:
      the deque holds the arrivals newest first, and no handler is called. */
  lemma {:induction false} BufferedNewestFirst(s: ChunkState, cs: seq<Option<seq<byte>>>)
    requires s.handler.None?
    ensures DeliverAll(s, cs) == s.(buffers := Reverse(NonEmpty(cs)) + s.buffers)
    decreases |cs|
  {
    if cs != [] {
      BufferedNewestFirst(s, cs[..|cs| - 1]);
      var c := cs[|cs| - 1];
      if c.Some? && c.value != [] {
        var old_ := NonEmpty(cs[..|cs| - 1]);
        assert Reverse(old_ + [c.value]) == [c.value] + Reverse(old_);
      }
    }
  }

  /** With a handler set, every non-empty content goes straight to it, in arrival
      order, and the deque is untouched. */
  lemma {:induction false} DirectDeliveryInOrder(s: ChunkState, cs: seq<Option<seq<byte>>>)
    requires s.handler.Some?
    ensures DeliverAll(s, cs) == s.(calls := s.calls + Replay(s.handler.value, NonEmpty(cs)))
    decreases |cs|
  {
    if cs != [] {
      DirectDeliveryInOrder(s, cs[..|cs| - 1]);
      var c := cs[|cs| - 1];
      var pre := NonEmpty(cs[..|cs| - 1]);
      if c.Some? && c.value != [] {
        assert Replay(s.handler.value, pre + [c.value]) == Replay(s.handler.value, pre) + [ChunkCall(s.handler.value, c.value)];
      } else {
        assert pre + [] == pre;
      }
    }
  }

  /** Chunks that arrive before the handler is set reach it in the reverse of their
      arrival order; chunks arriving afterwards reach it in arrival order. */
  lemma ReplayReversesArrival(h: HandlerId, before: seq<Option<seq<byte>>>, after: seq<Option<seq<byte>>>)
    ensures DeliverAll(DeliverAll(NoChunks, before).SetCompletionHandler(h), after).calls
      == Replay(h, Reverse(NonEmpty(before)) + NonEmpty(after))
  {
    BufferedNewestFirst(NoChunks, before);
    var s := DeliverAll(NoChunks, before).SetCompletionHandler(h);
    assert Reverse(NonEmpty(before)) + [] == Reverse(NonEmpty(before));
    DirectDeliveryInOrder(s, after);
    assert Replay(h, Reverse(NonEmpty(before))) + Replay(h, NonEmpty(after))
      == Replay(h, Reverse(NonEmpty(before)) + NonEmpty(after));
  }

  // ---------------------------------------------------------------------------
  // Nothing lost, nothing duplicated

  datatype ChunkOp = Arrive(content: Option<seq<byte>>) | Attach(handler: HandlerId)

  function ChunkStep(s: ChunkState, op: ChunkOp): ChunkState
  {
    match op
    case Arrive(c) => s.Deliver(c)
    case Attach(h) => s.SetCompletionHandler(h)
  }

  function ChunkRun(s: ChunkState, ops: seq<ChunkOp>): ChunkState
    decreases |ops|
  {
    if ops == [] then s else ChunkStep(ChunkRun(s, ops[..|ops| - 1]), ops[|ops| - 1])
  }

  /** The non-empty contents that arrived in a run. */
  function Arrivals(ops: seq<ChunkOp>): seq<seq<byte>>
    decreases |ops|
  {
    if ops == [] then []
    else
      var op := ops[|ops| - 1];
      Arrivals(ops[..|ops| - 1]) + (if op.Arrive? && op.content.Some? && op.content.value != [] then [op.content.value] else [])
  }

  function Delivered(calls: seq<ChunkCall>): (bs: seq<seq<byte>>)
    ensures |bs| == |calls| && forall i :: 0 <= i < |calls| ==> bs[i] == calls[i].bytes
  {
    seq(|calls|, i requires 0 <= i < |calls| => calls[i].bytes)
  }

  /** The chunks handed to handlers plus those waiting, as a multiset. */
  function Held(s: ChunkState): multiset<seq<byte>>
  {
    multiset(Delivered(s.calls)) + multiset(s.buffers)
  }

  lemma DeliveredAppend(a: seq<ChunkCall>, b: seq<ChunkCall>)
    ensures Delivered(a + b) == Delivered(a) + Delivered(b)
  {
  }

  lemma ArriveKeepsChunks(s: ChunkState, c: Option<seq<byte>>)
    ensures Held(s.Deliver(c)) == Held(s) + multiset(if c.Some? && c.value != [] then [c.value] else [])
  {
    if c.Some? && c.value != [] && s.handler.Some? {
      DeliveredAppend(s.calls, [ChunkCall(s.handler.value, c.value)]);
    }
  }

  lemma AttachKeepsChunks(s: ChunkState, h: HandlerId)
    ensures Held(s.SetCompletionHandler(h)) == Held(s)
  {
    DeliveredAppend(s.calls, Replay(h, s.buffers));
    assert Delivered(Replay(h, s.buffers)) == s.buffers;
  }

  /** In any run of addContent and setCompletionHandler calls from a new response,
      every non-empty chunk that arrived has either been handed to a handler exactly
      once or is still waiting in the deque. */
  lemma {:induction false} EveryChunkDeliveredOnce(ops: seq<ChunkOp>)
    ensures var s := ChunkRun(NoChunks, ops);
      multiset(Delivered(s.calls)) + multiset(s.buffers) == multiset(Arrivals(ops))
    decreases |ops|
  {
    if ops != [] {
      var pre := ops[..|ops| - 1];
      EveryChunkDeliveredOnce(pre);
      var s := ChunkRun(NoChunks, pre);
      match ops[|ops| - 1]
      case Arrive(c) => ArriveKeepsChunks(s, c);
      case Attach(h) => AttachKeepsChunks(s, h);
    }
  }

  // ---------------------------------------------------------------------------
  // The response

  /** The future state each GrizzlyFuturePromise's handleResult leaves behind, for
      the status, status-text and headers promises in turn. */
  datatype Hooks = Hooks(status: HttpPromise.FutureStatus, statusText: HttpPromise.FutureStatus, headers: HttpPromise.FutureStatus)

  datatype ResponseState = ResponseState(
    headers: HttpPromise.PromiseState<HeaderValues>,
    status: HttpPromise.PromiseState<int>,
    statusText: HttpPromise.PromiseState<string>,
    chunks: ChunkState)
  {
    /** addContent(c): while the headers promise is not done, status, status text and
        headers are resolved from c's head, in that order; the chunk branch then runs
        on every call. */
    function AddContent(c: HttpContent, hooks: Hooks): (s: ResponseState)
      ensures s.chunks == chunks.Deliver(c.content)
      ensures headers.future.done ==> s.headers == headers && s.status == status && s.statusText == statusText
      ensures !headers.future.done ==> (
        && s.status == status.Result(c.head.statusCode, hooks.status)
        && s.statusText == statusText.Result(c.head.reasonPhrase, hooks.statusText)
        && s.headers == headers.Result(c.head.headers, hooks.headers))
    {
      var filled :=
        if headers.future.done then this
        else this.(status := status.Result(c.head.statusCode, hooks.status),
                   statusText := statusText.Result(c.head.reasonPhrase, hooks.statusText),
                   headers := headers.Result(c.head.headers, hooks.headers));
      filled.(chunks := chunks.Deliver(c.content))
    }
  }

  /** A new response: three promises whose futures are neither done nor cancelled. */
  function NewResponse(): (s: ResponseState)
    ensures !s.headers.future.done && s.chunks == NoChunks
  {
    var f := HttpPromise.FutureStatus(false, false);
    ResponseState(HttpPromise.Init(f), HttpPromise.Init(f), HttpPromise.Init(f), NoChunks)
  }

  /** When the headers promise's hook completes its future, the head of the first
      content is the only one used: later contents change no promise. */
  lemma HeadIsReadOnce(s: ResponseState, c1: HttpContent, c2: HttpContent, h1: Hooks, h2: Hooks)
    requires !s.headers.future.done && s.headers.completionHandlers == [] && h1.headers.done
    ensures var s1 := s.AddContent(c1, h1);
      var s2 := s1.AddContent(c2, h2);
      && s1.headers.obj == Some(c1.head.headers)
      && s2.headers == s1.headers && s2.status == s1.status && s2.statusText == s1.statusText
      && s2.chunks == s1.chunks.Deliver(c2.content)
  {
  }

  /** When handlers are already waiting on the headers promise, resolving it drains
      them without calling the hook, so its future stays not done: the next content's
      head resolves all three promises again. */
  lemma HeadReadAgainAfterDrain(s: ResponseState, c1: HttpContent, c2: HttpContent, h1: Hooks, h2: Hooks)
    requires !s.headers.future.done && s.headers.completionHandlers != []
    ensures var s1 := s.AddContent(c1, h1);
      && !s1.headers.future.done
      && s1.AddContent(c2, h2).status == s1.status.Result(c2.head.statusCode, h2.status)
  {
  }

  // ---------------------------------------------------------------------------

  class GrizzlyClientHttpResponse {
    const headers: HttpPromise.Promise<HeaderValues>
    const status: HttpPromise.Promise<int>
    const statusText: HttpPromise.Promise<string>
    var buffers: seq<seq<byte>>
    var completionHandler: Option<HandlerId>
    var chunkCalls: seq<ChunkCall>

    function Model(): ResponseState
      reads this, headers, status, statusText
    {
      ResponseState(headers.Model(), status.Model(), statusText.Model(),
                    ChunkState(buffers, completionHandler, chunkCalls))
    }

    constructor ()
      ensures Model() == NewResponse()
      ensures fresh(headers) && fresh(status) && fresh(statusText)
    {
      var f := HttpPromise.FutureStatus(false, false);
      headers := new HttpPromise.Promise(f);
      status := new HttpPromise.Promise(f);
      statusText := new HttpPromise.Promise(f);
      buffers, completionHandler, chunkCalls := [], None, [];
    }

    method AddContent(c: HttpContent, hooks: Hooks)
      modifies this, headers, status, statusText
      ensures Model() == old(Model()).AddContent(c, hooks)
    {
      if !headers.future.done {
        status.Result(c.head.statusCode, hooks.status);
        statusText.Result(c.head.reasonPhrase, hooks.statusText);
        headers.Result(c.head.headers, hooks.headers);
      }
      var content := c.content;
      if content.Some? && |content.value| > 0 {
        if completionHandler.Some? {
          chunkCalls := chunkCalls + [ChunkCall(completionHandler.value, content.value)];
        } else {
          buffers := [content.value] + buffers;
        }
      }
    }

    method SetCompletionHandler(h: HandlerId)
      modifies this
      ensures Model().chunks == old(Model().chunks).SetCompletionHandler(h)
    {
      completionHandler := Some(h);
      if buffers != [] {
        var bufferList := buffers;
        buffers := [];
        for i := 0 to |bufferList|
          invariant buffers == [] && completionHandler == Some(h) && bufferList == old(buffers)
          invariant chunkCalls == old(chunkCalls) + Replay(h, bufferList[..i])
        {
          chunkCalls := chunkCalls + [ChunkCall(h, bufferList[i])];
          assert Replay(h, bufferList[..i + 1]) == Replay(h, bufferList[..i]) + [ChunkCall(h, bufferList[i])];
        }
        assert bufferList[..|bufferList|] == bufferList;
      } else {
        assert old(chunkCalls) + Replay(h, []) == old(chunkCalls);
      }
    }

    /** readChannel.read(target). */
    method Read(target: ByteBuffer) returns (n: int)
      requires target.Valid()
      modifies this, target, target.data
      ensures target.Valid() && n >= 0
      ensures old(Model().chunks).Read(old(target.Model())) == ReadResult(n, target.Model(), Model().chunks)
    {
      if buffers == [] {
        return 0;
      }
      var start := target.position;
      var b := buffers[0];
      buffers := buffers[1..];
      var count := if |b| <= target.limit - target.position then |b| else target.limit - target.position;
      var ok := target.Put(b[..count]);
      assert ok;
      n := target.position - start;
    }

    method GetStatusCode() returns (p: HttpPromise.Promise<int>)
      ensures p == status
    {
      p := status;
    }

    method GetStatusText() returns (p: HttpPromise.Promise<string>)
      ensures p == statusText
    {
      p := statusText;
    }

    method GetHeaders() returns (p: HttpPromise.Promise<HeaderValues>)
      ensures p == headers
    {
      p := headers;
    }
  }
}
