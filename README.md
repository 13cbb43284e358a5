# Completion, streaming and buffer primitives of nio-sandbox, in Dafny

This project models the sequential bookkeeping behind the asynchronous HTTP
experiments of Spring's nio-sandbox:

- **`io/Buffer`** (module `AsyncBuffer`): a byte buffer that wraps a `java.nio.ByteBuffer`.
  - A fixed buffer starts with exactly the size asked for and never grows while it has storage. `clear()` drops the storage, and the next append then allocates 16384 bytes, whatever the original size.
  - A dynamic buffer starts at 16384 bytes. When an append does not fit, the storage is reallocated once, to its limit plus 16384 bytes, as long as its capacity plus 16384 stays within 1,024,000 bytes. The new size follows the limit, not the capacity, so a reallocation can make the storage smaller.
  - The `ByteBuffer` rules it relies on (position, limit, capacity, bulk put and get, `flip`, `rewind`) are modelled in module `Nio`.
- **The single-slot promise of async-api-tests** (module `ApiPromise`):
  - `complete` queues handlers, or calls them at once when a result is stored;
  - `setResult` is accepted once;
  - `setFailure` notifies the queued handlers without recording anything.
- **The handler-deque promise of async-http-client** (module `HttpPromise`):
  - `result` and `failure` drain waiting handlers, or store the value or error and call the subclass hook;
  - `addCompletionHandler` consults an abstract future whose state the hook may change.
- **`GrizzlyClientHttpResponse`** (module `Response`):
  - the header, status and status-text promises filled while the headers are not done;
  - the chunk deque: content that arrives before a handler is pushed onto the head and replayed newest first when a handler is set;
  - the response channel's `read`.
- **`AbstractClientHttpRequest`** (module `Request`): a request that executes at most once. The flag is set only after `executeInternal` returns.
- **`StringHttpMessageConverter`** (module `StringConverter`):
  - the class test and the charset rule;
  - the handler that accumulates decoded chunks and resolves a promise with their concatenation;
  - the Accept-Charset flag of `writeInternal`.

Each stateful source class has two parts in the model:

- A **value type** (`BufferState`, `PromiseState`, `ChunkState`, `RequestState`, ...). Its member functions are the operations, and the lemmas are stated over them, including lemmas about whole runs of operations.
- A **`class`** with the source's fields. Each method is proved to move the object's `Model()` exactly as the value operation does (`Model() == old(Model()).Op(...)`).

Calls into handler objects are appended to an event trace, so "exactly once", "in registration order" and "nothing else is called" are properties of that trace. Things the model cannot see become parameters:

- what `executeInternal` does;
- what the future's timed `get` returns;
- the future state a `handleResult` or `handleFailure` hook leaves behind;
- the platform's available charsets.

## Model

| member | source | states |
|---|---|---|
| Nio.Region.Put | async-api-tests/src/main/java/org/springframework/async/io/Buffer.java:115-120 | a bulk put fails (None, BufferOverflowException) exactly when the bytes exceed the remaining space, before writing anything; otherwise they land at the position, which advances by their count, the limit and capacity stay, and every other byte is unchanged |
| Nio.Region.Flip | async-api-tests/src/main/java/org/springframework/async/io/Buffer.java:64-67 | flip makes the limit the old position and the position 0, so the readable bytes are exactly those written before it |
| Nio.Region.Rewind | async-api-tests/src/main/java/org/springframework/async/io/Buffer.java:69-72 | rewind resets the position to 0 and keeps limit and content |
| Nio.Region.Get | async-api-tests/src/main/java/org/springframework/async/io/Buffer.java:79-82 | a bulk get of n bytes underflows exactly when fewer than n remain, reading nothing; otherwise it returns the next n readable bytes and advances the position by n |
| Nio.NewRegion | async-api-tests/src/main/java/org/springframework/async/io/Buffer.java:140 | an allocation of n bytes has capacity and limit n, position 0 and zero content |
| Nio.PutFlipGet | async-api-tests/src/main/java/org/springframework/async/io/Buffer.java:84-92 | put, then flip, then a get of everything remaining returns exactly the bytes written since position 0, and leaves the position at the limit |
| Nio.DecodeLatin1 | async-api-tests/src/main/java/org/springframework/async/io/Buffer.java:88 | decoding gives one character per byte, with the byte's code |
| Nio.EncodeLatin1 | async-api-tests/src/main/java/org/springframework/async/io/Buffer.java:97 | encoding gives one byte per character: its code below 256, '?' otherwise |
| Nio.ByteBuffer.Allocate | async-api-tests/src/main/java/org/springframework/async/io/Buffer.java:140 | a new buffer's model is the allocation of that many bytes, with a fresh backing array |
| Nio.ByteBuffer.Put | async-api-tests/src/main/java/org/springframework/async/io/Buffer.java:118 | the in-place copy loop leaves the buffer as Region.Put says, or unchanged with false on overflow |
| Nio.ByteBuffer.PutBuffer | async-api-tests/src/main/java/org/springframework/async/io/Buffer.java:147 | put(ByteBuffer) copies the source's readable bytes as Region.Put does and moves the source's position to its limit; on overflow neither buffer changes; a buffer put into itself is refused |
| Nio.ByteBuffer.Get | async-api-tests/src/main/java/org/springframework/async/io/Buffer.java:80 | the next n bytes and the advanced position as Region.Get says, or underflow with nothing changed |
| Nio.ByteBuffer.Flip | async-api-tests/src/main/java/org/springframework/async/io/Buffer.java:65 | the buffer's model moves as Region.Flip |
| Nio.ByteBuffer.Rewind | async-api-tests/src/main/java/org/springframework/async/io/Buffer.java:70 | the buffer's model moves as Region.Rewind |
| AsyncBuffer.Grown | async-api-tests/src/main/java/org/springframework/async/io/Buffer.java:145-148 | a growth step installs storage of the old limit plus 16384 bytes, keeps the position and holds the bytes before it in order |
| AsyncBuffer.BufferState.Clear | async-api-tests/src/main/java/org/springframework/async/io/Buffer.java:59-62 | clear drops the storage and keeps the mode |
| AsyncBuffer.BufferState.Flip | async-api-tests/src/main/java/org/springframework/async/io/Buffer.java:64-67 | flip flips the storage when there is one and does nothing otherwise |
| AsyncBuffer.BufferState.Rewind | async-api-tests/src/main/java/org/springframework/async/io/Buffer.java:69-72 | rewind rewinds the storage when there is one and does nothing otherwise |
| AsyncBuffer.BufferState.EnsureCapacity | async-api-tests/src/main/java/org/springframework/async/io/Buffer.java:138-153 | without storage, 16384 bytes are allocated whatever is asked. IllegalStateException exactly when a dynamic buffer lacks room and capacity + 16384 passes 1,024,000, leaving the buffer unchanged. A dynamic buffer lacking room otherwise grows once, as Grown. Every other call changes nothing. Position and written bytes are always kept |
| AsyncBuffer.BufferState.Append | async-api-tests/src/main/java/org/springframework/async/io/Buffer.java:115-120 | a successful append advances the position by the number of bytes and appends them to the written bytes; a failed one (overflow or IllegalStateException) keeps position and written bytes, and IllegalStateException keeps the whole buffer |
| AsyncBuffer.BufferState.GetAsString | async-api-tests/src/main/java/org/springframework/async/io/Buffer.java:84-92 | null without storage, with nothing changed; otherwise everything between position and limit, with the position moved to the limit and content, limit and mode kept |
| AsyncBuffer.BufferState.GetBytes | async-api-tests/src/main/java/org/springframework/async/io/Buffer.java:79-82 | without storage nothing happens; with fewer than n bytes remaining, underflow and no change; otherwise the next n readable bytes, with the position advanced by n and content, limit and mode kept |
| AsyncBuffer.BufferState.GetByte | async-api-tests/src/main/java/org/springframework/async/io/Buffer.java:74-77 | get() always ends in BufferUnderflowException. When a byte remains it is consumed: the position advances by one and content, limit and mode stay. Otherwise the buffer is unchanged |
| AsyncBuffer.NewDynamic | async-api-tests/src/main/java/org/springframework/async/io/Buffer.java:20-22 | new Buffer() is dynamic and has no storage yet |
| AsyncBuffer.NewSized | async-api-tests/src/main/java/org/springframework/async/io/Buffer.java:24-35 | IllegalArgumentException exactly for a fixed size above 1,024,000 or below 0; a fixed buffer gets exactly the size asked for, a dynamic one 16384 bytes whatever was asked; the mode is !fixed and the position 0 |
| AsyncBuffer.Wrapped | async-api-tests/src/main/java/org/springframework/async/io/Buffer.java:42-45 | new Buffer(ByteBuffer) is dynamic and uses the given storage as it is |
| AsyncBuffer.NoStorageDefaults | async-api-tests/src/main/java/org/springframework/async/io/Buffer.java:47-62 | after clear, position() is 0 and capacity() and remaining() report 16384 |
| AsyncBuffer.DynamicFirstAppend | async-api-tests/src/main/java/org/springframework/async/io/Buffer.java:138-142 | the first append to new Buffer() allocates exactly 16384 bytes and succeeds exactly when it fits in them, overflowing otherwise |
| AsyncBuffer.GrowsOncePerAppend | async-api-tests/src/main/java/org/springframework/async/io/Buffer.java:143-149 | a dynamic buffer that lacks room below the ceiling grows to limit + 16384 bytes exactly once; the append succeeds exactly when it fits in that, and otherwise overflows keeping the grown storage |
| AsyncBuffer.CeilingRefusesGrowth | async-api-tests/src/main/java/org/springframework/async/io/Buffer.java:143-151 | growth past the ceiling fails with IllegalStateException and leaves the buffer exactly as it was |
| AsyncBuffer.ClearedFixedReallocates | async-api-tests/src/main/java/org/springframework/async/io/Buffer.java:59-62 | after clear(), a fixed buffer's next append allocates 16384 bytes whatever its original size; it stays fixed, and the append succeeds exactly when it fits in 16384 bytes and otherwise overflows |
| AsyncBuffer.GrowthCanShrink | async-api-tests/src/main/java/org/springframework/async/io/Buffer.java:143-148 | growth goes to limit + 16384 bytes: a dynamic 32768-byte buffer with limit 0 appends one byte into new 16384-byte storage |
| AsyncBuffer.FixedNeverReallocates | async-api-tests/src/main/java/org/springframework/async/io/Buffer.java:138-153 | a fixed buffer keeps its capacity; an append succeeds exactly when it fits in the remaining space and otherwise overflows leaving the buffer exactly as it was |
| AsyncBuffer.StepKeepsBound | async-api-tests/src/main/java/org/springframework/async/io/Buffer.java:143-151 | no single operation takes a buffer within 1,024,000 bytes past that bound |
| AsyncBuffer.RunKeepsBound | async-api-tests/src/main/java/org/springframework/async/io/Buffer.java:143-151 | any sequence of operations keeps a buffer within 1,024,000 bytes |
| AsyncBuffer.CapacityNeverExceedsMax | async-api-tests/src/main/java/org/springframework/async/io/Buffer.java:24-35 | buffers from the no-arg and sized constructors never exceed 1,024,000 bytes, whatever operations follow |
| AsyncBuffer.ThreeAppendsOf10000 | async-api-tests/src/test/java/org/springframework/async/BufferTests.java:26-37 | three 10,000-byte appends to new Buffer() all succeed and leave position 30,000 and capacity 32,768 |
| AsyncBuffer.AppendFlipGetAsString | async-api-tests/src/main/java/org/springframework/async/io/Buffer.java:84-99 | after a successful append(text), flip() and getAsString() return everything written from position 0, ending with the text |
| AsyncBuffer.HelloWorldRoundTrip | async-api-tests/src/test/java/org/springframework/async/BufferTests.java:19-23 | new Buffer().append(text).flip().getAsString() is the text itself for any ISO-8859-1 text of at most 16384 characters |
| AsyncBuffer.FixedTenOverflows | async-api-tests/src/test/java/org/springframework/async/BufferTests.java:39-42 | new Buffer(10, true).append("Hello World!") overflows |
| AsyncBuffer.Buffer.constructor | async-api-tests/src/main/java/org/springframework/async/io/Buffer.java:20-22 | the new object's model is NewDynamic |
| AsyncBuffer.Buffer.Wrap | async-api-tests/src/main/java/org/springframework/async/io/Buffer.java:42-45 | the object wraps the given ByteBuffer itself, as Wrapped |
| AsyncBuffer.Buffer.Sized | async-api-tests/src/main/java/org/springframework/async/io/Buffer.java:24-35 | fails exactly when NewSized does; otherwise a fresh object whose model is NewSized's |
| AsyncBuffer.Buffer.Position | async-api-tests/src/main/java/org/springframework/async/io/Buffer.java:47-49 | position() as BufferState.Position: 0 without storage |
| AsyncBuffer.Buffer.Capacity | async-api-tests/src/main/java/org/springframework/async/io/Buffer.java:51-53 | capacity() as BufferState.Capacity: 16384 without storage |
| AsyncBuffer.Buffer.Remaining | async-api-tests/src/main/java/org/springframework/async/io/Buffer.java:55-57 | remaining() as BufferState.Remaining: 16384 without storage |
| AsyncBuffer.Buffer.Clear | async-api-tests/src/main/java/org/springframework/async/io/Buffer.java:59-62 | the model moves as BufferState.Clear |
| AsyncBuffer.Buffer.Flip | async-api-tests/src/main/java/org/springframework/async/io/Buffer.java:64-67 | the model moves as BufferState.Flip, in place |
| AsyncBuffer.Buffer.Rewind | async-api-tests/src/main/java/org/springframework/async/io/Buffer.java:69-72 | the model moves as BufferState.Rewind, in place |
| AsyncBuffer.Buffer.GetByte | async-api-tests/src/main/java/org/springframework/async/io/Buffer.java:74-77 | status and new model as BufferState.GetByte: always underflow |
| AsyncBuffer.Buffer.GetBytes | async-api-tests/src/main/java/org/springframework/async/io/Buffer.java:79-82 | status, bytes and new model as BufferState.GetBytes |
| AsyncBuffer.Buffer.GetAsString | async-api-tests/src/main/java/org/springframework/async/io/Buffer.java:84-92 | the decoded bytes and new model as BufferState.GetAsString |
| AsyncBuffer.Buffer.EnsureCapacity | async-api-tests/src/main/java/org/springframework/async/io/Buffer.java:138-153 | status and new model as BufferState.EnsureCapacity. The ByteBuffer object is replaced only by a growth step, and the old backing array is never written. After a growth step the abandoned ByteBuffer, which a caller of new Buffer(ByteBuffer) may still hold, is left flipped and drained: its limit is its old position, and its position equals that limit |
| AsyncBuffer.Buffer.AppendString | async-api-tests/src/main/java/org/springframework/async/io/Buffer.java:94-99 | status and new model as appending the encoded text |
| AsyncBuffer.Buffer.AppendBuffer | async-api-tests/src/main/java/org/springframework/async/io/Buffer.java:101-106 | IllegalArgumentException exactly when the source is the buffer's own storage, with nothing changed. Otherwise the source's readable bytes are appended as BufferState.Append does, and the source's limit stays. On success the source is drained; on a failed append the source is unchanged. A growth step leaves the abandoned storage flipped and drained, as Buffer.EnsureCapacity states |
| AsyncBuffer.Buffer.Make | async-api-tests/src/main/java/org/springframework/async/io/Buffer.java:24-35 | the shared step of new Buffer(atLeast, fixed): the object holds the given storage in the given mode |
| AsyncBuffer.Buffer.AppendByte | async-api-tests/src/main/java/org/springframework/async/io/Buffer.java:108-113 | status and new model as appending the one byte |
| AsyncBuffer.Buffer.AppendBytes | async-api-tests/src/main/java/org/springframework/async/io/Buffer.java:115-120 | status and new model as BufferState.Append |
| ApiPromise.PromiseState.Complete | async-api-tests/src/main/java/org/springframework/async/Promise.java:34-45 | before a result, the handlers are appended to the list and nothing is called; after one, each gets completed(stored result, current attachment) at once, in order, and the list is unchanged (the varargs overload at lines 47-59 is the same) |
| ApiPromise.PromiseState.SetResult | async-api-tests/src/main/java/org/springframework/async/Promise.java:61-73 | accepted exactly when no result is stored; then the result is stored and every registered handler gets completed(result, attachment) in registration order; a refused call changes nothing |
| ApiPromise.PromiseState.SetFailure | async-api-tests/src/main/java/org/springframework/async/Promise.java:75-81 | every registered handler gets failed(t, attachment) in order; no result is stored and the list is kept |
| ApiPromise.PromiseState.SetAttachment | async-api-tests/src/main/java/org/springframework/async/Promise.java:29-32 | replaces the attachment and nothing else |
| ApiPromise.Init | async-api-tests/src/main/java/org/springframework/async/Promise.java:18-23 | a new promise has no result, no handlers, no calls made and the given attachment |
| ApiPromise.RunKeepsInvariant | async-api-tests/src/main/java/org/springframework/async/Promise.java:34-81 | after any run from a new promise: the stored result is the first one set; before it, the list holds every registered handler; completed counts match registrations; every completed call carries the first result |
| ApiPromise.ExactlyOnce | async-api-tests/src/main/java/org/springframework/async/Promise.java:34-73 | in any run, every registration of a handler, before or after the result, yields exactly one completed call carrying the first result; with no result, none |
| ApiPromise.SecondResultRefused | async-api-tests/src/main/java/org/springframework/async/Promise.java:61-73 | a second setResult is refused and changes nothing; handlers added later receive the first result |
| ApiPromise.Promise.constructor | async-api-tests/src/main/java/org/springframework/async/Promise.java:18-19 | the model is Init with no attachment |
| ApiPromise.Promise.WithAttachment | async-api-tests/src/main/java/org/springframework/async/Promise.java:21-23 | the model is Init with the given attachment |
| ApiPromise.Promise.GetAttachment | async-api-tests/src/main/java/org/springframework/async/Promise.java:25-27 | returns the current attachment |
| ApiPromise.Promise.SetAttachment | async-api-tests/src/main/java/org/springframework/async/Promise.java:29-32 | the model moves as PromiseState.SetAttachment |
| ApiPromise.Promise.Complete | async-api-tests/src/main/java/org/springframework/async/Promise.java:34-45 | the per-handler loop moves the model as PromiseState.Complete |
| ApiPromise.Promise.SetResult | async-api-tests/src/main/java/org/springframework/async/Promise.java:61-73 | the answer and the new model are those of PromiseState.SetResult |
| ApiPromise.Promise.SetFailure | async-api-tests/src/main/java/org/springframework/async/Promise.java:75-81 | the model moves as PromiseState.SetFailure |
| HttpPromise.PromiseState.AddCompletionHandler | async-http-client/src/main/java/org/springframework/async/Promise.java:33-53 | On a done future: completed with the stored obj, or with what the timed get returns under the current timeout. A caught exception from that get becomes failed. An unchecked one (such as CancellationException) escapes to the caller, with no call and nothing queued. Else, on a cancelled future, cancelled(true). Else, with a recorded error, failed(error). Exactly when none of these holds, the handler goes to the tail of the deque and nothing is called. No field other than the deque changes |
| HttpPromise.PromiseState.Result | async-http-client/src/main/java/org/springframework/async/Promise.java:55-66 | with waiting handlers, each gets completed(v) once in FIFO order, the deque empties, nothing is stored and the hook is not called; with none, v is stored and handleResult is called once, leaving the future as the hook does |
| HttpPromise.PromiseState.Failure | async-http-client/src/main/java/org/springframework/async/Promise.java:72-83 | the mirror of Result with failed(t), the error field and handleFailure |
| HttpPromise.PromiseState.SetTimeout | async-http-client/src/main/java/org/springframework/async/Promise.java:29-31 | replaces the timeout and nothing else |
| HttpPromise.PromiseState.Cancel | async-http-client/src/main/java/org/springframework/async/Promise.java:87-89 | delegates to the future: true exactly when it was neither done nor cancelled, leaving it done and cancelled; otherwise false with the future unchanged; no promise field changes |
| HttpPromise.Init | async-http-client/src/main/java/org/springframework/async/Promise.java:20-23 | a new promise has no handlers, no error, no value, no calls and the 30000 ms default timeout |
| HttpPromise.DrainedHandlersNotCalledTwice | async-http-client/src/main/java/org/springframework/async/Promise.java:55-66 | after a result drains the waiting handlers, a second result calls none of them again: it stores its value and calls the hook |
| HttpPromise.LateHandlerWaitsAfterDrain | async-http-client/src/main/java/org/springframework/async/Promise.java:33-66 | a result that drains handlers leaves the future pending, so a handler added afterwards waits in the deque and is not called |
| HttpPromise.TimeoutReachesTimedGet | async-http-client/src/main/java/org/springframework/async/Promise.java:29-37 | the timeout set by setTimeout is the one the timed get receives in addCompletionHandler |
| HttpPromise.CancelledBranchNotReachedAfterCancel | async-http-client/src/main/java/org/springframework/async/Promise.java:35-46 | cancel changes no promise field, and a handler added after a successful cancel is never given cancelled(true), because the cancelled future is also done |
| HttpPromise.TimedGetEvent | async-http-client/src/main/java/org/springframework/async/Promise.java:36-44 | the timed get's value becomes completed, each of the three caught exceptions becomes failed, and an unchecked exception escapes without a handler call |
| HttpPromise.CancelledBranchUnreachable | async-http-client/src/main/java/org/springframework/async/Promise.java:35-46 | for a future that reports done whenever it reports cancelled, as java.util.concurrent.Future requires, addCompletionHandler never gives a handler cancelled(true) |
| HttpPromise.CancelledGetEscapes | async-http-client/src/main/java/org/springframework/async/Promise.java:33-53 | after a successful cancel with no stored value, a CancellationException from the timed get reaches the caller of addCompletionHandler: the handler is neither called nor queued, and nothing else changes |
| HttpPromise.EveryRegistrationAnsweredOnce | async-http-client/src/main/java/org/springframework/async/Promise.java:33-83 | in any run from a new promise, whatever the hooks do and whatever the timed get returns or throws: a handler's calls received, plus its registrations that ended in an escaped unchecked exception, plus its entries still in the deque, equal its registrations |
| HttpPromise.Promise.constructor | async-http-client/src/main/java/org/springframework/async/Promise.java:20-23 | the model is Init over the subclass's future |
| HttpPromise.Promise.GetCompletionHandlers | async-http-client/src/main/java/org/springframework/async/Promise.java:25-27 | returns the deque of waiting handlers |
| HttpPromise.Promise.SetTimeout | async-http-client/src/main/java/org/springframework/async/Promise.java:29-31 | the model moves as PromiseState.SetTimeout |
| HttpPromise.Promise.AddCompletionHandler | async-http-client/src/main/java/org/springframework/async/Promise.java:33-53 | the model moves as PromiseState.AddCompletionHandler |
| HttpPromise.Promise.Result | async-http-client/src/main/java/org/springframework/async/Promise.java:55-66 | the drain loop moves the model as PromiseState.Result |
| HttpPromise.Promise.Failure | async-http-client/src/main/java/org/springframework/async/Promise.java:72-83 | the drain loop moves the model as PromiseState.Failure |
| HttpPromise.Promise.Cancel | async-http-client/src/main/java/org/springframework/async/Promise.java:87-89 | the answer and new model are those of PromiseState.Cancel |
| HttpPromise.Promise.IsCancelled | async-http-client/src/main/java/org/springframework/async/Promise.java:91-93 | reports the future's cancelled state |
| HttpPromise.Promise.IsDone | async-http-client/src/main/java/org/springframework/async/Promise.java:95-97 | reports the future's done state |
| Response.ChunkState.Deliver | async-http-client/src/main/java/org/springframework/async/web/client/grizzly/GrizzlyClientHttpResponse.java:121-130 | null or empty content changes nothing. With a handler set, the content goes to handler.chunk and the deque is untouched. Without one, it is pushed onto the head of the deque and nothing is called |
| Response.ChunkState.SetCompletionHandler | async-http-client/src/main/java/org/springframework/async/web/client/grizzly/GrizzlyClientHttpResponse.java:133-142 | replaces any earlier handler without complaint, hands each buffered chunk to it once, head to tail, and leaves the deque empty |
| Response.ChunkState.Read | async-http-client/src/main/java/org/springframework/async/web/client/grizzly/GrizzlyClientHttpResponse.java:61-73 | an empty deque gives 0 and no change; otherwise exactly the head chunk is removed, as many of its bytes as fit are put into the target, and the result is how far the target's position moved |
| Response.BufferedNewestFirst | async-http-client/src/main/java/org/springframework/async/web/client/grizzly/GrizzlyClientHttpResponse.java:121-130 | with no handler, the deque holds the non-empty arrivals newest first and no handler is called |
| Response.DirectDeliveryInOrder | async-http-client/src/main/java/org/springframework/async/web/client/grizzly/GrizzlyClientHttpResponse.java:121-125 | with a handler set, the non-empty arrivals reach it in arrival order and the deque is untouched |
| Response.ReplayReversesArrival | async-http-client/src/main/java/org/springframework/async/web/client/grizzly/GrizzlyClientHttpResponse.java:121-142 | chunks arriving before the handler is set reach it in reverse arrival order; those arriving after, in arrival order |
| Response.EveryChunkDeliveredOnce | async-http-client/src/main/java/org/springframework/async/web/client/grizzly/GrizzlyClientHttpResponse.java:121-142 | in any run of contents and handler changes, the chunks handed to handlers plus those still buffered are exactly the non-empty chunks that arrived, as a multiset |
| Response.ResponseState.AddContent | async-http-client/src/main/java/org/springframework/async/web/client/grizzly/GrizzlyClientHttpResponse.java:84-131 | while the headers promise is not done, status, status text and headers are resolved from the content's head; otherwise the promises are untouched; the chunk branch runs on every call |
| Response.NewResponse | async-http-client/src/main/java/org/springframework/async/web/client/grizzly/GrizzlyClientHttpResponse.java:54-59 | a new response has a headers promise that is not done and no chunks |
| Response.HeadIsReadOnce | async-http-client/src/main/java/org/springframework/async/web/client/grizzly/GrizzlyClientHttpResponse.java:84-119 | when the headers hook completes its future, the first content's headers are stored and later contents change none of the three promises |
| Response.HeadReadAgainAfterDrain | async-http-client/src/main/java/org/springframework/async/web/client/grizzly/GrizzlyClientHttpResponse.java:84-119 | when handlers already wait on the headers, resolving drains them without completing the future, so the next content resolves status again |
| Response.GrizzlyClientHttpResponse.constructor | async-http-client/src/main/java/org/springframework/async/web/client/grizzly/GrizzlyClientHttpResponse.java:54-59 | the model is NewResponse, with three fresh promises |
| Response.GrizzlyClientHttpResponse.AddContent | async-http-client/src/main/java/org/springframework/async/web/client/grizzly/GrizzlyClientHttpResponse.java:84-131 | the model moves as ResponseState.AddContent |
| Response.GrizzlyClientHttpResponse.SetCompletionHandler | async-http-client/src/main/java/org/springframework/async/web/client/grizzly/GrizzlyClientHttpResponse.java:133-142 | the replay loop moves the chunk state as ChunkState.SetCompletionHandler |
| Response.GrizzlyClientHttpResponse.Read | async-http-client/src/main/java/org/springframework/async/web/client/grizzly/GrizzlyClientHttpResponse.java:61-73 | count, target buffer and chunk state as ChunkState.Read |
| Response.GrizzlyClientHttpResponse.GetStatusCode | async-http-client/src/main/java/org/springframework/async/web/client/grizzly/GrizzlyClientHttpResponse.java:144-146 | returns the status promise |
| Response.GrizzlyClientHttpResponse.GetStatusText | async-http-client/src/main/java/org/springframework/async/web/client/grizzly/GrizzlyClientHttpResponse.java:148-150 | returns the status-text promise |
| Response.GrizzlyClientHttpResponse.GetHeaders | async-http-client/src/main/java/org/springframework/async/web/client/grizzly/GrizzlyClientHttpResponse.java:155-157 | returns the headers promise |
| Request.RequestState.Execute | async-http-client/src/main/java/org/springframework/async/http/client/AbstractClientHttpRequest.java:43-48 | once executed, IllegalStateException "ClientHttpRequest already executed" and no change; otherwise executeInternal is called once and its outcome returned, and the flag is set exactly when it returned |
| Request.RequestState.SetCompletionHandler | async-http-client/src/main/java/org/springframework/async/http/client/AbstractClientHttpRequest.java:39-41 | overwrites the handler and leaves the flag and the calls alone |
| Request.ExecutesAtMostOnce | async-http-client/src/main/java/org/springframework/async/http/client/AbstractClientHttpRequest.java:43-52 | in any run from a new request, at most one execute returns a response, the flag is set exactly when one has, and every execute reports an outcome |
| Request.RefusedAfterSuccess | async-http-client/src/main/java/org/springframework/async/http/client/AbstractClientHttpRequest.java:43-52 | after a successful execute, every later execute fails with "already executed" and executeInternal is never called again |
| Request.RetryAfterFailure | async-http-client/src/main/java/org/springframework/async/http/client/AbstractClientHttpRequest.java:43-48 | an executeInternal that throws leaves the flag clear, so the next execute calls it again |
| Request.ClientHttpRequest.constructor | async-http-client/src/main/java/org/springframework/async/http/client/AbstractClientHttpRequest.java:30-33 | not executed, no handler, a fresh headers object, no calls |
| Request.ClientHttpRequest.GetHeaders | async-http-client/src/main/java/org/springframework/async/http/client/AbstractClientHttpRequest.java:35-37 | returns the request's one headers object, which is a constant field |
| Request.ClientHttpRequest.SetCompletionHandler | async-http-client/src/main/java/org/springframework/async/http/client/AbstractClientHttpRequest.java:39-41 | the model moves as RequestState.SetCompletionHandler |
| Request.ClientHttpRequest.CheckExecuted | async-http-client/src/main/java/org/springframework/async/http/client/AbstractClientHttpRequest.java:50-52 | the IllegalStateException exactly when already executed |
| Request.ClientHttpRequest.Execute | async-http-client/src/main/java/org/springframework/async/http/client/AbstractClientHttpRequest.java:43-48 | outcome and model as RequestState.Execute; executeInternal receives the request's own headers object |
| StringConverter.Supports | async-http-client/src/main/java/org/springframework/async/http/converter/StringHttpMessageConverter.java:58-61 | true exactly for java.lang.String |
| StringConverter.ContentTypeCharset | async-http-client/src/main/java/org/springframework/async/http/converter/StringHttpMessageConverter.java:108-115 | the content type's charset when both are present, ISO-8859-1 otherwise |
| StringConverter.AccumulatedDecodesWhole | async-http-client/src/main/java/org/springframework/async/http/converter/StringHttpMessageConverter.java:69-74 | appending each chunk's decoded text gives the decoding of the whole body, whatever the chunking |
| StringConverter.ReaderState.Chunk | async-http-client/src/main/java/org/springframework/async/http/converter/StringHttpMessageConverter.java:71-74 | returns true and extends the text by one character per byte of the chunk, keeping what was there |
| StringConverter.ReaderState.Completed | async-http-client/src/main/java/org/springframework/async/http/converter/StringHttpMessageConverter.java:76-78 | resolves the promise with the accumulated text |
| StringConverter.ReaderState.Failed | async-http-client/src/main/java/org/springframework/async/http/converter/StringHttpMessageConverter.java:80-82 | passes the throwable unchanged to the promise's failure |
| StringConverter.CompletedWithConcatenation | async-http-client/src/main/java/org/springframework/async/http/converter/StringHttpMessageConverter.java:69-78 | after any chunks, completed resolves the promise exactly as result(concatenation of the decoded chunks, in delivery order) |
| StringConverter.BufferedBodyReadBackwards | async-http-client/src/main/java/org/springframework/async/web/client/grizzly/GrizzlyClientHttpResponse.java:127-141 | a body whose chunks "He" and "llo" arrive before the handler is set is accumulated as "lloHe" |
| StringConverter.StringReadHandler.constructor | async-http-client/src/main/java/org/springframework/async/http/converter/StringHttpMessageConverter.java:68-69 | an empty accumulator over the given charset and promise |
| StringConverter.StringReadHandler.Chunk | async-http-client/src/main/java/org/springframework/async/http/converter/StringHttpMessageConverter.java:71-74 | as ReaderState.Chunk; the text stays the decoding of the chunks received |
| StringConverter.StringReadHandler.Completed | async-http-client/src/main/java/org/springframework/async/http/converter/StringHttpMessageConverter.java:76-78 | the promise moves as result(decoded chunks received so far) |
| StringConverter.StringReadHandler.Failed | async-http-client/src/main/java/org/springframework/async/http/converter/StringHttpMessageConverter.java:80-82 | the promise moves as failure(t) |
| StringConverter.StringHttpMessageConverter.constructor | async-http-client/src/main/java/org/springframework/async/http/converter/StringHttpMessageConverter.java:45-48 | writeAcceptCharset starts true; the available charsets are the platform's |
| StringConverter.StringHttpMessageConverter.SetWriteAcceptCharset | async-http-client/src/main/java/org/springframework/async/http/converter/StringHttpMessageConverter.java:54-56 | sets the flag |
| StringConverter.StringHttpMessageConverter.GetAcceptedCharsets | async-http-client/src/main/java/org/springframework/async/http/converter/StringHttpMessageConverter.java:104-106 | returns the available charsets |
| StringConverter.StringHttpMessageConverter.HeadersCompleted | async-http-client/src/main/java/org/springframework/async/http/converter/StringHttpMessageConverter.java:66-68 | the chunk handler set once headers arrive is fresh and empty, uses the content type's charset and resolves the caller's promise |
| StringConverter.StringHttpMessageConverter.WriteInternal | async-http-client/src/main/java/org/springframework/async/http/converter/StringHttpMessageConverter.java:89-95 | sets Accept-Charset to the available charsets exactly when the flag is on, changes no other header, and writes no body |

## Left out

- Concurrency:
  - `synchronized` blocks, the `readMutex` and `handlerMutex` locks;
  - the thread safety of `LinkedBlockingDeque`, `AtomicReference` and `AtomicLong`;
  - the timer threads of the tests.

  Every operation is modelled as running alone.
- Handler callbacks are taken not to call back into the object that is notifying them.
- Handlers are identities, and their code is not modelled. The value a handler's `chunk` returns is ignored by the source and is not modelled.
- Character sets: all encoding and decoding is ISO-8859-1. `new String(bytes)` and `String.getBytes()` with the platform charset, and `charset.decode` with any other charset, are not part of this model.
- Java `int` and `long` widths: sizes, positions and the timeout are unbounded integers. No overflow is reachable within the 1,024,000-byte ceiling.
- `SMALL_BUFFER_SIZE` and `MAX_BUFFER_SIZE` are treated as constants, though the source leaves them assignable.
- Null arguments: the `requireNonNull` checks of the appends and `setCompletionHandler(null)`.
- ApiPromise.PromiseState.SetResult: every value is accepted. In the source, `setResult(null)` throws NullPointerException from `resultQueue.push(null)`, storing nothing and calling no handler; null values are outside this model.
- HttpPromise.PromiseState.Result: the value is always stored as present. In the source, `result(null)` with no handlers waiting stores a null `obj`, so a later `addCompletionHandler` on a done future takes the timed get rather than `completed(obj)`. A stored value is modelled as non-null.
- HttpPromise.PromiseState.Cancel: the future's class is not part of this model. Its answer to cancel is taken to be refusal when it has already completed or been cancelled, and acceptance otherwise. A future that refuses for some other reason, as java.util.concurrent.Future allows, is not modelled.
- HttpPromise.Promise.GetCompletionHandlers: returns a copy of the waiting handlers. The source returns its live `LinkedBlockingDeque`, which callers can change; changes made through that alias are not modelled.
- In `io/Buffer`:
  - the copy constructor, whose `duplicate()` shares storage between two objects;
  - `transferTo` (channel I/O), `compareTo`, `toString` and `getByteBuffer`;
  - the direct versus heap allocation distinction.
- AsyncBuffer.BufferState.GetBytes: the array to fill is given by its length. The model returns the bytes read rather than writing them into a caller's array.
- In the async-http-client promise:
  - the blocking `get()` and `get(timeout)` delegations are left out;
  - the future is abstract state, and the subclass that provides it (`GrizzlyFuturePromise`) is not part of this model.
- HttpPromise.PromiseState.AddCompletionHandler: an exception that escapes `addCompletionHandler` is recorded in the trace. Its propagation through the caller's stack is not modelled.
- Response.ChunkState.Read: Grizzly's `Buffer.get(ByteBuffer)` is taken to copy as many of the chunk's bytes as fit in the target, that is, the smaller of the chunk's size and the target's room. The rest of the popped chunk is dropped, and the Grizzly buffer class is not part of this model.
- Response.ResponseState.AddContent: header parsing is left out. This covers Grizzly's `MimeHeaders` and `DataChunk`, `MediaType.parseMediaType`, and `HttpStatus.valueOf` with its exception for unknown codes. The content carries an already parsed head.
- StringConverter.StringHttpMessageConverter.HeadersCompleted: this is the outer handler of `readInternal`. Its registration on the message's headers promise is not wired to an object; the model covers what its `completed` builds.
- `GrizzlyClientHttpRequest`, `AsyncRestTemplate`, `HttpClient`, the message-converter extractor, the error handler and the other transport glue are not part of this model.
