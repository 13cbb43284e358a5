/** StringHttpMessageConverter: which class it converts, how it picks a charset, the
    handler that accumulates a response body as text and resolves a promise with it,
    and the Accept-Charset header it writes on requests.

    Every charset decodes as ISO-8859-1 here (byte b becomes the character with code
    b); the charset chosen is still recorded. */
module StringConverter {
  import opened Lang
  import opened Nio
  import opened Http
  import HttpPromise
  import Response

  const DEFAULT_CHARSET: Charset := ISO_8859_1

  /** The fully qualified name of java.lang.String, the only class converted. */
  const STRING_CLASS: string := "java.lang.String"

  /** supports(clazz), with a class given by its fully qualified name. */
  function Supports(clazz: string): (r: bool)
    ensures r <==> clazz == STRING_CLASS
  {
    clazz == STRING_CLASS
  }

  /** getContentTypeCharset(contentType): the content type's charset when there is a
      content type and it names one; ISO-8859-1 otherwise. */
  function ContentTypeCharset(contentType: Option<MediaType>): (c: Charset)
    ensures contentType.Some? && contentType.value.charset.Some? ==> c == contentType.value.charset.value
    ensures contentType.None? || contentType.value.charset.None? ==> c == DEFAULT_CHARSET
  {
    if contentType.Some? && contentType.value.charset.Some? then contentType.value.charset.value
    else DEFAULT_CHARSET
  }

  /** The text of a sequence of chunks, each decoded on its own and appended. */
  function Accumulated(chunks: seq<seq<byte>>): (text: string)
    decreases |chunks|
  {
    if chunks == [] then "" else Accumulated(chunks[..|chunks| - 1]) + DecodeLatin1(chunks[|chunks| - 1])
  }

  function Flatten(chunks: seq<seq<byte>>): seq<byte>
    decreases |chunks|
  {
    if chunks == [] then [] else Flatten(chunks[..|chunks| - 1]) + chunks[|chunks| - 1]
  }

  /** Decoding chunk by chunk gives the same text as decoding the whole body, because
      ISO-8859-1 maps each byte to one character; how the body is split into chunks
      does not matter. */
  lemma {:induction false} AccumulatedDecodesWhole(chunks: seq<seq<byte>>)
    ensures Accumulated(chunks) == DecodeLatin1(Flatten(chunks))
    ensures |Accumulated(chunks)| == |Flatten(chunks)|
    decreases |chunks|
  {
    if chunks != [] {
      AccumulatedDecodesWhole(chunks[..|chunks| - 1]);
      DecodeLatin1Append(Flatten(chunks[..|chunks| - 1]), chunks[|chunks| - 1]);
    }
  }

  /** The read handler of readInternal as a value: the text so far and the promise it
      resolves. */
  datatype ReaderState = ReaderState(sb: string, promise: HttpPromise.PromiseState<string>)
  {
    /** chunk(buffer): appends the decoded chunk; the handler keeps reading. */
    function Chunk(bytes: seq<byte>): (r: (bool, ReaderState))
      ensures r.0 && r.1.promise == promise && |r.1.sb| == |sb| + |bytes| && r.1.sb[..|sb|] == sb
      ensures forall i :: 0 <= i < |bytes| ==> r.1.sb[|sb| + i] as int == bytes[i] as int
    {
      (true, this.(sb := sb + DecodeLatin1(bytes)))
    }

    /** completed(obj): resolves the promise with the accumulated text. */
    function Completed(hook: HttpPromise.FutureStatus): (s: ReaderState)
      ensures s.sb == sb
      ensures promise.completionHandlers == [] ==> s.promise.obj == Some(sb)
      ensures promise.completionHandlers != [] ==>
        s.promise.trace == promise.trace + HttpPromise.CompletedAll(promise.completionHandlers, sb)
    {
      this.(promise := promise.Result(sb, hook))
    }

    /** failed(t): passes t unchanged to the promise's failure. */
    function Failed(t: Throwable, hook: HttpPromise.FutureStatus): (s: ReaderState)
      ensures s.sb == sb
      ensures promise.completionHandlers == [] ==> s.promise.error == Some(t)
      ensures promise.completionHandlers != [] ==>
        s.promise.trace == promise.trace + HttpPromise.FailedAll(promise.completionHandlers, t)
    {
      this.(promise := promise.Failure(t, hook))
    }
  }

  function ChunkAll(r: ReaderState, chunks: seq<seq<byte>>): ReaderState
    decreases |chunks|
  {
    if chunks == [] then r else ChunkAll(r, chunks[..|chunks| - 1]).Chunk(chunks[|chunks| - 1]).1
  }

  /** A new handler fed any chunks and then completed resolves its promise with the
      concatenation of the decoded chunks, in delivery order. */
  lemma {:induction false} CompletedWithConcatenation(p: HttpPromise.PromiseState<string>, chunks: seq<seq<byte>>, hook: HttpPromise.FutureStatus)
    ensures ChunkAll(ReaderState("", p), chunks).Completed(hook).promise == p.Result(Accumulated(chunks), hook)
  {
    FedKeepsPromise(p, chunks);
  }

  lemma {:induction false} FedKeepsPromise(p: HttpPromise.PromiseState<string>, chunks: seq<seq<byte>>)
    ensures ChunkAll(ReaderState("", p), chunks) == ReaderState(Accumulated(chunks), p)
    decreases |chunks|
  {
    if chunks != [] {
      FedKeepsPromise(p, chunks[..|chunks| - 1]);
    }
  }

  /** A body whose chunks all arrive before the converter sets its handler is read
      with its chunks in reverse order: "He" then "llo" is read as "lloHe". */
  lemma BufferedBodyReadBackwards(h: HandlerId)
    ensures var calls := Response.NoChunks
      .Deliver(Some([72, 101]))
      .Deliver(Some([108, 108, 111]))
      .SetCompletionHandler(h).calls;
      Accumulated(Response.Delivered(calls)) == "lloHe"
  {
    var he: seq<byte>, llo: seq<byte> := [72, 101], [108, 108, 111];
    var calls := Response.NoChunks.Deliver(Some(he)).Deliver(Some(llo)).SetCompletionHandler(h).calls;
    assert Response.Delivered(calls) == [llo, he];
    assert Accumulated([llo]) == DecodeLatin1(llo) by {
      assert [llo][..0] == [];
      assert "" + DecodeLatin1(llo) == DecodeLatin1(llo);
    }
    assert Accumulated([llo, he]) == Accumulated([llo]) + DecodeLatin1(he) by {
      assert [llo, he][..1] == [llo];
    }
    assert DecodeLatin1(llo) == "llo";
    assert DecodeLatin1(he) == "He";
  }

  // ---------------------------------------------------------------------------

  /** The anonymous handler that readInternal sets on the message. `received` records
      the chunks it has been given. */
  class StringReadHandler {
    var sb: string
    const charset: Charset
    const promise: HttpPromise.Promise<string>
    ghost var received: seq<seq<byte>>

    ghost predicate Valid()
      reads this
    {
      sb == Accumulated(received)
    }

    constructor (c: Charset, p: HttpPromise.Promise<string>)
      ensures Valid() && sb == "" && received == [] && charset == c && promise == p
    {
      sb, charset, promise, received := "", c, p, [];
    }

    method Chunk(bytes: seq<byte>) returns (keepReading: bool)
      requires Valid()
      modifies this
      ensures Valid() && received == old(received) + [bytes]
      ensures (keepReading, ReaderState(sb, promise.Model())) == ReaderState(old(sb), promise.Model()).Chunk(bytes)
    {
      sb := sb + DecodeLatin1(bytes);
      received := received + [bytes];
      assert received[..|received| - 1] == old(received);
      keepReading := true;
    }

    method Completed(hook: HttpPromise.FutureStatus)
      requires Valid()
      modifies promise
      ensures promise.Model() == old(promise.Model()).Result(Accumulated(received), hook)
    {
      promise.Result(sb, hook);
    }

    method Failed(t: Throwable, hook: HttpPromise.FutureStatus)
      modifies promise
      ensures promise.Model() == old(promise.Model()).Failure(t, hook)
    {
      promise.Failure(t, hook);
    }
  }

  class StringHttpMessageConverter {
    var writeAcceptCharset: bool
    /** Charset.availableCharsets() at construction, which the platform supplies. */
    const availableCharsets: seq<Charset>

    constructor (platformCharsets: seq<Charset>)
      ensures writeAcceptCharset && availableCharsets == platformCharsets
    {
      writeAcceptCharset, availableCharsets := true, platformCharsets;
    }

    method SetWriteAcceptCharset(b: bool)
      modifies this
      ensures writeAcceptCharset == b
    {
      writeAcceptCharset := b;
    }

    method GetAcceptedCharsets() returns (cs: seq<Charset>)
      ensures cs == availableCharsets
    {
      cs := availableCharsets;
    }

    /** The outer handler of readInternal, on the headers promise: completed(headers)
        makes the chunk handler with the charset of the response's content type. */
    method HeadersCompleted(headers: HeaderValues, promise: HttpPromise.Promise<string>) returns (handler: StringReadHandler)
      ensures fresh(handler) && handler.Valid() && handler.sb == "" && handler.promise == promise
      ensures handler.charset == ContentTypeCharset(headers.contentType)
    {
      var charset := ContentTypeCharset(headers.contentType);
      handler := new StringReadHandler(charset, promise);
    }

    /** writeInternal(s, message): sets Accept-Charset to the available charsets
        when the flag is on; writes no body. */
    method WriteInternal(s: string, message: HttpOutputMessage)
      modifies message.headers
      ensures message.headers.Model() == if writeAcceptCharset
        then old(message.headers.Model()).(acceptCharset := Some(availableCharsets))
        else old(message.headers.Model())
      ensures message.body == old(message.body)
    {
      if writeAcceptCharset {
        var charsets := GetAcceptedCharsets();
        message.headers.SetAcceptCharset(charsets);
      }
      var contentType := message.headers.GetContentType();
      var charset := ContentTypeCharset(contentType);
    }
  }
}
