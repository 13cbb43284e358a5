/** The pieces of Spring's HTTP types that the request, the response and the string
    converter touch: charsets, media types, the header object and an outgoing message. */
module Http {
  import opened Lang
  import opened Nio

  /** A charset, by its canonical name. */
  datatype Charset = Charset(name: string)

  const ISO_8859_1: Charset := Charset("ISO-8859-1")

  /** A media type such as text/plain; only its charset parameter matters here. */
  datatype MediaType = MediaType(mainType: string, subType: string, charset: Option<Charset>)

  /** The parsed response head that Grizzly hands over with the first content: the
      status code, the reason phrase and the header values. */
  datatype ResponseHead = ResponseHead(statusCode: int, reasonPhrase: string, headers: HeaderValues)

  /** A snapshot of an HttpHeaders object: the Content-Type, the Accept-Charset list
      and every other header by name. */
  datatype HeaderValues = HeaderValues(
    contentType: Option<MediaType>,
    acceptCharset: Option<seq<Charset>>,
    others: map<string, seq<string>>)

  /** A mutable HttpHeaders object. */
  class HttpHeaders {
    var contentType: Option<MediaType>
    var acceptCharset: Option<seq<Charset>>
    var others: map<string, seq<string>>

    function Model(): HeaderValues
      reads this
    {
      HeaderValues(contentType, acceptCharset, others)
    }

    constructor ()
      ensures Model() == HeaderValues(None, None, map[])
    {
      contentType, acceptCharset, others := None, None, map[];
    }

    method SetAcceptCharset(charsets: seq<Charset>)
      modifies this
      ensures Model() == old(Model()).(acceptCharset := Some(charsets))
    {
      acceptCharset := Some(charsets);
    }

    method GetContentType() returns (t: Option<MediaType>)
      ensures t == Model().contentType
    {
      t := contentType;
    }
  }

  /** An outgoing message: its headers and the body bytes written so far. */
  class HttpOutputMessage {
    const headers: HttpHeaders
    var body: seq<byte>

    constructor (h: HttpHeaders)
      ensures headers == h && body == []
    {
      headers, body := h, [];
    }
  }
}
