/** HTTP vocabulary shared by the parser, the encoder and the connection. */
module Http {
  import opened Bytes

  // Ceilings enforced by the parser.
  const MAX_REQUEST_LINE: nat := 8 * 1024
  const MAX_HEADER_BYTES: nat := 32 * 1024
  const MAX_HEADER_COUNT: nat := 100
  const MAX_BODY_BYTES: nat := 1024 * 1024
  const READ_CHUNK: nat := 16 * 1024

  datatype Method = Get | Head | Unsupported
  datatype Version = Http10 | Http11

  function ParseMethod(token: bytes): Method {
    if token == Ascii("GET") then Get
    else if token == Ascii("HEAD") then Head
    else Unsupported
  }

  function ParseVersion(token: bytes): Option<Version> {
    if token == Ascii("HTTP/1.0") then Some(Http10)
    else if token == Ascii("HTTP/1.1") then Some(Http11)
    else None
  }

  datatype Header = Header(name: bytes, value: bytes)
  type Headers = seq<Header>

  /** Case-insensitive lookup; the first match wins. */
  function HeaderGet(hs: Headers, name: bytes): Option<bytes> {
    if hs == [] then None
    else if EqIgnoreCase(hs[0].name, name) then Some(hs[0].value)
    else HeaderGet(hs[1..], name)
  }

  datatype Request = Request(verb: Method, path: bytes, version: Version, headers: Headers, body: bytes)
  {
    predicate ConnectionHas(token: bytes) {
      match HeaderGet(headers, Ascii("connection"))
      case None => false
      case Some(v) =>
        var parts := Split(v, COMMA);
        exists i :: 0 <= i < |parts| && EqIgnoreCase(Trim(parts[i]), token)
    }

    /** HTTP/1.1 stays open unless told to close; HTTP/1.0 the other way round. */
    predicate WantsKeepAlive() {
      match version
      case Http11 => !ConnectionHas(Ascii("close"))
      case Http10 => ConnectionHas(Ascii("keep-alive"))
    }
  }

  datatype ParseError =
    | MalformedRequestLine
    | UnsupportedVersion
    | MalformedHeader
    | RequestLineTooLong
    | HeadersTooLarge
    | TooManyHeaders
    | BodyTooLarge
  {
    /** The status answered before closing. */
    function Status(): StatusCode {
      match this
      case MalformedRequestLine => 400
      case MalformedHeader => 400
      case RequestLineTooLong => 414
      case HeadersTooLarge => 431
      case TooManyHeaders => 431
      case BodyTooLarge => 413
      case UnsupportedVersion => 505
    }
  }

  function Reason(status: StatusCode): bytes {
    match status
    case 200 => Ascii("OK")
    case 400 => Ascii("Bad Request")
    case 404 => Ascii("Not Found")
    case 405 => Ascii("Method Not Allowed")
    case 413 => Ascii("Payload Too Large")
    case 414 => Ascii("URI Too Long")
    case 431 => Ascii("Request Header Fields Too Large")
    case 500 => Ascii("Internal Server Error")
    case 505 => Ascii("HTTP Version Not Supported")
    case _ => Ascii("Unknown")
  }

  // Status codes are 16-bit.
  type StatusCode = s: nat | s < 0x1_0000

  // A slice is never longer than usize can count.
  type Payload = b: bytes | |b| < USIZE_LIMIT

  datatype Response = Response(status: StatusCode, headers: Headers, body: Payload)

  /** What the router and its handlers compute: an arbitrary pure function. */
  type App = Request -> Response
}
