/**
 One-shot meaning of a request: what a byte string parses to when all of it is there.
 It keeps no cursor and knows nothing of chunks; RequestParser is proved against it.
 */
module RequestSpec {
  import opened Bytes
  import opened Http

  /**
   `carried` and `headers` are the header list the parser starts with and is left with: it is
   emptied only by a completed request, so the specification has to say where it goes.
   */
  datatype Outcome =
    | NeedMore(headers: Headers)
    | Complete(request: Request, consumed: nat)
    | Failed(error: ParseError, headers: Headers)

  datatype RequestLine = RequestLine(verb: Method, path: bytes, version: Version)

  // ---- line ends ----

  predicate CrlfAt(b: bytes, i: nat) {
    i + 1 < |b| && b[i] == CR && b[i + 1] == LF
  }

  /** The first CRLF at or after `from`. */
  function FindCrlf(b: bytes, from: nat): (r: Option<nat>)
    ensures r.Some? ==> from <= r.value && CrlfAt(b, r.value)
    ensures forall j: nat :: from <= j && CrlfAt(b, j) ==> r.Some? && r.value <= j
    decreases |b| - from
  {
    if from + 1 >= |b| then None
    else if CrlfAt(b, from) then Some(from)
    else FindCrlf(b, from + 1)
  }

  // ---- lines ----

  function ParseRequestLine(line: bytes): (r: Result<RequestLine, ParseError>)
    ensures r.Err? ==> r.error != RequestLineTooLong
  {
    var parts := Split(line, SP);
    if |parts| != 3 || parts[0] == [] || parts[1] == [] || parts[2] == [] then Err(MalformedRequestLine)
    else if !ValidUtf8(parts[1]) then Err(MalformedRequestLine)
    else match ParseVersion(parts[2])
      case None => Err(UnsupportedVersion)
      case Some(v) => Ok(RequestLine(ParseMethod(parts[0]), parts[1], v))
  }

  function ParseHeaderLine(line: bytes): (r: Result<Header, ParseError>)
    ensures r.Err? ==> r.error != RequestLineTooLong
  {
    var colon := IndexOf(line, COLON);
    if colon == |line| then Err(MalformedHeader)
    else if !ValidUtf8(line[..colon]) || !ValidUtf8(line[colon + 1..]) then Err(MalformedHeader)
    else if Trim(line[..colon]) == [] then Err(MalformedHeader)
    else Ok(Header(Trim(line[..colon]), Trim(line[colon + 1..])))
  }

  function ContentLength(headers: Headers): (r: Result<nat, ParseError>)
    ensures r.Ok? ==> r.value <= MAX_BODY_BYTES
    ensures r.Err? ==> r.error != RequestLineTooLong
  {
    match HeaderGet(headers, Ascii("content-length"))
    case None => Ok(0)
    case Some(v) =>
      match ParseUsize(Trim(v))
      case None => Err(MalformedHeader)
      case Some(n) => if n > MAX_BODY_BYTES then Err(BodyTooLarge) else Ok(n)
  }

  // ---- the request ----

  function ParseBody(b: bytes, line: RequestLine, bodyStart: nat, length: nat, headers: Headers): (o: Outcome)
    requires bodyStart <= |b|
    ensures o.Complete? ==> bodyStart <= o.consumed <= |b|
  {
    if |b| - bodyStart < length then NeedMore(headers)
    else
      var end := bodyStart + length;
      Complete(Request(line.verb, line.path, line.version, headers, b[bodyStart..end]), end)
  }

  /** One more field line, appended to the list; `count` fields precede it in its block. */
  function TakeField(line: bytes, headers: Headers, count: nat): (r: Result<Headers, ParseError>)
    ensures r.Err? ==> r.error != RequestLineTooLong
  {
    match ParseHeaderLine(line)
    case Err(e) => Err(e)
    case Ok(h) => if count + 1 > MAX_HEADER_COUNT then Err(TooManyHeaders) else Ok(headers + [h])
  }

  /** What follows the empty line. */
  function EndFields(b: bytes, line: RequestLine, bodyStart: nat, headers: Headers): (o: Outcome)
    requires bodyStart <= |b|
    ensures o.Complete? ==> bodyStart <= o.consumed <= |b|
    ensures o.Failed? ==> o.error != RequestLineTooLong
  {
    match ContentLength(headers)
    case Err(e) => Failed(e, headers)
    case Ok(n) => ParseBody(b, line, bodyStart, n, headers)
  }

  /** Fields from `at` to the empty line. */
  function ParseFields(b: bytes, line: RequestLine, block: nat, at: nat, headers: Headers, count: nat): (o: Outcome)
    requires block <= at <= |b|
    ensures o.Complete? ==> at + 2 <= o.consumed <= |b|
    ensures o.Failed? ==> o.error != RequestLineTooLong
    decreases |b| - at
  {
    match FindCrlf(b, at)
    case None => if |b| - block > MAX_HEADER_BYTES then Failed(HeadersTooLarge, headers) else NeedMore(headers)
    case Some(eol) =>
      if eol + 2 - block > MAX_HEADER_BYTES then Failed(HeadersTooLarge, headers)
      else if eol == at then EndFields(b, line, eol + 2, headers)
      else
        match TakeField(b[at..eol], headers, count)
        case Err(e) => Failed(e, headers)
        case Ok(hs) => ParseFields(b, line, block, eol + 2, hs, count + 1)
  }

  function Parse(carried: Headers, b: bytes): (o: Outcome)
    ensures o.Complete? ==> 4 <= o.consumed <= |b|
  {
    match FindCrlf(b, 0)
    case None => if |b| > MAX_REQUEST_LINE then Failed(RequestLineTooLong, carried) else NeedMore(carried)
    case Some(eol) =>
      if eol > MAX_REQUEST_LINE then Failed(RequestLineTooLong, carried)
      else match ParseRequestLine(b[..eol])
        case Err(e) => Failed(e, carried)
        case Ok(line) => ParseFields(b, line, eol + 2, eol + 2, carried, 0)
  }

  // ---- more input ----

  lemma FindCrlfExtends(a: bytes, s: bytes, from: nat)
    requires a <= s
    ensures FindCrlf(a, from).Some? ==> FindCrlf(s, from) == FindCrlf(a, from)
    ensures FindCrlf(a, from).None? && FindCrlf(s, from).Some? ==> FindCrlf(s, from).value + 1 >= |a|
  {
    var ra, rs := FindCrlf(a, from), FindCrlf(s, from);
    if ra.Some? { assert CrlfAt(s, ra.value); }
    if rs.Some? && rs.value + 1 < |a| { assert CrlfAt(a, rs.value); }
  }

  lemma EndExtends(a: bytes, s: bytes, line: RequestLine, bodyStart: nat, headers: Headers)
    requires a <= s && bodyStart <= |a|
    ensures var o := EndFields(a, line, bodyStart, headers);
            && (o.NeedMore? || EndFields(s, line, bodyStart, headers) == o)
            && (o.Complete? ==> EndFields(a[..o.consumed], line, bodyStart, headers) == o)
  {
    var n := ContentLength(headers);
    if n.Ok? && bodyStart + n.value <= |a| {
      var end := bodyStart + n.value;
      assert a[bodyStart..end] == s[bodyStart..end] == a[..end][bodyStart..end];
    }
  }

  /** A decided block of fields stays decided, and decided the same way, when bytes are appended. */
  lemma {:induction false} FieldsExtend(a: bytes, s: bytes, line: RequestLine, block: nat, at: nat,
                                        headers: Headers, count: nat)
    requires a <= s && block <= at <= |a|
    ensures var o := ParseFields(a, line, block, at, headers, count);
            o.NeedMore? || ParseFields(s, line, block, at, headers, count) == o
    decreases |a| - at
  {
    FindCrlfExtends(a, s, at);
    match FindCrlf(a, at)
    case None =>
    case Some(eol) =>
      if eol + 2 - block <= MAX_HEADER_BYTES {
        assert a[at..eol] == s[at..eol];
        if eol == at {
          EndExtends(a, s, line, eol + 2, headers);
        } else {
          var hs := TakeField(a[at..eol], headers, count);
          if hs.Ok? { FieldsExtend(a, s, line, block, eol + 2, hs.value, count + 1); }
        }
      }
  }

  /**
   The one place where deciding early disagrees with deciding late: `a` ends between the CR and the
   LF of a request line of exactly MAX_REQUEST_LINE bytes.
   */
  predicate CutInsideLineEnd(a: bytes, s: bytes) {
    |a| == MAX_REQUEST_LINE + 1 && FindCrlf(s, 0) == Some(MAX_REQUEST_LINE)
  }

  lemma ParseExtends(carried: Headers, a: bytes, s: bytes)
    requires a <= s
    ensures !CutInsideLineEnd(a, s) && !Parse(carried, a).NeedMore? ==> Parse(carried, s) == Parse(carried, a)
    ensures Parse(carried, a).Complete? ==> Parse(carried, s) == Parse(carried, a)
    ensures CutInsideLineEnd(a, s) ==>
              && Parse(carried, a) == Failed(RequestLineTooLong, carried)
              && !(Parse(carried, s).Failed? && Parse(carried, s).error == RequestLineTooLong)
  {
    hide ParseRequestLine, ParseFields, FindCrlf;
    FindCrlfExtends(a, s, 0);
    match FindCrlf(a, 0)
    case None =>
    case Some(eol) =>
      assert a[..eol] == s[..eol];
      var line := ParseRequestLine(a[..eol]);
      if eol <= MAX_REQUEST_LINE && line.Ok? {
        FieldsExtend(a, s, line.value, eol + 2, eol + 2, carried, 0);
      }
  }

  /** A request is a function of exactly the bytes it consumed: nothing after them matters. */
  lemma CompleteOnItsOwnBytes(carried: Headers, b: bytes)
    requires Parse(carried, b).Complete?
    ensures Parse(carried, b[..Parse(carried, b).consumed]) == Parse(carried, b)
  {
    hide ParseRequestLine, ParseFields;
    var c := Parse(carried, b).consumed;
    var eol := FindCrlf(b, 0).value;
    FindCrlfShrinks(b, c, 0);
    assert b[..c][..eol] == b[..eol];
    FieldsOnTheirOwnBytes(b, ParseRequestLine(b[..eol]).value, eol + 2, eol + 2, carried, 0);
  }

  lemma FindCrlfShrinks(b: bytes, c: nat, from: nat)
    requires c <= |b| && FindCrlf(b, from).Some? && FindCrlf(b, from).value + 2 <= c
    ensures FindCrlf(b[..c], from) == FindCrlf(b, from)
  {
    assert CrlfAt(b[..c], FindCrlf(b, from).value);
    FindCrlfExtends(b[..c], b, from);
  }

  lemma {:induction false} FieldsOnTheirOwnBytes(b: bytes, line: RequestLine, block: nat, at: nat,
                                                 headers: Headers, count: nat)
    requires block <= at <= |b| && ParseFields(b, line, block, at, headers, count).Complete?
    ensures var o := ParseFields(b, line, block, at, headers, count);
            ParseFields(b[..o.consumed], line, block, at, headers, count) == o
    decreases |b| - at
  {
    hide TakeField, EndFields;
    var c := ParseFields(b, line, block, at, headers, count).consumed;
    var eol := FindCrlf(b, at).value;
    FindCrlfShrinks(b, c, at);
    if eol == at {
      EndExtends(b, b, line, eol + 2, headers);
    } else {
      var hs := TakeField(b[at..eol], headers, count).value;
      FieldsOnTheirOwnBytes(b, line, block, eol + 2, hs, count + 1);
      assert b[..c][at..eol] == b[at..eol];
    }
  }
}
