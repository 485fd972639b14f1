/** Where a parser may stop and go on later. */
module ResumePoints {
  import opened Bytes
  import opened Http
  import opened RequestSpec

  datatype Point =
    | AtLine(carried: Headers)
    | AtFields(line: RequestLine, block: nat, at: nat, headers: Headers, count: nat)
    | AtBody(line: RequestLine, bodyStart: nat, length: nat, headers: Headers)
  {
    predicate Inside(n: nat) {
      match this
      case AtLine(_) => true
      case AtFields(_, block, at, _, _) => block <= at <= n
      case AtBody(_, start, _, _) => start <= n
    }
  }

  /** What going on from the point makes of a stream `s`. */
  function ResumeFrom(p: Point, s: bytes): Outcome
    requires p.Inside(|s|)
  {
    match p
    case AtLine(hs) => Parse(hs, s)
    case AtFields(line, block, at, hs, count) => ParseFields(s, line, block, at, hs, count)
    case AtBody(line, start, length, hs) => ParseBody(s, line, start, length, hs)
  }

  /** However the stream goes on after `buf`, resuming gives what parsing from its first byte gives. */
  ghost predicate Faithful(carried: Headers, buf: bytes, p: Point) {
    && p.Inside(|buf|)
    && forall s: bytes :: buf <= s ==> ResumeFrom(p, s) == Parse(carried, s)
  }

  lemma FaithfulFromStart(carried: Headers, buf: bytes)
    ensures Faithful(carried, buf, AtLine(carried))
  {
    hide Parse;
  }

  /** What one more look at the current line decides, while no line end is found or it is refused. */
  function Verdict(p: Point, buf: bytes): Option<Outcome>
    requires !p.AtBody? && p.Inside(|buf|)
  {
    match p
    case AtLine(hs) =>
      (match FindCrlf(buf, 0)
       case None => Some(if |buf| > MAX_REQUEST_LINE then Failed(RequestLineTooLong, hs) else NeedMore(hs))
       case Some(eol) =>
         if eol > MAX_REQUEST_LINE then Some(Failed(RequestLineTooLong, hs))
         else match ParseRequestLine(buf[..eol])
           case Err(e) => Some(Failed(e, hs))
           case Ok(_) => None)
    case AtFields(line, block, at, hs, count) =>
      match FindCrlf(buf, at)
      case None => Some(if |buf| - block > MAX_HEADER_BYTES then Failed(HeadersTooLarge, hs) else NeedMore(hs))
      case Some(eol) =>
        if eol + 2 - block > MAX_HEADER_BYTES then Some(Failed(HeadersTooLarge, hs))
        else if eol == at then
          match ContentLength(hs)
          case Err(e) => Some(Failed(e, hs))
          case Ok(_) => None
        else
          match TakeField(buf[at..eol], hs, count)
          case Err(e) => Some(Failed(e, hs))
          case Ok(_) => None
  }

  lemma FaithfulVerdict(carried: Headers, buf: bytes, p: Point)
    requires Faithful(carried, buf, p) && !p.AtBody? && Verdict(p, buf).Some?
    ensures Parse(carried, buf) == Verdict(p, buf).value
  {
    hide TakeField, ContentLength, ParseBody, RequestSpec.ParseRequestLine, FindCrlf;
    FaithfulNow(carried, buf, p);
    assert p.AtLine? ==> ResumeFrom(p, buf) == Parse(p.carried, buf);
  }

  lemma FaithfulNow(carried: Headers, buf: bytes, p: Point)
    requires Faithful(carried, buf, p)
    ensures ResumeFrom(p, buf) == Parse(carried, buf)
  {
    assert buf <= buf;
  }

  lemma FaithfulGrows(carried: Headers, buf: bytes, more: bytes, p: Point)
    requires Faithful(carried, buf, p)
    ensures Faithful(carried, buf + more, p)
  {
    forall s: bytes | buf + more <= s ensures ResumeFrom(p, s) == Parse(carried, s) {
      assert s[..|buf|] == (buf + more)[..|buf|] == buf;
    }
  }

  /** An accepted request line may be forgotten. */
  lemma LineStep(carried: Headers, buf: bytes, eol: nat, line: RequestLine)
    requires FindCrlf(buf, 0) == Some(eol) && eol <= MAX_REQUEST_LINE
    requires ParseRequestLine(buf[..eol]) == Ok(line)
    ensures Faithful(carried, buf, AtFields(line, eol + 2, eol + 2, carried, 0))
  {
    hide RequestSpec.ParseRequestLine, ParseFields;
    forall s: bytes | buf <= s
      ensures ParseFields(s, line, eol + 2, eol + 2, carried, 0) == Parse(carried, s)
    {
      FindCrlfExtends(buf, s, 0);
      assert s[..eol] == buf[..eol];
    }
  }

  /** So may an accepted field line. */
  lemma FieldStep(carried: Headers, buf: bytes, p: Point, eol: nat, headers: Headers)
    requires p.AtFields? && Faithful(carried, buf, p)
    requires FindCrlf(buf, p.at) == Some(eol) && eol != p.at && eol + 2 - p.block <= MAX_HEADER_BYTES
    requires TakeField(buf[p.at..eol], p.headers, p.count) == Ok(headers)
    ensures Faithful(carried, buf, AtFields(p.line, p.block, eol + 2, headers, p.count + 1))
  {
    hide Parse, TakeField, EndFields;
    forall s: bytes | buf <= s
      ensures ParseFields(s, p.line, p.block, eol + 2, headers, p.count + 1) == Parse(carried, s)
    {
      assert ResumeFrom(p, s) == Parse(carried, s);
      FindCrlfExtends(buf, s, p.at);
      assert s[p.at..eol] == buf[p.at..eol];
    }
  }

  /** And the whole block, once its empty line and content length are known. */
  lemma EndStep(carried: Headers, buf: bytes, p: Point, length: nat)
    requires p.AtFields? && Faithful(carried, buf, p)
    requires FindCrlf(buf, p.at) == Some(p.at) && p.at + 2 - p.block <= MAX_HEADER_BYTES
    requires ContentLength(p.headers) == Ok(length)
    ensures Faithful(carried, buf, AtBody(p.line, p.at + 2, length, p.headers))
  {
    hide Parse, ContentLength;
    forall s: bytes | buf <= s
      ensures ParseBody(s, p.line, p.at + 2, length, p.headers) == Parse(carried, s)
    {
      assert ResumeFrom(p, s) == Parse(carried, s);
      FindCrlfExtends(buf, s, p.at);
    }
  }
}

/** The resumable request parser: it keeps a cursor between pushes and never rescans what it has seen. */
module RequestParsing {
  import opened Bytes
  import opened Http
  import opened RequestSpec
  import opened ResumePoints

  datatype ParseStatus =
    | Incomplete
    | Complete(request: Request, consumed: nat)
    | Failed(error: ParseError)

  datatype Progress = NeedBytes | NextField | BlockEnd

  datatype State = AtRequestLine | AtHeaders | AtBody | Done

  // ---- what a parser is, seen from outside ----

  /** The parser without its cursor: `done` until the next reset, else parsing `buf` from its start. */
  datatype Parser = Parser(carried: Headers, buf: bytes, done: bool, headers: Headers)

  const FRESH: Parser := Parser([], [], false, [])

  function StatusOf(o: Outcome): ParseStatus {
    match o
    case NeedMore(_) => Incomplete
    case Complete(r, c) => ParseStatus.Complete(r, c)
    case Failed(e, _) => ParseStatus.Failed(e)
  }

  /** One push: the outcome of the whole accumulated buffer, whatever pushes came before. */
  function PushView(p: Parser, chunk: bytes): (Parser, ParseStatus) {
    var all := p.buf + chunk;
    if p.done then (p.(buf := all), Incomplete)
    else
      var o := Parse(p.carried, all);
      match o
      case NeedMore(hs) => (p.(buf := all, headers := hs), StatusOf(o))
      case Complete(_, c) => (p.(buf := all[c..], done := true, headers := []), StatusOf(o))
      case Failed(_, hs) => (p.(buf := all, done := true, headers := hs), StatusOf(o))
  }

  /** Reset keeps the buffered bytes and, as the code does, the header list. */
  function ResetView(p: Parser): Parser {
    p.(carried := p.headers, done := false)
  }

  // ---- the parser ----

  class RequestParser {
    var buf: bytes
    var state: State
    var lineStart: nat
    var scanned: nat
    var headerBlockStart: nat
    var bodyStart: nat
    var headerCount: nat
    var contentLength: nat
    var verb: Method
    var path: bytes
    var version: Version
    var headers: Headers

    /** The header list as the current request began. */
    ghost var carried: Headers
    /** Bytes of completed requests, already drained from `buf`. */
    ghost var drained: nat
    /** Iterations of the CRLF scan since construction. */
    ghost var scanSteps: nat

    ghost function View(): Parser
      reads this
    {
      Parser(carried, buf, state == Done, headers)
    }

    ghost function Line(): RequestSpec.RequestLine
      reads this
    {
      RequestSpec.RequestLine(verb, path, version)
    }

    ghost function Saved(): Point
      requires state != Done
      reads this
    {
      match state
      case AtRequestLine => Point.AtLine(headers)
      case AtHeaders => Point.AtFields(Line(), headerBlockStart, lineStart, headers, headerCount)
      case AtBody => Point.AtBody(Line(), bodyStart, contentLength, headers)
    }

    /** Cursors are ordered and inside the buffer, and the ceilings hold on what has been accepted. */
    ghost predicate Cursors()
      reads this
    {
      match state
      case AtRequestLine => lineStart == 0 && scanned <= |buf| && headerCount == 0 && headers == carried
      case AtHeaders =>
        && headerBlockStart <= lineStart <= scanned <= |buf|
        && headerBlockStart <= MAX_REQUEST_LINE + 2
        && lineStart - headerBlockStart <= MAX_HEADER_BYTES
        && headerCount <= MAX_HEADER_COUNT && |headers| == |carried| + headerCount
      case AtBody =>
        && bodyStart <= |buf|
        && bodyStart <= MAX_REQUEST_LINE + 2 + MAX_HEADER_BYTES
        && contentLength <= MAX_BODY_BYTES
        && headerCount <= MAX_HEADER_COUNT && |headers| == |carried| + headerCount
      case Done => true
    }

    /** Nothing before `scanned` on the current line is a line end, nor can it become one. */
    ghost predicate Scanned()
      reads this
    {
      state == AtRequestLine || state == AtHeaders ==>
        && (scanned == lineStart || scanned < |buf|)
        && forall j: nat :: lineStart <= j < scanned ==> !CrlfAt(buf, j)
    }

    ghost predicate Valid()
      reads this
    {
      Cursors() && Scanned() && (state != Done ==> Faithful(carried, buf, Saved()))
    }

    /** Every scan step is paid for by one byte that no later step will look at. */
    ghost predicate Linear()
      reads this
    {
      scanSteps <= drained + (match state
                              case AtRequestLine => scanned
                              case AtHeaders => scanned
                              case AtBody => bodyStart
                              case Done => |buf|)
    }

    constructor ()
      ensures Valid() && Linear() && View() == FRESH
      ensures drained == scanSteps == 0
    {
      buf, state, headers, carried := [], AtRequestLine, [], [];
      lineStart, scanned, headerBlockStart, bodyStart, headerCount, contentLength := 0, 0, 0, 0, 0, 0;
      verb, path, version := Unsupported, [], Http11;
      drained, scanSteps := 0, 0;
    }

    /** Append `chunk` and parse as far as the bytes allow. */
    method Push(chunk: bytes) returns (status: ParseStatus)
      requires Valid()
      modifies this
      ensures Valid()
      ensures (View(), status) == PushView(old(View()), chunk)
      ensures drained + |buf| == old(drained + |buf|) + |chunk|
      ensures old(Linear()) ==> Linear()
      ensures old(Linear() && state != Done) && status.Complete? ==> scanSteps <= drained
      ensures status.Incomplete? && state != Done ==>
                && |buf| <= MAX_REQUEST_LINE + 2 + MAX_HEADER_BYTES + MAX_BODY_BYTES
                && |headers| <= |carried| + MAX_HEADER_COUNT
    {
      hide Faithful, Parse;
      if state != Done { FaithfulGrows(carried, buf, chunk, Saved()); }
      assert forall j: nat :: j + 1 < |buf| ==> CrlfAt(buf, j) == CrlfAt(buf + chunk, j);
      buf := buf + chunk;
      assert buf + [] == buf;
      status := Advance();
    }

    /** Ready for the next request; bytes past the last one stay in `buf`. */
    method Reset()
      requires Valid()
      modifies this
      ensures Valid() && View() == ResetView(old(View()))
      ensures drained == old(drained)
      ensures old(scanSteps <= drained) ==> Linear()
    {
      hide Faithful, ResumeFrom, FindCrlf, Parse, ParseFields, EndFields;
      FaithfulFromStart(headers, buf);
      Rewind();
      carried := headers;
    }

    method Rewind()
      modifies this`state, this`lineStart, this`scanned, this`headerBlockStart, this`bodyStart,
               this`headerCount, this`contentLength, this`verb, this`path, this`version
      ensures state == AtRequestLine && lineStart == scanned == headerCount == 0
    {
      state := AtRequestLine;
      lineStart, scanned, headerBlockStart, bodyStart, headerCount, contentLength := 0, 0, 0, 0, 0, 0;
      verb, path, version := Unsupported, [], Http11;
    }

    method Advance() returns (status: ParseStatus)
      requires Valid()
      modifies this
      ensures Valid()
      ensures (View(), status) == PushView(old(View()), [])
      ensures drained + |buf| == old(drained + |buf|)
      ensures old(Linear()) ==> Linear()
      ensures old(Linear() && state != Done) && status.Complete? ==> scanSteps <= drained
      ensures status.Incomplete? && state != Done ==>
                && |buf| <= MAX_REQUEST_LINE + 2 + MAX_HEADER_BYTES + MAX_BODY_BYTES
                && |headers| <= |carried| + MAX_HEADER_COUNT
    {
      hide Faithful, Parse;
      assert buf + [] == buf;
      while true
        invariant Valid()
        invariant buf == old(buf) && carried == old(carried) && drained == old(drained)
        invariant state == Done <==> old(state) == Done
        invariant state == Done ==> headers == old(headers) && scanSteps == old(scanSteps)
        invariant old(Linear()) ==> Linear()
        decreases match state case AtRequestLine => 3 case AtHeaders => 2 case AtBody => 1 case Done => 0
      {
        match state {
          case AtRequestLine =>
            var r := ParseRequestLine();
            if r.Err? { status := Fail(r.error); return; }
            if !r.value { return Incomplete; }
          case AtHeaders =>
            var r := ParseHeaders();
            if r.Err? { status := Fail(r.error); return; }
            if !r.value { return Incomplete; }
          case AtBody =>
            var r := ParseBody();
            match r {
              case Some(s) => return s;
              case None => return Incomplete;
            }
          case Done =>
            return Incomplete;
        }
      }
    }

    method Fail(e: ParseError) returns (status: ParseStatus)
      modifies this`state
      ensures state == Done && status == ParseStatus.Failed(e)
    {
      state := Done;
      status := ParseStatus.Failed(e);
    }

    /** The next CRLF on the current line, looked for from where the last scan stopped. */
    method NextCrlf() returns (r: Option<nat>)
      requires Valid() && (state == AtRequestLine || state == AtHeaders)
      modifies this`scanned, this`scanSteps
      ensures Valid()
      ensures r == FindCrlf(buf, lineStart)
      ensures old(Linear()) && r.None? ==> Linear()
      ensures old(Linear()) && r.Some? ==> scanSteps <= drained + r.value + 1
    {
      hide Faithful;
      var i := if scanned > lineStart then scanned else lineStart;
      while i + 1 < |buf|
        invariant scanned == old(scanned) <= i <= |buf| && (i == lineStart || i < |buf|)
        invariant forall j: nat :: lineStart <= j < i ==> !CrlfAt(buf, j)
        invariant old(Linear()) ==> scanSteps <= drained + i
      {
        scanSteps := scanSteps + 1;
        if buf[i] == CR && buf[i + 1] == LF {
          assert CrlfAt(buf, i);
          return Some(i);
        }
        i := i + 1;
      }
      scanned := i;
      r := None;
    }

    method ParseRequestLine() returns (r: Result<bool, ParseError>)
      requires Valid() && state == AtRequestLine
      modifies this
      ensures buf == old(buf) && carried == old(carried) && drained == old(drained)
      ensures r.Ok? ==> Valid() && (old(Linear()) ==> Linear())
      ensures r == Ok(true) ==> state == AtHeaders
      ensures r == Ok(false) ==>
                state == AtRequestLine && Parse(carried, buf) == NeedMore(headers) && |buf| <= MAX_REQUEST_LINE
      ensures r.Err? ==> Parse(carried, buf) == Outcome.Failed(r.error, headers)
      ensures r.Err? && old(Linear()) ==> scanSteps <= drained + |buf|
    {
      hide Faithful, FindCrlf, Parse, RequestSpec.ParseRequestLine;
      ghost var start := Saved();
      if Verdict(start, buf).Some? { FaithfulVerdict(carried, buf, start); }
      var next := NextCrlf();
      if next.None? {
        if |buf| - lineStart > MAX_REQUEST_LINE { return Err(RequestLineTooLong); }
        return Ok(false);
      }
      var eol := next.value;
      if eol - lineStart > MAX_REQUEST_LINE { return Err(RequestLineTooLong); }

      var line := SplitRequestLine(buf[lineStart..eol]);
      if line.Err? { return Err(line.error); }

      EndRequestLine(line.value, eol);
      r := Ok(true);
    }

    /** Keep the request line that ends at `eol`: the header block begins after it. */
    method EndRequestLine(line: RequestSpec.RequestLine, eol: nat)
      requires Valid() && state == AtRequestLine
      requires FindCrlf(buf, 0) == Some(eol) && eol <= MAX_REQUEST_LINE
      requires RequestSpec.ParseRequestLine(buf[..eol]) == Ok(line)
      modifies this`verb, this`path, this`version, this`lineStart, this`scanned, this`headerBlockStart, this`state
      ensures Valid() && state == AtHeaders
      ensures lineStart == scanned == headerBlockStart == eol + 2
      ensures Line() == line
    {
      hide Faithful, FindCrlf, RequestSpec.ParseRequestLine;
      LineStep(carried, buf, eol, line);
      verb, path, version := line.verb, line.path, line.version;
      lineStart := eol + 2;
      scanned := lineStart;
      headerBlockStart := lineStart;
      state := AtHeaders;
    }

    static method SplitRequestLine(line: bytes) returns (r: Result<RequestSpec.RequestLine, ParseError>)
      ensures r == RequestSpec.ParseRequestLine(line)
    {
      hide ValidUtf8, ParseMethod, ParseVersion, Split;
      var parts := Split(line, SP);
      if !(|parts| == 3 && parts[0] != [] && parts[1] != [] && parts[2] != []) { return Err(MalformedRequestLine); }
      if !ValidUtf8(parts[1]) { return Err(MalformedRequestLine); }
      var v := ParseVersion(parts[2]);
      if v.None? { return Err(UnsupportedVersion); }
      r := Ok(RequestSpec.RequestLine(ParseMethod(parts[0]), parts[1], v.value));
    }

    method ParseHeaders() returns (r: Result<bool, ParseError>)
      requires Valid() && state == AtHeaders
      modifies this
      ensures buf == old(buf) && carried == old(carried) && drained == old(drained)
      ensures r.Ok? ==> Valid() && (old(Linear()) ==> Linear())
      ensures r == Ok(true) ==> state == State.AtBody
      ensures r == Ok(false) ==>
                && state == AtHeaders && Parse(carried, buf) == NeedMore(headers)
                && |buf| <= MAX_REQUEST_LINE + 2 + MAX_HEADER_BYTES
      ensures r.Err? ==> Parse(carried, buf) == Outcome.Failed(r.error, headers)
      ensures r.Err? && old(Linear()) ==> scanSteps <= drained + |buf|
    {
      hide Faithful, Parse;
      while true
        invariant Valid() && state == AtHeaders
        invariant buf == old(buf) && carried == old(carried) && drained == old(drained)
        invariant old(Linear()) ==> Linear()
        decreases |buf| - lineStart
      {
        var p := ParseHeader();
        match p {
          case Err(e) => return Err(e);
          case Ok(NeedBytes) => return Ok(false);
          case Ok(BlockEnd) => return Ok(true);
          case Ok(NextField) =>
        }
      }
    }

    /** One line of the header block: the body of the loop in ParseHeaders. */
    method ParseHeader() returns (r: Result<Progress, ParseError>)
      requires Valid() && state == AtHeaders
      modifies this
      ensures buf == old(buf) && carried == old(carried) && drained == old(drained)
      ensures r.Ok? ==> Valid() && (old(Linear()) ==> Linear())
      ensures r == Ok(NextField) ==> state == AtHeaders && lineStart > old(lineStart)
      ensures r == Ok(BlockEnd) ==> state == State.AtBody
      ensures r == Ok(NeedBytes) ==>
                && state == AtHeaders && Parse(carried, buf) == NeedMore(headers)
                && |buf| <= MAX_REQUEST_LINE + 2 + MAX_HEADER_BYTES
      ensures r.Err? ==> Parse(carried, buf) == Outcome.Failed(r.error, headers)
      ensures r.Err? && old(Linear()) ==> scanSteps <= drained + |buf|
    {
      hide Faithful, FindCrlf, Parse, ContentLength, ParseHeaderLine;
      ghost var start := Saved();
      if Verdict(start, buf).Some? { FaithfulVerdict(carried, buf, start); }
      var next := NextCrlf();
      if next.None? {
        if |buf| - headerBlockStart > MAX_HEADER_BYTES { return Err(HeadersTooLarge); }
        return Ok(NeedBytes);
      }
      var eol := next.value;
      if eol + 2 - headerBlockStart > MAX_HEADER_BYTES { return Err(HeadersTooLarge); }

      if eol == lineStart {
        var n := EndHeaders();
        return if n.Ok? then Ok(BlockEnd) else Err(n.error);
      }

      var field := SplitHeaderLine(buf[lineStart..eol]);
      if field.Err? { return Err(field.error); }
      if headerCount + 1 > MAX_HEADER_COUNT {
        headerCount := headerCount + 1;
        return Err(TooManyHeaders);
      }
      AddHeader(field.value, eol);
      r := Ok(NextField);
    }

    /** The empty line is at `lineStart`: the body begins after it. */
    method EndHeaders() returns (r: Result<(), ParseError>)
      requires Valid() && state == AtHeaders
      requires FindCrlf(buf, lineStart) == Some(lineStart)
      requires lineStart + 2 - headerBlockStart <= MAX_HEADER_BYTES
      modifies this`bodyStart, this`contentLength, this`state
      ensures r.Ok? ==> Valid() && state == State.AtBody && bodyStart == lineStart + 2
      ensures r == match ContentLength(headers) case Ok(_) => Ok(()) case Err(e) => Err(e)
    {
      hide Faithful, FindCrlf, ContentLength;
      ghost var start := Saved();
      bodyStart := lineStart + 2;
      r := DetermineContentLength();
      if r.Ok? {
        EndStep(carried, buf, start, contentLength);
        state := State.AtBody;
      }
    }

    /** Keep the field whose line ends at `eol` and move to the next line. */
    method AddHeader(field: Header, eol: nat)
      requires Valid() && state == AtHeaders
      requires FindCrlf(buf, lineStart) == Some(eol) && eol != lineStart
      requires eol + 2 - headerBlockStart <= MAX_HEADER_BYTES
      requires TakeField(buf[lineStart..eol], headers, headerCount) == Ok(headers + [field])
      modifies this`headers, this`headerCount, this`lineStart, this`scanned
      ensures Valid() && headers == old(headers) + [field] && lineStart == scanned == eol + 2
    {
      hide Faithful, FindCrlf, ParseHeaderLine;
      FieldStep(carried, buf, Saved(), eol, headers + [field]);
      headerCount := headerCount + 1;
      headers := headers + [field];
      lineStart := eol + 2;
      scanned := lineStart;
    }

    static method SplitHeaderLine(line: bytes) returns (r: Result<Header, ParseError>)
      ensures r == ParseHeaderLine(line)
    {
      hide ValidUtf8, Trim;
      var colon := IndexOf(line, COLON);
      if colon == |line| { return Err(MalformedHeader); }
      if !ValidUtf8(line[..colon]) { return Err(MalformedHeader); }
      var name := Trim(line[..colon]);
      if !ValidUtf8(line[colon + 1..]) { return Err(MalformedHeader); }
      var value := Trim(line[colon + 1..]);
      if name == [] { return Err(MalformedHeader); }
      r := Ok(Header(name, value));
    }

    method DetermineContentLength() returns (r: Result<(), ParseError>)
      modifies this`contentLength
      ensures match ContentLength(headers)
              case Ok(n) => r == Ok(()) && contentLength == n
              case Err(e) => r == Err(e)
    {
      match HeaderGet(headers, Ascii("content-length")) {
        case None =>
          contentLength := 0;
        case Some(v) =>
          var n := ParseUsize(Trim(v));
          if n.None? { return Err(MalformedHeader); }
          if n.value > MAX_BODY_BYTES { return Err(BodyTooLarge); }
          contentLength := n.value;
      }
      r := Ok(());
    }

    method ParseBody() returns (r: Option<ParseStatus>)
      requires Valid() && state == State.AtBody
      modifies this
      ensures Valid() && carried == old(carried)
      ensures (View(), if r.Some? then r.value else Incomplete) == PushView(old(View()), [])
      ensures r.Some? ==> r.value.Complete? && (old(Linear()) ==> scanSteps <= drained)
      ensures r.None? ==> state == State.AtBody
      ensures drained + |buf| == old(drained + |buf|)
      ensures old(Linear()) ==> Linear()
      ensures r.None? ==>
                && |buf| <= MAX_REQUEST_LINE + 2 + MAX_HEADER_BYTES + MAX_BODY_BYTES
                && |headers| <= |carried| + MAX_HEADER_COUNT
    {
      hide Faithful, Parse;
      FaithfulNow(carried, buf, Saved());
      assert buf + [] == buf;
      var available := |buf| - bodyStart;
      if available < contentLength { return None; }
      var bodyEnd := bodyStart + contentLength;
      var body := buf[bodyStart..bodyEnd];
      var request := Request(verb, path, version, headers, body);
      path, headers := [], [];
      buf := buf[bodyEnd..];
      drained := drained + bodyEnd;
      state := Done;
      r := Some(ParseStatus.Complete(request, bodyEnd));
    }
  }
}
