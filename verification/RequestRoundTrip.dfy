/** Printing requests and parsing them back, alone and pipelined. */
module RequestRoundTrip {
  import opened Bytes
  import opened Http
  import opened RequestSpec
  import opened RequestMeaning
  import opened RequestParsing
  import opened Chunking
  import opened Pipelining

  // ---- the printer (RFC 9112, sections 3 and 5) ----

  function PrintVerb(v: Method): bytes {
    if v == Head then Ascii("HEAD") else Ascii("GET")
  }

  function PrintVersion(v: Version): bytes {
    if v == Http10 then Ascii("HTTP/1.0") else Ascii("HTTP/1.1")
  }

  function PrintLine(r: Request): bytes {
    PrintVerb(r.verb) + [SP] + (r.path + [SP] + PrintVersion(r.version))
  }

  function PrintField(h: Header): bytes {
    h.name + [COLON] + ([SP] + h.value)
  }

  function PrintFields(hs: Headers): bytes {
    if hs == [] then [] else PrintField(hs[0]) + CRLF + PrintFields(hs[1..])
  }

  function PrintHead(r: Request): bytes {
    PrintLine(r) + CRLF + (PrintFields(r.headers) + CRLF)
  }

  function Print(r: Request): bytes {
    PrintHead(r) + r.body
  }

  // ---- what can be printed ----

  predicate PrintableField(h: Header) {
    && h.name != [] && Trimmed(h.name) && COLON !in h.name && CR !in h.name && ValidUtf8(h.name)
    && Trimmed(h.value) && CR !in h.value && ValidUtf8(h.value)
  }

  predicate Printable(r: Request) {
    && r.verb != Unsupported
    && r.path != [] && SP !in r.path && CR !in r.path && ValidUtf8(r.path)
    && |PrintLine(r)| <= MAX_REQUEST_LINE
    && (forall i :: 0 <= i < |r.headers| ==> PrintableField(r.headers[i]))
    && |r.headers| <= MAX_HEADER_COUNT
    && |PrintFields(r.headers)| + 2 <= MAX_HEADER_BYTES
  }

  // ---- line by line ----

  lemma FirstCrlf(b: bytes, from: nat, k: nat)
    requires from <= k && CrlfAt(b, k)
    requires forall j :: from <= j < k ==> b[j] != CR
    ensures FindCrlf(b, from) == Some(k)
  {
    var r := FindCrlf(b, from);
    assert r.Some? && r.value <= k && CrlfAt(b, r.value);
  }

  lemma ParsePrintedLine(r: Request)
    requires Printable(r)
    ensures ParseRequestLine(PrintLine(r)) == Ok(RequestLine(r.verb, r.path, r.version))
    ensures CR !in PrintLine(r)
  {
    var v, w := PrintVerb(r.verb), PrintVersion(r.version);
    VerbToken(r.verb);
    VersionToken(r.version);
    assert PrintLine(r) == v + [SP] + (r.path + [SP] + w);
    hide Printable, PrintLine, ParseRequestLine, ValidUtf8;
    hide PrintFields, PrintVerb, PrintVersion, ParseMethod, ParseVersion, PrintableField;
    LineOfTokens(v, r.path, w);
  }

  lemma LineOfTokens(v: bytes, p: bytes, w: bytes)
    requires v != [] && SP !in v && CR !in v && p != [] && SP !in p && CR !in p && ValidUtf8(p)
    requires w != [] && SP !in w && CR !in w && ParseVersion(w).Some?
    ensures ParseRequestLine(v + [SP] + (p + [SP] + w)) == Ok(RequestLine(ParseMethod(v), p, ParseVersion(w).value))
    ensures CR !in v + [SP] + (p + [SP] + w)
  {
    hide Split, ValidUtf8, ParseMethod, ParseVersion;
    SplitThree(v, p, w);
  }

  lemma SplitThree(v: bytes, p: bytes, w: bytes)
    requires SP !in v && SP !in p && SP !in w
    ensures Split(v + [SP] + (p + [SP] + w), SP) == [v, p, w]
  {
    hide Split;
    SplitFirst(v, SP, p + [SP] + w);
    SplitFirst(p, SP, w);
    SplitLast(w, SP);
  }

  lemma VerbToken(v: Method)
    requires v != Unsupported
    ensures PrintVerb(v) != [] && SP !in PrintVerb(v) && CR !in PrintVerb(v) && ParseMethod(PrintVerb(v)) == v
  {
    TokensDistinct();
    assert Ascii("GET") == [71, 69, 84] && Ascii("HEAD") == [72, 69, 65, 68];
  }

  lemma VersionToken(v: Version)
    ensures PrintVersion(v) != [] && SP !in PrintVersion(v) && CR !in PrintVersion(v)
    ensures ParseVersion(PrintVersion(v)) == Some(v)
  {
    TokensDistinct();
    assert Ascii("HTTP/1.0") == [72, 84, 84, 80, 47, 49, 46, 48];
    assert Ascii("HTTP/1.1") == [72, 84, 84, 80, 47, 49, 46, 49];
  }

  lemma TokensDistinct()
    ensures Ascii("GET") != Ascii("HEAD") && Ascii("HTTP/1.0") != Ascii("HTTP/1.1")
  {
    assert |Ascii("GET")| == 3 && |Ascii("HEAD")| == 4;
    assert Ascii("HTTP/1.0")[7] != Ascii("HTTP/1.1")[7];
  }

  lemma ParsePrintedField(h: Header)
    requires PrintableField(h)
    ensures ParseHeaderLine(PrintField(h)) == Ok(h)
    ensures PrintField(h) != [] && CR !in PrintField(h)
  {
    hide LeadingSpace, TrailingSpace, TrimStart, TrimEnd, IndexOf, Utf8Char;
    var line := PrintField(h);
    IndexOfAt(line, COLON, |h.name|);
    assert line[..|h.name|] == h.name && line[|h.name| + 1..] == [SP] + h.value;
    ValidUtf8Ascii([SP]);
    ValidUtf8Concat([SP], h.value);
    TrimOneSpace(h.name);
    TrimOneSpace(h.value);
  }

  lemma TakePrintedField(h: Header, headers: Headers, count: nat)
    requires PrintableField(h) && count < MAX_HEADER_COUNT
    ensures TakeField(PrintField(h), headers, count) == Ok(headers + [h]) && PrintField(h) != [] && CR !in PrintField(h)
  {
    hide ParseHeaderLine, PrintField, PrintableField;
    ParsePrintedField(h);
  }

  lemma BlankLine(b: bytes, before: bytes, tail: bytes)
    requires b == before + [] + CRLF + tail
    ensures CrlfAt(b, |before|)
  {
  }

  // ---- the header block ----

  lemma FieldLineIn(b: bytes, before: bytes, field: bytes, after: bytes)
    requires b == before + field + CRLF + after && CR !in field
    ensures FindCrlf(b, |before|) == Some(|before| + |field|)
    ensures b[|before|..|before| + |field|] == field
  {
    var eol := |before| + |field|;
    assert forall j :: |before| <= j < eol ==> b[j] == field[j - |before|];
    FirstCrlf(b, |before|, eol);
  }

  lemma {:induction false} ParsePrintedFields(before: bytes, hs: Headers, tail: bytes, line: RequestLine, block: nat,
                                              headers: Headers, count: nat)
    requires block <= |before| && forall i :: 0 <= i < |hs| ==> PrintableField(hs[i])
    requires |before| - block + |PrintFields(hs)| + 2 <= MAX_HEADER_BYTES
    requires count + |hs| <= MAX_HEADER_COUNT
    ensures var b := before + PrintFields(hs) + CRLF + tail;
            ParseFields(b, line, block, |before|, headers, count)
            == EndFields(b, line, |before| + |PrintFields(hs)| + 2, headers + hs)
    decreases |hs|
  {
    hide EndFields, PrintField, PrintableField, TakeField, FindCrlf, CrlfAt;
    var b := before + PrintFields(hs) + CRLF + tail;
    var at := |before|;
    if hs == [] {
      FirstCrlf(b, at, at) by { BlankLine(b, before, tail); }
      assert headers + hs == headers;
    } else {
      var field := PrintField(hs[0]);
      var eol := at + |field|;
      TakePrintedField(hs[0], headers, count);
      var next := before + field + CRLF;
      assert b == next + PrintFields(hs[1..]) + CRLF + tail;
      FieldLineIn(b, before, field, PrintFields(hs[1..]) + CRLF + tail);
      assert hs == [hs[0]] + hs[1..];
      assert headers + hs == (headers + [hs[0]]) + hs[1..];
      ParsePrintedFields(next, hs[1..], tail, line, block, headers + [hs[0]], count + 1);
    }
  }

  // ---- the request ----

  /** A printed head is taken line by line to its empty line; the length its fields announce decides the rest. */
  lemma ParsePrintedHead(carried: Headers, r: Request, tail: bytes)
    requires Printable(r)
    ensures var b := PrintHead(r) + tail;
            && Parse(carried, b) == EndFields(b, RequestLine(r.verb, r.path, r.version), |PrintHead(r)|, carried + r.headers)
            && FindCrlf(b, 0) == Some(|PrintLine(r)|)
  {
    hide ParseRequestLine, PrintLine, PrintFields, ParseFields, EndFields, PrintableField;
    var b, line := PrintHead(r) + tail, PrintLine(r);
    var block := |line| + 2;
    ParsePrintedLine(r);
    assert forall j :: 0 <= j < |line| ==> b[j] == line[j];
    assert b[|line|] == CR && b[|line| + 1] == LF;
    FirstCrlf(b, 0, |line|);
    assert b[..|line|] == line;
    ParsePrintedFields(line + CRLF, r.headers, tail, RequestLine(r.verb, r.path, r.version), block, carried, 0);
    assert b == (line + CRLF) + PrintFields(r.headers) + CRLF + tail;
  }

  /**
   Whatever follows it, a printed request is parsed back, and exactly its own bytes are consumed, its body as
   long as the first Content-Length says.
   */
  lemma ParsePrint(carried: Headers, r: Request, rest: bytes)
    requires Printable(r) && Announces(carried + r.headers, |r.body|)
    ensures Parse(carried, Print(r) + rest) == Outcome.Complete(r.(headers := carried + r.headers), |Print(r)|)
    ensures FindCrlf(Print(r) + rest, 0) == Some(|PrintLine(r)|)
  {
    hide ContentLength, Announces, Printable, PrintHead, Parse, PrintLine;
    AnnouncedLength(carried + r.headers, |r.body|);
    ParsePrintedHead(carried, r, r.body + rest);
    var b, start := Print(r) + rest, |PrintHead(r)|;
    assert b == PrintHead(r) + (r.body + rest);
    assert b[start..start + |r.body|] == r.body;
  }

  // ---- pipelines ----

  function Pipeline(reqs: seq<Request>): bytes {
    if reqs == [] then [] else Print(reqs[0]) + Pipeline(reqs[1..])
  }

  function Expected(reqs: seq<Request>): seq<Served> {
    seq(|reqs|, i requires 0 <= i < |reqs| => Served(reqs[i], |Print(reqs[i])|))
  }

  predicate Sendable(r: Request) {
    Printable(r) && Announces(r.headers, |r.body|)
  }

  lemma {:induction false} ParsePipeline(reqs: seq<Request>)
    requires forall i :: 0 <= i < |reqs| ==> Sendable(reqs[i])
    ensures ParseStream(Pipeline(reqs)) == Stream(Expected(reqs), [], None)
    ensures NoLineAtLimit(Pipeline(reqs)) <==> forall i :: 0 <= i < |reqs| ==> |PrintLine(reqs[i])| != MAX_REQUEST_LINE
    decreases |reqs|
  {
    hide Print, PrintLine, Printable, Announces, Parse;
    if reqs == [] {
      NothingToParse();
    } else {
      var r, b := reqs[0], Pipeline(reqs);
      assert Sendable(r) && [] + r.headers == r.headers;
      ParsePrint([], r, Pipeline(reqs[1..]));
      assert b[|Print(r)|..] == Pipeline(reqs[1..]);
      ParsePipeline(reqs[1..]);
      assert Expected(reqs) == [Served(r, |Print(r)|)] + Expected(reqs[1..]);
    }
  }

  lemma NothingToParse()
    ensures Parse([], []) == NeedMore([]) && FindCrlf([], 0) == None
  {
  }

  /**
   However a pipeline of printed requests is cut into pushes, they come back in order, each with its
   own length, and nothing is left in the buffer.
   */
  lemma RoundTrip(reqs: seq<Request>, chunks: seq<bytes>)
    requires forall i :: 0 <= i < |reqs| ==> Sendable(reqs[i]) && |PrintLine(reqs[i])| != MAX_REQUEST_LINE
    requires Concat(chunks) == Pipeline(reqs)
    ensures FeedAll(OPEN, chunks).requests == Expected(reqs)
    ensures FeedAll(OPEN, chunks).error == None && FeedAll(OPEN, chunks).parser.buf == []
  {
    hide Sendable, PrintLine, Pipeline, Expected, ParseStream, NoLineAtLimit;
    ParsePipeline(reqs);
    AnyChunking(chunks);
    assert [] + Expected(reqs) == Expected(reqs);
  }

  predicate RoundTrips(reqs: seq<Request>, chunks: seq<bytes>) {
    var s := FeedAll(OPEN, chunks);
    s.requests == Expected(reqs) && s.error == None && s.parser.buf == []
  }

  /** Every way of cutting the pipeline gives it back exactly when no request line has the limit's length. */
  lemma RoundTripExactly(reqs: seq<Request>)
    requires forall i :: 0 <= i < |reqs| ==> Sendable(reqs[i])
    ensures (forall chunks: seq<bytes> :: Concat(chunks) == Pipeline(reqs) ==> RoundTrips(reqs, chunks))
            <==> forall i :: 0 <= i < |reqs| ==> |PrintLine(reqs[i])| != MAX_REQUEST_LINE
  {
    hide Sendable, PrintLine, Pipeline, Expected, ParseStream, NoLineAtLimit, FeedAll;
    ParsePipeline(reqs);
    if NoLineAtLimit(Pipeline(reqs)) {
      forall chunks: seq<bytes> | Concat(chunks) == Pipeline(reqs) ensures RoundTrips(reqs, chunks) {
        RoundTrip(reqs, chunks);
      }
    } else {
      var chunks := SomeChunkingDiffers(Pipeline(reqs));
      assert !RoundTrips(reqs, chunks);
    }
  }

  /** A request that can be sent and has it. */
  lemma RequestAtLimitExists() returns (r: Request)
    ensures Sendable(r) && |PrintLine(r)| == MAX_REQUEST_LINE
  {
    var path := seq(MAX_REQUEST_LINE - 13, _ => 65 as byte);
    r := Request(Get, path, Http11, [], []);
    ValidUtf8Ascii(path);
    hide ValidUtf8;
    assert |PrintLine(r)| == 3 + 1 + |path| + 1 + 8;
  }
}
