/** Every mistake a request can make, told by its bytes, and the status that answers it. */
module RequestErrors {
  import opened Bytes
  import opened Http
  import opened Texts
  import opened RequestSpec
  import opened RequestMeaning
  import opened RequestRoundTrip
  import opened ResponseEncoding
  import opened ResponseReader
  import opened Connections
  import opened Refinement
  import opened Replies

  // ---- after some good fields ----

  /** A request line and fields, all good, with nothing after them yet. */
  function Start(r: Request): bytes {
    PrintLine(r) + CRLF + PrintFields(r.headers)
  }

  /** A request whose line and fields are good so far. */
  predicate GoodSoFar(r: Request) {
    && r.verb != Unsupported
    && r.path != [] && SP !in r.path && CR !in r.path && ValidUtf8(r.path)
    && |PrintLine(r)| <= MAX_REQUEST_LINE
    && (forall i :: 0 <= i < |r.headers| ==> PrintableField(r.headers[i]))
    && |r.headers| <= MAX_HEADER_COUNT && |PrintFields(r.headers)| <= MAX_HEADER_BYTES
  }

  lemma {:induction false} GoodFieldsTaken(before: bytes, hs: Headers, tail: bytes, line: RequestLine, block: nat,
                                           headers: Headers, count: nat)
    requires block <= |before| && forall i :: 0 <= i < |hs| ==> PrintableField(hs[i])
    requires |before| - block + |PrintFields(hs)| <= MAX_HEADER_BYTES && count + |hs| <= MAX_HEADER_COUNT
    ensures var b := before + PrintFields(hs) + tail;
            ParseFields(b, line, block, |before|, headers, count)
            == ParseFields(b, line, block, |before| + |PrintFields(hs)|, headers + hs, count + |hs|)
    decreases |hs|
  {
    hide EndFields, PrintField, PrintableField, TakeField, FindCrlf, CrlfAt;
    var b, at := before + PrintFields(hs) + tail, |before|;
    if hs == [] {
      assert headers + hs == headers;
    } else {
      var field := PrintField(hs[0]);
      TakePrintedField(hs[0], headers, count);
      var next := before + field + CRLF;
      assert b == next + PrintFields(hs[1..]) + tail;
      FieldLineIn(b, before, field, PrintFields(hs[1..]) + tail);
      assert headers + hs == (headers + [hs[0]]) + hs[1..];
      GoodFieldsTaken(next, hs[1..], tail, line, block, headers + [hs[0]], count + 1);
    }
  }

  lemma GoodStartTaken(r: Request, tail: bytes)
    requires GoodSoFar(r)
    ensures var b := Start(r) + tail; var block := |PrintLine(r)| + 2;
            Parse([], b) == ParseFields(b, RequestLine(r.verb, r.path, r.version), block, |Start(r)|, r.headers, |r.headers|)
  {
    hide ParseRequestLine, PrintLine, PrintFields, ParseFields, PrintableField;
    var b, line := Start(r) + tail, PrintLine(r);
    GoodLineParsed(r);
    assert forall j :: 0 <= j < |line| ==> b[j] == line[j];
    assert b[|line|] == CR && b[|line| + 1] == LF;
    FirstCrlf(b, 0, |line|);
    assert b[..|line|] == line;
    GoodFieldsTaken(line + CRLF, r.headers, tail, RequestLine(r.verb, r.path, r.version), |line| + 2, [], 0);
    assert b == (line + CRLF) + PrintFields(r.headers) + tail && [] + r.headers == r.headers;
  }

  lemma GoodLineParsed(r: Request)
    requires GoodSoFar(r)
    ensures ParseRequestLine(PrintLine(r)) == Ok(RequestLine(r.verb, r.path, r.version)) && CR !in PrintLine(r)
  {
    hide PrintableField, ValidUtf8, ParseRequestLine;
    var s := r.(headers := []);
    assert PrintLine(s) == PrintLine(r) && PrintFields([]) == [];
    ParsePrintedLine(s);
  }

  /** `f` is a field: a name before its first colon, and readable. */
  ghost predicate IsField(f: bytes) {
    exists n, v :: COLON !in n && f == n + [COLON] + v && ValidUtf8(n) && ValidUtf8(v) && Trim(n) != []
  }

  /**
   One more line after good fields: too large if the block would be, else malformed if it is no field, else
   one too many if there are as many as there may be.
   */
  lemma OneMoreLine(r: Request, f: bytes, rest: bytes)
    requires GoodSoFar(r) && f != [] && CR !in f
    ensures var o := Parse([], Start(r) + f + CRLF + rest);
            var room := |PrintFields(r.headers)| + |f| + 2 <= MAX_HEADER_BYTES;
            && (!room ==> o == Failed(HeadersTooLarge, r.headers))
            && (room && !IsField(f) ==> o == Failed(MalformedHeader, r.headers))
            && (room && IsField(f) && |r.headers| == MAX_HEADER_COUNT ==> o == Failed(TooManyHeaders, r.headers))
  {
    hide PrintFields, PrintLine, ParseHeaderLine, Parse, FindCrlf, GoodSoFar;
    var b := Start(r) + f + CRLF + rest;
    assert b == Start(r) + (f + CRLF + rest);
    GoodStartTaken(r, f + CRLF + rest);
    FieldLineIn(b, Start(r), f, rest);
    IsFieldExactly(f);
  }

  lemma IsFieldExactly(f: bytes)
    ensures IsField(f) <==> ParseHeaderLine(f).Ok?
    ensures !IsField(f) ==> ParseHeaderLine(f) == Err(MalformedHeader)
  {
    hide ParseHeaderLine, ValidUtf8, Trim;
    if ParseHeaderLine(f).Ok? { FieldExactly(f, ParseHeaderLine(f).value); }
    else { FieldExactly(f, Header([], [])); }
    if IsField(f) {
      var n, v :| COLON !in n && f == n + [COLON] + v && ValidUtf8(n) && ValidUtf8(v) && Trim(n) != [];
      FieldExactly(f, Header(Trim(n), Trim(v)));
    }
  }

  /** A header block that goes on past its ceiling without a line end. */
  lemma EndlessLine(r: Request, f: bytes)
    requires GoodSoFar(r) && CR !in f && |PrintFields(r.headers)| + |f| > MAX_HEADER_BYTES
    ensures Parse([], Start(r) + f) == Failed(HeadersTooLarge, r.headers)
  {
    hide PrintFields, PrintLine, Parse;
    GoodStartTaken(r, f);
    var b := Start(r) + f;
    var at := |Start(r)|;
    assert forall j :: at <= j < |b| ==> b[j] == f[j - at];
  }

  /** A head whose empty line does not fit any more. */
  lemma EmptyLineTooLate(r: Request, rest: bytes)
    requires GoodSoFar(r) && |PrintFields(r.headers)| + 2 > MAX_HEADER_BYTES
    ensures Parse([], Start(r) + CRLF + rest) == Failed(HeadersTooLarge, r.headers)
  {
    hide PrintFields, PrintLine, Parse;
    var b := Start(r) + CRLF + rest;
    assert b == Start(r) + (CRLF + rest);
    GoodStartTaken(r, CRLF + rest);
    assert CrlfAt(b, |Start(r)|);
    FirstCrlf(b, |Start(r)|, |Start(r)|);
  }

  /** The announced length decides after the empty line. */
  lemma BadLength(r: Request, k: nat, n: nat, rest: bytes)
    requires Printable(r) && k < |r.headers| && FirstNamed(r.headers, LENGTH, k)
    ensures var v := r.headers[k].value; var o := Parse([], PrintHead(r) + rest);
            && (MAX_BODY_BYTES < n < USIZE_LIMIT && Numeral(v, n) ==> o == Failed(BodyTooLarge, r.headers))
            && (USIZE_LIMIT <= n && Numeral(v, n) ==> o == Failed(MalformedHeader, r.headers))
            && ((forall m :: !Numeral(v, m)) ==> o == Failed(MalformedHeader, r.headers))
  {
    assert Trimmed(r.headers[k].value) by { assert PrintableField(r.headers[k]); }
    TrimOneSpace(r.headers[k].value);
    hide PrintHead, PrintLine, Printable, Parse, Numeral, FirstNamed, Trim;
    ParsePrintedHead([], r, rest);
    assert [] + r.headers == r.headers;
    LengthExactly(r.headers, n);
  }

  // ---- the request line ----

  lemma LineAlone(carried: Headers, line: bytes, rest: bytes)
    requires CR !in line && |line| <= MAX_REQUEST_LINE
    ensures var p := ParseRequestLine(line); p.Err? ==> Parse(carried, line + CRLF + rest) == Failed(p.error, carried)
  {
    hide ParseRequestLine, ParseFields;
    var b := line + CRLF + rest;
    assert forall j :: 0 <= j < |line| ==> b[j] == line[j];
    FirstCrlf(b, 0, |line|);
    assert b[..|line|] == line;
  }

  // ---- what the client is told ----

  const PLAIN_TEXT: Header := Header(Ascii("Content-Type"), Ascii("text/plain; charset=utf-8"))

  /** A reply whose body says the same as its first line, and whose fields say so and that the connection closes. */
  ghost predicate SaysItTwice(reply: bytes) {
    exists t, fields ::
      && reply == Ascii("HTTP/1.1 ") + t + CRLF + fields + CRLF + t + [LF]
      && WireFields(reply) == [PLAIN_TEXT] + OwnWords(|t| + 1, false)
  }

  /** The bytes are answered with `code`, in words as well, and the connection closes as the reply says. */
  ghost predicate Refused(app: App, b: bytes, code: nat) {
    && WireStatus(Replying(app, b).conn.Pending()) == Some(code)
    && SaysItTwice(Replying(app, b).conn.Pending())
    && Replied(app, b).conn.phase == Closed
  }

  lemma FailureRefused(app: App, b: bytes, e: ParseError, hs: Headers)
    requires Parse([], b) == Failed(e, hs)
    ensures Refused(app, b, e.Status())
  {
    hide Parse, Encode, WireStatus, WireFields, OwnWords, Replying, Replied, ErrorResponse, Clean;
    FailurePending(app, b, e, hs);
    ErrorResponseClean(e);
    assert ErrorResponse(e).status == e.Status() by { ErrorStatus(e); }
    EncodedIsRead(ErrorResponse(e), false, true);
    ErrorSaysItTwice(e);
  }

  lemma ErrorSaysItTwice(e: ParseError)
    requires WireFields(ErrorReply(e)) == Others(ErrorResponse(e).headers) + OwnWords(|ErrorResponse(e).body|, false)
    ensures SaysItTwice(ErrorReply(e))
  {
    OnlyPlainText();
    hide WireFields, OwnWords, Decimal, Reason, OwnFields, UserFields, Others;
    var r, t := ErrorResponse(e), Decimal(e.Status()) + [SP] + Reason(e.Status());
    var fields := UserFields(r.headers) + OwnFields(|r.body|, false);
    assert r.headers == [PLAIN_TEXT] && r.body == t + [LF];
    assert StatusLine(r.status) == Ascii("HTTP/1.1 ") + t + CRLF;
    assert ErrorReply(e) == Ascii("HTTP/1.1 ") + t + CRLF + fields + CRLF + t + [LF];
  }

  lemma OnlyPlainText()
    ensures Others([PLAIN_TEXT]) == [PLAIN_TEXT]
  {
    assert |PLAIN_TEXT.name| == 12 && |LENGTH| == 14 && |CONNECTION| == 10;
    assert [PLAIN_TEXT][1..] == [];
  }

  lemma ErrorStatus(e: ParseError)
    ensures ErrorResponse(e).status == e.Status()
    ensures ErrorReply(e) == Encode(ErrorResponse(e), false, true)
  {
  }

  lemma FailurePending(app: App, b: bytes, e: ParseError, hs: Headers)
    requires Parse([], b) == Failed(e, hs)
    ensures Replying(app, b).conn.Pending() == ErrorReply(e) && Replied(app, b).conn.phase == Closed
  {
    hide Parse, ErrorReply;
    assert [] + b == b;
    assert ErrorReply(e) != [] by { ErrorReplyNotEmpty(e); }
    assert Replying(app, b).conn.Pending() == ErrorReply(e)[0..];
  }

  lemma ErrorReplyNotEmpty(e: ParseError)
    ensures ErrorReply(e) != []
  {
  }

  lemma ErrorResponseClean(e: ParseError)
    ensures forall i :: 0 <= i < |ErrorResponse(e).headers| ==> Clean(ErrorResponse(e).headers[i])
  {
    hide ValidUtf8, Decimal, Reason, Ascii;
    PlainTextClean();
    assert ErrorResponse(e).headers == [PLAIN_TEXT];
  }

  lemma PlainTextClean()
    ensures Clean(PLAIN_TEXT)
  {
    hide Clean, Ascii;
    TextIsClean(PLAIN_TEXT.name, PLAIN_TEXT.value);
  }

  lemma TextIsClean(name: bytes, value: bytes)
    requires name == Ascii("Content-Type") && value == Ascii("text/plain; charset=utf-8")
    ensures Clean(Header(name, value))
  {
    hide ValidUtf8, Trimmed, Ascii;
    AsciiPlain("Content-Type");
    AsciiPlain("text/plain; charset=utf-8");
    TextEnds(value);
    VisibleEnds(value);
  }

  lemma TextEnds(value: bytes)
    requires value == Ascii("text/plain; charset=utf-8")
    ensures |value| == 25 && value[0] == 116 && value[24] == 56
  {
  }

  lemma VisibleEnds(b: bytes)
    requires b != [] && 33 <= b[0] < 128 && 33 <= b[|b| - 1] < 128
    ensures Trimmed(b)
  {
    assert b[..1] == [b[0]] && b[|b| - 1..] == [b[|b| - 1]];
    if |b| >= 2 { assert b[|b| - 2..][1] == b[|b| - 1]; }
    if |b| >= 3 { assert b[|b| - 3..][2] == b[|b| - 1]; }
  }

  /** Not three parts with single spaces, or an unreadable path: 400. A version the server does not know: 505. */
  lemma BadLineRefused(app: App, line: bytes, rest: bytes)
    requires CR !in line && |line| <= MAX_REQUEST_LINE
    ensures (forall m, p, w :: ThreeParts(line, m, p, w) ==> !ValidUtf8(p)) ==> Refused(app, line + CRLF + rest, 400)
    ensures (exists m, p, w :: ThreeParts(line, m, p, w) && ValidUtf8(p) && !VersionIs(Http10, w) && !VersionIs(Http11, w)) ==>
              Refused(app, line + CRLF + rest, 505)
  {
    hide ParseRequestLine, Parse, Refused, ThreeParts, ValidUtf8, VersionIs;
    var p := ParseRequestLine(line);
    RequestLineExactly(line, if p.Ok? then p.value else RequestLine(Get, [], Http11));
    LineAlone([], line, rest);
    if p.Err? { FailureRefused(app, line + CRLF + rest, p.error, []); }
  }

  /** More than the limit without a line end within it: 414. */
  lemma LongLineRefused(app: App, b: bytes)
    requires |b| > MAX_REQUEST_LINE
    requires forall i :: 0 <= i <= MAX_REQUEST_LINE && i + 1 < |b| ==> !(b[i] == CR && b[i + 1] == LF)
    ensures Refused(app, b, 414)
  {
    hide Parse, Refused;
    TooLongExactly([], b);
    var hs :| Parse([], b) == Failed(RequestLineTooLong, hs);
    FailureRefused(app, b, RequestLineTooLong, hs);
  }

  /** After good fields: past the ceiling 431, no field 400, one field too many 431. */
  lemma BadFieldRefused(app: App, r: Request, f: bytes, rest: bytes)
    requires GoodSoFar(r) && f != [] && CR !in f
    ensures var b := Start(r) + f + CRLF + rest; var room := |PrintFields(r.headers)| + |f| + 2 <= MAX_HEADER_BYTES;
            && (!room ==> Refused(app, b, 431))
            && (room && !IsField(f) ==> Refused(app, b, 400))
            && (room && IsField(f) && |r.headers| == MAX_HEADER_COUNT ==> Refused(app, b, 431))
  {
    hide Parse, Refused, Start, GoodSoFar, PrintFields, IsField;
    OneMoreLine(r, f, rest);
    var b := Start(r) + f + CRLF + rest;
    var o := Parse([], b);
    if o.Failed? { FailureRefused(app, b, o.error, o.headers); }
  }

  /** A header block that does not end within its ceiling: 431. */
  lemma LargeHeadRefused(app: App, r: Request, f: bytes, rest: bytes)
    requires GoodSoFar(r) && CR !in f
    ensures |PrintFields(r.headers)| + |f| > MAX_HEADER_BYTES ==> Refused(app, Start(r) + f, 431)
    ensures |PrintFields(r.headers)| + 2 > MAX_HEADER_BYTES ==> Refused(app, Start(r) + CRLF + rest, 431)
  {
    hide Parse, Refused, Start, GoodSoFar, PrintFields;
    if |PrintFields(r.headers)| + |f| > MAX_HEADER_BYTES {
      EndlessLine(r, f);
      FailureRefused(app, Start(r) + f, HeadersTooLarge, r.headers);
    }
    if |PrintFields(r.headers)| + 2 > MAX_HEADER_BYTES {
      EmptyLineTooLate(r, rest);
      FailureRefused(app, Start(r) + CRLF + rest, HeadersTooLarge, r.headers);
    }
  }

  /** A length over the ceiling: 413. One with a byte that is no digit, or that no usize can hold: 400. */
  lemma BadLengthRefused(app: App, r: Request, k: nat, n: nat, rest: bytes)
    requires Printable(r) && k < |r.headers| && FirstNamed(r.headers, LENGTH, k)
    ensures var v := r.headers[k].value; var b := PrintHead(r) + rest;
            && (v == Decimal(n) && MAX_BODY_BYTES < n < USIZE_LIMIT ==> Refused(app, b, 413))
            && (v == Decimal(n) && USIZE_LIMIT <= n ==> Refused(app, b, 400))
            && ((exists i :: 0 <= i < |v| && !IsDigit(v[i]) && (v[i] != '+' as byte || i > 0)) || v == [] ==> Refused(app, b, 400))
  {
    hide Parse, Refused, PrintHead, Printable, FirstNamed, Numeral, IsDigit, Decimal;
    BadLength(r, k, n, rest);
    DecimalIsNumeral(n);
    var v := r.headers[k].value;
    if i :| 0 <= i < |v| && !IsDigit(v[i]) && (v[i] != '+' as byte || i > 0) { NonDigitIsNoNumeral(v, i); }
    if v == [] { NothingIsNoNumeral(); }
    var o := Parse([], PrintHead(r) + rest);
    if o.Failed? { FailureRefused(app, PrintHead(r) + rest, o.error, o.headers); }
  }

  lemma NothingIsNoNumeral()
    ensures forall m :: !Numeral([], m)
  {
  }
}
