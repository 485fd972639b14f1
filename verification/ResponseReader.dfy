/** The load generator's response reader, against the server's encoder. */
module ResponseReader {
  import opened Bytes
  import opened Http
  import opened ResponseEncoding

  datatype ReadError = Eof | InvalidUtf8 | BadContentLength

  /** A header block: how many bytes it takes and the last Content-Length in it. */
  datatype Block = Block(length: nat, contentLength: nat)

  function Longer(n: nat, r: Result<Block, ReadError>): Result<Block, ReadError> {
    match r
    case Err(e) => Err(e)
    case Ok(h) => Ok(h.(length := n + h.length))
  }

  // ---- the reader on a byte string ----

  /** `read_line`: up to and including the first LF, or everything. */
  function TakeLine(s: bytes): (line: bytes)
    ensures line <= s && (s != [] ==> line != [])
  {
    var k := IndexOf(s, LF);
    if k == |s| then s else s[..k + 1]
  }

  function HeaderValue(line: bytes, name: bytes): Option<bytes> {
    var k := IndexOf(line, COLON);
    if k < |line| && EqIgnoreCase(Trim(line[..k]), name) then Some(line[k + 1..]) else None
  }

  const CONTENT_LENGTH: bytes := Ascii("content-length")

  /** Content-Length after one line: the last one wins. */
  function AfterLine(line: bytes, contentLength: nat): Result<nat, ReadError> {
    match HeaderValue(line, CONTENT_LENGTH)
    case None => Ok(contentLength)
    case Some(v) =>
      match ParseUsize(Trim(v))
      case None => Err(BadContentLength)
      case Some(n) => Ok(n)
  }

  function ReadHead(s: bytes, contentLength: nat): (r: Result<Block, ReadError>)
    ensures r.Ok? ==> r.value.length <= |s|
    decreases |s|
  {
    if s == [] then Err(Eof)
    else
      var line := TakeLine(s);
      if !ValidUtf8(line) then Err(InvalidUtf8)
      else if line == CRLF || line == [LF] then Ok(Block(|line|, contentLength))
      else match AfterLine(line, contentLength)
        case Err(e) => Err(e)
        case Ok(n) => Longer(|line|, ReadHead(s[|line|..], n))
  }

  /** The head goes on with `rest` after `length` bytes that left `after`. */
  function GoOn(after: Result<nat, ReadError>, length: nat, rest: bytes): Result<Block, ReadError> {
    match after
    case Err(e) => Err(e)
    case Ok(n) => Longer(length, ReadHead(rest, n))
  }

  /** How many bytes one call consumes. */
  function ReadResponse(s: bytes): (r: Result<nat, ReadError>)
    ensures r.Ok? ==> r.value <= |s|
  {
    match ReadHead(s, 0)
    case Err(e) => Err(e)
    case Ok(h) => if |s| - h.length < h.contentLength then Err(Eof) else Ok(h.length + h.contentLength)
  }

  lemma UnfoldHead(s: bytes, contentLength: nat)
    ensures var line := TakeLine(s);
            ReadHead(s, contentLength) ==
            if s == [] then Err(Eof)
            else if !ValidUtf8(line) then Err(InvalidUtf8)
            else if line == CRLF || line == [LF] then Ok(Block(|line|, contentLength))
            else GoOn(AfterLine(line, contentLength), |line|, s[|line|..])
    ensures s == [] ==> ValidUtf8(TakeLine(s))
  {
  }

  lemma LongerNothing(r: Result<Block, ReadError>)
    ensures Longer(0, r) == r
  {
  }

  /** What the rest of the head adds to a head of which `taken` bytes are read, one line at a time. */
  lemma LongerTwice(taken: nat, n: nat, s: bytes, contentLength: nat)
    requires n <= |s|
    ensures forall e :: Longer(taken, Err(e)) == Err(e)
    ensures Longer(taken, Ok(Block(n, contentLength))) == Ok(Block(taken + n, contentLength))
    ensures forall cl :: Longer(taken, Longer(n, ReadHead(s[n..], cl))) == Longer(taken + n, ReadHead(s[n..], cl))
  {
    hide ReadHead;
  }

  // ---- the reader as it runs ----

  /** A buffered reader over everything the server will send on this connection. */
  class Reader {
    var unread: bytes

    constructor (s: bytes)
      ensures unread == s
    {
      unread := s;
    }

    method ReadLine() returns (r: Result<bytes, ReadError>)
      modifies this
      ensures unread == old(unread)[|TakeLine(old(unread))|..]
      ensures r == if ValidUtf8(TakeLine(old(unread))) then Ok(TakeLine(old(unread))) else Err(InvalidUtf8)
    {
      var line := TakeLine(unread);
      unread := unread[|line|..];
      r := if ValidUtf8(line) then Ok(line) else Err(InvalidUtf8);
    }

    method ReadExact(n: nat) returns (r: Result<bytes, ReadError>)
      modifies this
      ensures if n <= old(|unread|) then r == Ok(old(unread)[..n]) && unread == old(unread)[n..] else r == Err(Eof)
    {
      if n > |unread| { return Err(Eof); }
      r := Ok(unread[..n]);
      unread := unread[n..];
    }

    /** The reading half of `send_and_read`: one response, exactly. */
    method ReadOne() returns (r: Result<(), ReadError>)
      modifies this
      ensures var expected := ReadResponse(old(unread));
              if expected.Ok? then r == Ok(()) && unread == old(unread)[expected.value..] else r == Err(expected.error)
    {
      hide ReadHead;
      var head := ReadHeadLines();
      if head.Err? { return Err(head.error); }
      var contentLength := head.value;
      if contentLength > 0 {
        var body := ReadExact(contentLength);
        if body.Err? { return Err(body.error); }
      }
      r := Ok(());
    }

    /** Its loop over the lines of the header block. */
    method ReadHeadLines() returns (r: Result<nat, ReadError>)
      modifies this
      ensures var expected := ReadHead(old(unread), 0);
              if expected.Ok? then r == Ok(expected.value.contentLength) && unread == old(unread)[expected.value.length..]
              else r == Err(expected.error)
    {
      hide ReadHead, ValidUtf8, AfterLine, TakeLine, Longer;
      var contentLength: nat := 0;
      ghost var all, taken: nat := unread, 0;
      LongerNothing(ReadHead(all, 0));
      while true
        invariant taken <= |all| && unread == all[taken..]
        invariant ReadHead(all, 0) == Longer(taken, ReadHead(unread, contentLength))
        decreases |unread|
      {
        ghost var before := unread;
        UnfoldHead(before, contentLength);
        LongerTwice(taken, |TakeLine(before)|, before, contentLength);
        var line := ReadLine();
        if line.Err? { return Err(line.error); }
        if |line.value| == 0 { return Err(Eof); }
        SliceAgain(all, taken, |line.value|);
        taken := taken + |line.value|;
        if line.value == CRLF || line.value == [LF] { return Ok(contentLength); }
        var n := AfterLine(line.value, contentLength);
        if n.Err? { return Err(n.error); }
        contentLength := n.value;
      }
    }
  }

  lemma SliceAgain(s: bytes, i: nat, j: nat)
    requires i + j <= |s|
    ensures s[i..][j..] == s[i + j..]
  {
  }

  // ---- one line of an encoded response ----

  /** A line the encoder writes: LF only at its end, and not the empty line. */
  predicate WireLine(line: bytes) {
    && line != [] && line[|line| - 1] == LF && LF !in line[..|line| - 1]
    && line != CRLF && line != [LF] && ValidUtf8(line)
  }

  lemma TakeWireLine(line: bytes, rest: bytes)
    requires line != [] && line[|line| - 1] == LF && LF !in line[..|line| - 1]
    ensures TakeLine(line + rest) == line
  {
    assert forall j :: 0 <= j < |line| - 1 ==> (line + rest)[j] == line[..|line| - 1][j];
    IndexOfAt(line + rest, LF, |line| - 1);
    assert (line + rest)[..|line|] == line;
  }

  lemma ReadWireLine(line: bytes, rest: bytes, contentLength: nat)
    requires WireLine(line)
    ensures ReadHead(line + rest, contentLength) == GoOn(AfterLine(line, contentLength), |line|, rest)
  {
    hide ValidUtf8, AfterLine, TakeLine;
    TakeWireLine(line, rest);
    assert (line + rest)[|line|..] == rest;
  }

  lemma ReadEmptyLine(rest: bytes, contentLength: nat)
    ensures ReadHead(CRLF + rest, contentLength) == Ok(Block(2, contentLength))
  {
    TakeWireLine(CRLF, rest);
    ValidUtf8Ascii(CRLF);
  }

  /** Text that may stand in a field: Rust strings are UTF-8; a line feed would end the line. */
  predicate FieldText(b: bytes) {
    ValidUtf8(b) && LF !in b
  }

  lemma FieldLineIsWireLine(name: bytes, value: bytes)
    requires FieldText(name) && FieldText(value)
    ensures WireLine(FieldLine(name, value))
  {
    hide ValidUtf8, Utf8Char;
    ValidUtf8Ascii([COLON]);
    ValidUtf8Ascii([SP]);
    ValidUtf8Ascii(CRLF);
    ValidUtf8Concat(name, [COLON]);
    ValidUtf8Concat([SP], value);
    ValidUtf8Concat([SP] + value, CRLF);
    ValidUtf8Concat(name + [COLON], [SP] + value + CRLF);
    var line := FieldLine(name, value);
    assert line[..|line| - 1] == name + [COLON] + ([SP] + value + [CR]);
    assert COLON in line && COLON !in CRLF;
  }

  /** ASCII text without control characters or a colon. */
  predicate Plain(b: bytes) {
    forall i :: 0 <= i < |b| ==> 32 <= b[i] < 128 && b[i] != COLON
  }

  lemma AsciiPlain(s: string)
    requires forall i :: 0 <= i < |s| ==> ' ' <= s[i] <= '~' && s[i] != ':'
    ensures Plain(Ascii(s)) && ValidUtf8(Ascii(s)) && |Ascii(s)| == |s|
    ensures ' ' !in s ==> Trimmed(Ascii(s))
  {
    hide ValidUtf8, Trimmed;
    assert forall i :: 0 <= i < |s| ==> Ascii(s)[i] as int == s[i] as int;
    hide Ascii;
    ValidUtf8Ascii(Ascii(s));
    if ' ' !in s { VisibleTrimmed(Ascii(s)); }
  }

  lemma ReasonText(status: StatusCode)
    ensures Plain(Reason(status))
  {
    hide Ascii, Plain;
    match status
    case 200 => AsciiPlain("OK");
    case 400 => AsciiPlain("Bad Request");
    case 404 => AsciiPlain("Not Found");
    case 405 => AsciiPlain("Method Not Allowed");
    case 413 => AsciiPlain("Payload Too Large");
    case 414 => AsciiPlain("URI Too Long");
    case 431 => AsciiPlain("Request Header Fields Too Large");
    case 500 => AsciiPlain("Internal Server Error");
    case 505 => AsciiPlain("HTTP Version Not Supported");
    case _ => AsciiPlain("Unknown");
  }

  lemma StatusLineIsHarmless(status: StatusCode, contentLength: nat)
    ensures WireLine(StatusLine(status))
    ensures AfterLine(StatusLine(status), contentLength) == Ok(contentLength)
  {
    ReasonText(status);
    AsciiPlain("HTTP/1.1 ");
    hide Reason, Decimal, Ascii, ValidUtf8;
    var line := StatusLine(status);
    assert forall i :: 0 <= i < |line| ==> line[i] < 128 && line[i] != COLON && (line[i] == LF <==> i == |line| - 1);
    ValidUtf8Ascii(line);
    IndexOfAt(line, COLON, |line|);
  }

  lemma ContentLengthField(length: nat, contentLength: nat)
    requires length < USIZE_LIMIT
    ensures var line := FieldLine(Ascii("Content-Length"), Decimal(length));
            WireLine(line) && AfterLine(line, contentLength) == Ok(length)
  {
    hide Decimal, ParseUsize, ValidUtf8, Ascii, EqIgnoreCase, Trimmed;
    var name, digits := Ascii("Content-Length"), Decimal(length);
    ContentLengthName();
    ValidUtf8Ascii(digits);
    FieldLineIsWireLine(name, digits);
    var line := FieldLine(name, digits);
    FieldSplits(name, digits);
    DecimalTrimmed(length);
    TrimField(digits);
    ParseDecimal(length);
  }

  lemma ContentLengthName()
    ensures var name := Ascii("Content-Length");
            COLON !in name && FieldText(name) && Trim(name) == name && EqIgnoreCase(name, CONTENT_LENGTH)
  {
    hide ValidUtf8, Ascii, Trimmed, EqIgnoreCase, Trim;
    AsciiPlain("Content-Length");
    SameLetters();
    TrimOneSpace(Ascii("Content-Length"));
  }

  lemma SameLetters()
    ensures EqIgnoreCase(Ascii("Content-Length"), Ascii("content-length"))
  {
    var a, b := Ascii("Content-Length"), Ascii("content-length");
    assert forall i :: 0 <= i < 14 ==> Lower(a[i]) == b[i];
    assert forall i :: 0 <= i < 14 ==> Lower(b[i]) == b[i];
  }

  lemma FieldSplits(name: bytes, value: bytes)
    requires COLON !in name
    ensures var line := FieldLine(name, value);
            && IndexOf(line, COLON) == |name| < |line|
            && line[..|name|] == name && line[|name| + 1..] == [SP] + value + CRLF
  {
    IndexOfAt(FieldLine(name, value), COLON, |name|);
  }

  lemma ConnectionField(keepAlive: bool, contentLength: nat)
    ensures var line := FieldLine(Ascii("Connection"), if keepAlive then Ascii("keep-alive") else Ascii("close"));
            WireLine(line) && AfterLine(line, contentLength) == Ok(contentLength)
  {
    hide ValidUtf8, Ascii, Trimmed, AfterLine, FieldLine, WireLine, Plain, EqIgnoreCase;
    PlainText("Connection");
    PlainText("keep-alive");
    PlainText("close");
    OtherName();
    OtherField(Ascii("Connection"), if keepAlive then Ascii("keep-alive") else Ascii("close"), contentLength);
  }

  lemma PlainText(s: string)
    requires forall i :: 0 <= i < |s| ==> '!' <= s[i] <= '~' && s[i] != ':'
    ensures FieldText(Ascii(s)) && COLON !in Ascii(s) && Trimmed(Ascii(s))
  {
    hide ValidUtf8, Ascii, Trimmed;
    AsciiPlain(s);
  }

  lemma OtherName()
    ensures !EqIgnoreCase(Ascii("Connection"), CONTENT_LENGTH)
  {
    assert |Ascii("Connection")| == 10 && |CONTENT_LENGTH| == 14;
  }

  lemma OtherField(name: bytes, value: bytes, contentLength: nat)
    requires FieldText(name) && FieldText(value) && COLON !in name && Trimmed(name) && !EqIgnoreCase(name, CONTENT_LENGTH)
    ensures WireLine(FieldLine(name, value)) && AfterLine(FieldLine(name, value), contentLength) == Ok(contentLength)
  {
    hide ParseUsize, ValidUtf8, Trimmed, Trim, FieldLine, WireLine, EqIgnoreCase;
    FieldLineIsWireLine(name, value);
    FieldSplits(name, value);
    TrimOneSpace(name);
  }

  // ---- one encoded response ----

  predicate Encodable(r: Response) {
    forall i :: 0 <= i < |r.headers| ==> FieldText(r.headers[i].name) && FieldText(r.headers[i].value)
  }

  /**
   The reader may take a caller's field for a Content-Length the encoder did not take for its own,
   say one with a space before its name. It does no harm as long as its value is a number.
   */
  predicate Harmless(h: Header) {
    Owned(h) || AfterLine(FieldLine(h.name, h.value), 0).Ok?
  }

  predicate AllHarmless(hs: Headers) {
    forall i :: 0 <= i < |hs| ==> Harmless(hs[i])
  }

  /** Content-Length as the reader has it after the caller's fields. */
  function AfterFields(hs: Headers, contentLength: nat): Result<nat, ReadError> {
    if hs == [] then Ok(contentLength)
    else if Owned(hs[0]) then AfterFields(hs[1..], contentLength)
    else
      match AfterLine(FieldLine(hs[0].name, hs[0].value), contentLength)
      case Err(e) => Err(e)
      case Ok(n) => AfterFields(hs[1..], n)
  }

  lemma {:induction false} AfterFieldsIffHarmless(hs: Headers, contentLength: nat)
    ensures AllHarmless(hs) <==> AfterFields(hs, contentLength).Ok?
    ensures !AllHarmless(hs) <==> AfterFields(hs, contentLength) == Err(BadContentLength)
    decreases |hs|
  {
    hide FieldLine, Owned, HeaderValue, ParseUsize, Trim;
    if hs != [] {
      HarmlessCons(hs);
      var n := AfterLine(FieldLine(hs[0].name, hs[0].value), contentLength);
      AfterFieldsIffHarmless(hs[1..], if n.Ok? && !Owned(hs[0]) then n.value else contentLength);
    }
  }

  lemma HarmlessCons(hs: Headers)
    requires hs != []
    ensures AllHarmless(hs) <==> Harmless(hs[0]) && AllHarmless(hs[1..])
  {
    hide Harmless;
    assert forall i :: 0 <= i < |hs[1..]| ==> hs[1..][i] == hs[i + 1];
    if Harmless(hs[0]) && AllHarmless(hs[1..]) {
      forall i | 0 <= i < |hs| ensures Harmless(hs[i]) {
        if i > 0 { assert Harmless(hs[1..][i - 1]); }
      }
    }
  }

  lemma {:induction false} ReadUserFields(hs: Headers, rest: bytes, contentLength: nat)
    requires forall i :: 0 <= i < |hs| ==> FieldText(hs[i].name) && FieldText(hs[i].value)
    ensures ReadHead(UserFields(hs) + rest, contentLength) == GoOn(AfterFields(hs, contentLength), |UserFields(hs)|, rest)
    decreases |hs|
  {
    hide ReadHead, FieldText, Owned, AfterLine, FieldLine, AllHarmless;
    if hs == [] {
      assert UserFields(hs) + rest == rest;
    } else if Owned(hs[0]) {
      assert [] + UserFields(hs[1..]) == UserFields(hs[1..]);
      ReadUserFields(hs[1..], rest, contentLength);
    } else {
      var line := FieldLine(hs[0].name, hs[0].value);
      FieldLineIsWireLine(hs[0].name, hs[0].value);
      assert UserFields(hs) + rest == line + (UserFields(hs[1..]) + rest);
      ReadWireLine(line, UserFields(hs[1..]) + rest, contentLength);
      var n := AfterLine(line, contentLength);
      if n.Ok? { ReadUserFields(hs[1..], rest, n.value); }
    }
  }

  /** The whole head is read to the Content-Length the encoder wrote, whatever the fields before it said. */
  lemma ReadEncodedHead(r: Response, keepAlive: bool, rest: bytes)
    requires Encodable(r)
    ensures var head := Encode(r, keepAlive, false);
            ReadHead(head + rest, 0) ==
            if AllHarmless(r.headers) then Ok(Block(|head|, |r.body|)) else Err(BadContentLength)
  {
    hide ReadHead, FieldText, UserFields, FieldLine, AfterFields, StatusLine, AfterLine, Decimal, AllHarmless, WireLine;
    var status, user := StatusLine(r.status), UserFields(r.headers);
    var length := FieldLine(Ascii("Content-Length"), Decimal(|r.body|));
    var connection := FieldLine(Ascii("Connection"), if keepAlive then Ascii("keep-alive") else Ascii("close"));
    var s3 := CRLF + rest;
    var s2 := connection + s3;
    var s1 := length + s2;
    var s0 := user + s1;
    assert Encode(r, keepAlive, false) + rest == status + s0;
    StatusLineIsHarmless(r.status, 0);
    ReadWireLine(status, s0, 0);
    ReadUserFields(r.headers, s1, 0);
    AfterFieldsIffHarmless(r.headers, 0);
    var after := AfterFields(r.headers, 0);
    if after.Ok? {
      ContentLengthField(|r.body|, after.value);
      ReadWireLine(length, s2, after.value);
      ConnectionField(keepAlive, |r.body|);
      ReadWireLine(connection, s3, |r.body|);
      ReadEmptyLine(rest, |r.body|);
    }
  }

  /**
   One call consumes one response, exactly, whatever comes after it: if and only if every field the
   reader mistakes for a Content-Length has a number for its value.
   */
  lemma OneResponsePerCall(r: Response, keepAlive: bool, rest: bytes)
    requires Encodable(r)
    ensures ReadResponse(Encode(r, keepAlive, true) + rest) == Ok(|Encode(r, keepAlive, true)|)
            <==> AllHarmless(r.headers)
  {
    hide ReadHead, StatusLine, UserFields, OwnFields, AllHarmless;
    var e, head := Encode(r, keepAlive, true), Encode(r, keepAlive, false);
    ReadEncodedHead(r, keepAlive, r.body + rest);
    assert e + rest == head + (r.body + rest);
  }

  /** A reply to HEAD keeps its Content-Length; this reader, which never sends HEAD, is right about it only without a body. */
  lemma HeadReply(r: Response, keepAlive: bool, rest: bytes)
    requires Encodable(r) && AllHarmless(r.headers)
    ensures ReadResponse(Encode(r, keepAlive, false) + rest) == Ok(|Encode(r, keepAlive, false)|) <==> r.body == []
  {
    hide ReadHead, StatusLine, UserFields, OwnFields, AllHarmless;
    ReadEncodedHead(r, keepAlive, rest);
  }

  /** Names without a colon or outer white space, as the encoder's callers use, are always harmless. */
  lemma TrimmedNamesAreHarmless(h: Header)
    requires Trimmed(h.name) && COLON !in h.name
    ensures Harmless(h)
  {
    hide EqIgnoreCase;
    FieldSplits(h.name, h.value);
    TrimOneSpace(h.name);
  }

  // ---- a connection's worth ----

  function EncodeAll(rs: seq<Response>, keepAlive: bool): bytes {
    if rs == [] then [] else Encode(rs[0], keepAlive, true) + EncodeAll(rs[1..], keepAlive)
  }

  /** As many calls as responses: the bytes left, or the first error. */
  function ReadMany(s: bytes, calls: nat): Result<bytes, ReadError> {
    if calls == 0 then Ok(s)
    else match ReadResponse(s)
      case Err(e) => Err(e)
      case Ok(n) => ReadMany(s[n..], calls - 1)
  }

  lemma {:induction false} ManyResponses(rs: seq<Response>, keepAlive: bool, rest: bytes)
    requires forall i :: 0 <= i < |rs| ==> Encodable(rs[i]) && AllHarmless(rs[i].headers)
    ensures ReadMany(EncodeAll(rs, keepAlive) + rest, |rs|) == Ok(rest)
    decreases |rs|
  {
    hide ReadResponse, Encode, Encodable, AllHarmless;
    var s := EncodeAll(rs, keepAlive) + rest;
    if rs == [] {
      assert s == rest;
    } else {
      var e, tail := Encode(rs[0], keepAlive, true), EncodeAll(rs[1..], keepAlive) + rest;
      assert s == e + tail;
      OneResponsePerCall(rs[0], keepAlive, tail);
      assert s[|e|..] == tail;
      ManyResponses(rs[1..], keepAlive, rest);
    }
  }
}
