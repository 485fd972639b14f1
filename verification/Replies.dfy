/** What a client sees on the wire: the reply to each request, the reply to each mistake, and what happens next. */
module Replies {
  import opened Bytes
  import opened Http
  import opened Texts
  import opened RequestSpec
  import opened RequestMeaning
  import opened RequestRoundTrip
  import opened ResponseEncoding
  import opened ResponseReader
  import opened Connections
  import opened Refinement

  // ---- reading a reply ----

  /** The second word of the first line. */
  function WireStatus(e: bytes): Option<nat> {
    var words := Split(TakeLine(e), SP);
    if |words| >= 2 then ParseUsize(words[1]) else None
  }

  /** Name and value of each line up to the empty one. */
  function FieldsFrom(s: bytes): Headers
    decreases |s|
  {
    var line := TakeLine(s);
    if s == [] || line == CRLF || line == [LF] then []
    else
      var k := IndexOf(line, COLON);
      (if k == |line| then [] else [Header(Trim(line[..k]), Trim(line[k + 1..]))]) + FieldsFrom(s[|line|..])
  }

  /** The fields after the first line. */
  function WireFields(e: bytes): Headers {
    FieldsFrom(e[|TakeLine(e)|..])
  }

  // ---- an encoded response, read ----

  predicate Clean(h: Header) {
    FieldText(h.name) && FieldText(h.value) && Trimmed(h.name) && COLON !in h.name && Trimmed(h.value)
  }

  /** The fields other than Content-Length and Connection, however spelled. */
  function Others(hs: Headers): Headers {
    if hs == [] then []
    else (if Spelled(hs[0].name, LENGTH) || Spelled(hs[0].name, CONNECTION) then [] else [hs[0]]) + Others(hs[1..])
  }

  lemma OneField(name: bytes, value: bytes, rest: bytes)
    requires Clean(Header(name, value))
    ensures FieldsFrom(FieldLine(name, value) + rest) == [Header(name, value)] + FieldsFrom(rest)
  {
    hide FieldText, Trimmed, Trim, IndexOf, TakeLine, FieldLine, WireLine, ValidUtf8;
    var line := FieldLine(name, value);
    FieldLineIsWireLine(name, value);
    IsWireLine(line, rest);
    FieldSplits(name, value);
    TrimOneSpace(name);
    TrimField(value);
    assert (line + rest)[|line|..] == rest;
  }

  lemma IsWireLine(line: bytes, rest: bytes)
    requires WireLine(line)
    ensures TakeLine(line + rest) == line && line != CRLF && line != [LF] && line != []
  {
    TakeWireLine(line, rest);
  }

  lemma {:induction false} UserFieldsRead(hs: Headers, rest: bytes)
    requires forall i :: 0 <= i < |hs| ==> Clean(hs[i])
    ensures FieldsFrom(UserFields(hs) + rest) == Others(hs) + FieldsFrom(rest)
    decreases |hs|
  {
    hide FieldsFrom, Clean, Spelled, EqIgnoreCase, FieldLine;
    if hs == [] {
      assert UserFields(hs) + rest == rest;
    } else {
      OwnedExactly(hs[0]);
      UserFieldsRead(hs[1..], rest);
      if Owned(hs[0]) {
        assert [] + UserFields(hs[1..]) == UserFields(hs[1..]);
      } else {
        var line := FieldLine(hs[0].name, hs[0].value);
        assert UserFields(hs) + rest == line + (UserFields(hs[1..]) + rest);
        OneField(hs[0].name, hs[0].value, UserFields(hs[1..]) + rest);
      }
    }
  }

  lemma OwnedExactly(h: Header)
    ensures Owned(h) <==> Spelled(h.name, LENGTH) || Spelled(h.name, CONNECTION)
  {
    hide Spelled, EqIgnoreCase;
    WordsAreSmall();
    MatchesAnySpelling(h.name, LENGTH);
    MatchesAnySpelling(h.name, CONNECTION);
  }

  function OwnWords(length: nat, keepAlive: bool): Headers {
    [Header(Ascii("Content-Length"), Decimal(length)), Header(Ascii("Connection"), if keepAlive then Ascii("keep-alive") else Ascii("close"))]
  }

  lemma OwnFieldsRead(length: nat, keepAlive: bool, rest: bytes)
    ensures FieldsFrom(OwnFields(length, keepAlive) + (CRLF + rest)) == OwnWords(length, keepAlive)
  {
    OwnWordsClean(length, keepAlive);
    hide FieldLine, Clean, Ascii, Decimal;
    var w := OwnWords(length, keepAlive);
    var a, b, s := FieldLine(w[0].name, w[0].value), FieldLine(w[1].name, w[1].value), CRLF + rest;
    assert OwnFields(length, keepAlive) + s == a + (b + s);
    OneField(w[0].name, w[0].value, b + s);
    OneField(w[1].name, w[1].value, s);
    TakeWireLine(CRLF, rest);
    assert FieldsFrom(s) == [];
    assert [w[0]] + ([w[1]] + []) == w;
  }

  lemma OwnWordsClean(length: nat, keepAlive: bool)
    ensures forall i :: 0 <= i < 2 ==> Clean(OwnWords(length, keepAlive)[i])
  {
    hide ValidUtf8, Trimmed, Decimal;
    AsciiPlain("Content-Length");
    AsciiPlain("Connection");
    AsciiPlain("keep-alive");
    AsciiPlain("close");
    var d := Decimal(length);
    ValidUtf8Ascii(d);
    DecimalTrimmed(length);
    assert forall i :: 0 <= i < |d| ==> IsDigit(d[i]);
    hide Ascii;
  }

  /** Status and fields of an encoded response are read back, its own two fields in place of the caller's. */
  lemma EncodedIsRead(r: Response, keepAlive: bool, includeBody: bool)
    requires forall i :: 0 <= i < |r.headers| ==> Clean(r.headers[i])
    ensures var e := Encode(r, keepAlive, includeBody);
            WireStatus(e) == Some(r.status) && WireFields(e) == Others(r.headers) + OwnWords(|r.body|, keepAlive)
  {
    hide FieldsFrom, UserFields, OwnFields, OwnWords, WireLine, Decimal, Reason, Clean, StatusLine, Others, TakeLine, Split;
    StatusLineIsHarmless(r.status, 0);
    var e := Encode(r, keepAlive, includeBody);
    var status, body := StatusLine(r.status), if includeBody then r.body else [];
    var own := OwnFields(|r.body|, keepAlive) + (CRLF + body);
    var after := UserFields(r.headers) + own;
    Decompose(status, UserFields(r.headers), OwnFields(|r.body|, keepAlive), body);
    assert e == status + after;
    IsWireLine(status, after);
    assert e[|status|..] == after;
    UserFieldsRead(r.headers, own);
    OwnFieldsRead(|r.body|, keepAlive, body);
    StatusRead(r.status);
  }

  lemma Decompose(status: bytes, user: bytes, own: bytes, body: bytes)
    ensures status + (user + (own + CRLF)) + body == status + (user + (own + (CRLF + body)))
  {
  }

  lemma StatusRead(status: StatusCode)
    ensures var words := Split(StatusLine(status), SP); |words| >= 2 && ParseUsize(words[1]) == Some(status)
  {
    hide Reason, ParseUsize, Decimal, Split;
    var line, d, tail := StatusLine(status), Decimal(status), Reason(status) + CRLF;
    assert Ascii("HTTP/1.1 ") == Ascii("HTTP/1.1") + [SP] && SP !in Ascii("HTTP/1.1");
    assert SP !in d by { assert forall i :: 0 <= i < |d| ==> IsDigit(d[i]); }
    hide Ascii;
    assert line == Ascii("HTTP/1.1") + [SP] + (d + [SP] + tail);
    SplitFirst(Ascii("HTTP/1.1"), SP, d + [SP] + tail);
    SplitFirst(d, SP, tail);
    ParseDecimal(status);
  }

  // ---- the reply to a request ----

  /** The connection after the request has been fed, and after its whole reply has been written. */
  function Replying(app: App, b: bytes): Run {
    Step(app, START, Feed(b))
  }

  function Replied(app: App, b: bytes): Run {
    var s := Replying(app, b);
    Step(app, s, Wrote(|s.conn.Pending()|))
  }

  lemma ReplyPending(app: App, b: bytes)
    requires Parse([], b).Complete?
    ensures var s, r := Replying(app, b), Parse([], b).request;
            && s.conn.phase == Writing && s.conn.Pending() == Reply(app, r)
            && s.conn.closeAfterWrite == !r.WantsKeepAlive()
            && Replied(app, b).conn.phase == if r.WantsKeepAlive() then Reading else Closed
  {
    hide Reply, Parse, Request.WantsKeepAlive;
    var r := Parse([], b).request;
    assert [] + b == b;
    assert Reply(app, r) != [] by { ReplyNotEmpty(app, r); }
    assert Replying(app, b).conn.Pending() == Reply(app, r)[0..];
  }

  lemma ReplyNotEmpty(app: App, r: Request)
    ensures Reply(app, r) != []
  {
  }

  /**
   Whether a connection stays open after a reply, from the request's bytes: without a Connection field it does
   for HTTP/1.1 only; with one it does unless "close" is listed for HTTP/1.1, if "keep-alive" is for HTTP/1.0.
   */
  lemma StaysOpenExactly(app: App, r: Request)
    requires Sendable(r)
    ensures var phase := Replied(app, Print(r)).conn.phase;
            && (phase == Reading || phase == Closed)
            && (NoneNamed(r.headers, CONNECTION) ==> (phase == Reading <==> r.version == Http11))
            && forall k: nat :: FirstNamed(r.headers, CONNECTION, k) ==>
                 && (r.version == Http11 ==> (phase == Reading <==> !Lists(r.headers[k].value, CLOSE)))
                 && (r.version == Http10 ==> (phase == Reading <==> Lists(r.headers[k].value, KEEP_ALIVE)))
  {
    hide Replied, Parse, Print, Sendable, Request.WantsKeepAlive, Lists, FirstNamed, NoneNamed;
    ParseTwice(r);
    ReplyPending(app, Print(r));
    KeptExactly(r);
  }

  /**
   What the reply to any request says on the wire is what the handler answered and what the connection then does:
   a head that ends where a reader finds its end, and after it the handler's body, unless the request was HEAD.
   */
  lemma ReplyMeansWhatItSays(app: App, b: bytes)
    requires Parse([], b).Complete?
    requires var hs := app(Parse([], b).request).headers; forall i :: 0 <= i < |hs| ==> Clean(hs[i])
    ensures var r, reply := Parse([], b).request, Replying(app, b).conn.Pending();
            var response, stays := app(r), Replied(app, b).conn.phase == Reading;
            && WireStatus(reply) == Some(response.status)
            && WireFields(reply) == Others(response.headers) + OwnWords(|response.body|, stays)
            && exists head :: ReadHead(head, 0) == Ok(Block(|head|, |response.body|))
                              && reply == head + if r.verb == Head then [] else response.body
  {
    hide Replying, Replied, Parse, Request.WantsKeepAlive, WireStatus, WireFields, OwnWords, Encode, Clean;
    ReplyPending(app, b);
    var r := Parse([], b).request;
    EncodedIsRead(app(r), r.WantsKeepAlive(), r.verb != Head);
    HeadThenBody(app(r), r.WantsKeepAlive(), r.verb != Head);
  }

  lemma HeadThenBody(r: Response, keepAlive: bool, includeBody: bool)
    requires forall i :: 0 <= i < |r.headers| ==> Clean(r.headers[i])
    ensures var head := Encode(r, keepAlive, false);
            && ReadHead(head, 0) == Ok(Block(|head|, |r.body|))
            && Encode(r, keepAlive, includeBody) == head + if includeBody then r.body else []
  {
    hide ReadHead, StatusLine, UserFields, OwnFields, Harmless, Trimmed;
    forall i | 0 <= i < |r.headers| ensures Harmless(r.headers[i]) { TrimmedNamesAreHarmless(r.headers[i]); }
    ReadEncodedHead(r, keepAlive, []);
    var head := Encode(r, keepAlive, false);
    assert head + [] == head;
  }

  /** HEAD is answered as GET would be, without the body. */
  lemma HeadLeavesTheBodyOut(app: App, get: Request, head: Request)
    requires Sendable(get) && Sendable(head) && get.verb == Get && head == get.(verb := Head) && app(head) == app(get)
    ensures Replying(app, Print(get)).conn.Pending() == Replying(app, Print(head)).conn.Pending() + app(get).body
    ensures Replied(app, Print(get)).conn.phase == Replied(app, Print(head)).conn.phase
  {
    hide Replying, Replied, Parse, Print, Sendable, StatusLine, UserFields, OwnFields;
    ParseTwice(get);
    ParseTwice(head);
    ReplyPending(app, Print(get));
    ReplyPending(app, Print(head));
    var h := StatusLine(app(get).status) + (UserFields(app(get).headers) + (OwnFields(|app(get).body|, get.WantsKeepAlive()) + CRLF));
    assert Encode(app(get), get.WantsKeepAlive(), false) == h + [] == h;
  }
}
