/** What reset leaves behind: runs of push and reset against a parser that is new to the same bytes. */
module Resets {
  import opened Bytes
  import opened Http
  import opened RequestSpec
  import opened RequestMeaning
  import opened RequestParsing
  import opened RequestRoundTrip

  // ---- runs ----

  datatype Call = Pushed(chunk: bytes) | WasReset

  function CallOnce(p: Parser, call: Call): (Parser, seq<ParseStatus>) {
    match call
    case Pushed(chunk) => var (q, status) := PushView(p, chunk); (q, [status])
    case WasReset => (ResetView(p), [])
  }

  /** The parser after the calls, and what the pushes among them returned. */
  function CallAll(p: Parser, calls: seq<Call>): (Parser, seq<ParseStatus>)
    decreases |calls|
  {
    if calls == [] then (p, [])
    else
      var (q, first) := CallOnce(p, calls[0]);
      var (t, others) := CallAll(q, calls[1..]);
      (t, first + others)
  }

  function Statuses(p: Parser, calls: seq<Call>): seq<ParseStatus> {
    CallAll(p, calls).1
  }

  /** A parser that has never seen anything but the bytes it holds. */
  function NewWith(buf: bytes): Parser {
    Parser([], buf, false, [])
  }

  // ---- a header list before the fields ----

  function HeadersOf(o: Outcome): Headers {
    match o
    case NeedMore(hs) => hs
    case Failed(_, hs) => hs
    case Complete(r, _) => r.headers
  }

  /** The fields of the request at the front of `b`, as far as they have been taken. */
  function Taken(b: bytes): Headers {
    HeadersOf(Parse([], b))
  }

  function WithCarried(carried: Headers, o: Outcome): Outcome {
    match o
    case NeedMore(hs) => NeedMore(carried + hs)
    case Failed(e, hs) => Outcome.Failed(e, carried + hs)
    case Complete(r, c) => Outcome.Complete(r.(headers := carried + r.headers), c)
  }

  /** Every field of `hs` is one of `own`, and a name found in `hs` is found in `own` with the same value. */
  ghost predicate From(hs: Headers, own: Headers) {
    && (forall h :: h in hs ==> h in own)
    && (forall name :: HeaderGet(hs, name).Some? ==> HeaderGet(own, name) == HeaderGet(hs, name))
  }

  lemma {:induction false} LookupInTwo(a: Headers, b: Headers, name: bytes)
    ensures HeaderGet(a + b, name) == if HeaderGet(a, name).Some? then HeaderGet(a, name) else HeaderGet(b, name)
  {
    if a == [] {
      assert a + b == b;
    } else {
      assert (a + b)[0] == a[0] && (a + b)[1..] == a[1..] + b;
      LookupInTwo(a[1..], b, name);
    }
  }

  lemma FromGrows(hs: Headers, own: Headers, more: Headers)
    requires From(hs, own)
    ensures From(hs, own + more)
  {
    forall name ensures HeaderGet(hs, name).Some? ==> HeaderGet(own + more, name) == HeaderGet(hs, name) {
      LookupInTwo(own, more, name);
    }
  }

  lemma FromBoth(hs: Headers, own: Headers)
    requires From(hs, own)
    ensures From(hs + own, own)
  {
    forall name ensures HeaderGet(hs + own, name).Some? ==> HeaderGet(own, name) == HeaderGet(hs + own, name) {
      LookupInTwo(hs, own, name);
    }
  }

  lemma FramedAlike(carried: Headers, own: Headers)
    requires From(carried, own)
    ensures ContentLength(carried + own) == ContentLength(own)
  {
    LookupInTwo(carried, own, Ascii("content-length"));
  }

  lemma {:induction false} FieldsAfterCarried(carried: Headers, b: bytes, line: RequestLine, block: nat, at: nat,
                                              hs: Headers, count: nat)
    requires block <= at <= |b|
    requires From(carried, HeadersOf(ParseFields(b, line, block, at, hs, count)))
    ensures ParseFields(b, line, block, at, carried + hs, count)
            == WithCarried(carried, ParseFields(b, line, block, at, hs, count))
    decreases |b| - at
  {
    hide From, FindCrlf, ContentLength, ParseHeaderLine;
    match FindCrlf(b, at)
    case None =>
    case Some(eol) =>
      if eol + 2 - block <= MAX_HEADER_BYTES {
        if eol == at {
          FramedAlike(carried, hs);
        } else {
          var r := TakeField(b[at..eol], hs, count);
          if r.Ok? {
            FieldsAfterCarried(carried, b, line, block, eol + 2, r.value, count + 1);
            assert (carried + hs) + [r.value[|hs|]] == carried + r.value;
          }
        }
      }
  }

  /** With a list carried that repeats the request's own fields, only the list itself comes out differently. */
  lemma ParseAfterCarried(carried: Headers, b: bytes)
    requires From(carried, Taken(b))
    ensures Parse(carried, b) == WithCarried(carried, Parse([], b))
  {
    hide From, FindCrlf, ParseRequestLine, ParseFields;
    assert carried + [] == carried;
    match FindCrlf(b, 0)
    case None =>
    case Some(eol) =>
      if eol <= MAX_REQUEST_LINE && ParseRequestLine(b[..eol]).Ok? {
        FieldsAfterCarried(carried, b, ParseRequestLine(b[..eol]).value, eol + 2, eol + 2, [], 0);
      }
  }

  lemma {:induction false} FieldsOnlyGrow(b: bytes, line: RequestLine, block: nat, at: nat, hs: Headers, count: nat)
    requires block <= at <= |b|
    ensures hs <= HeadersOf(ParseFields(b, line, block, at, hs, count))
    decreases |b| - at
  {
    hide FindCrlf, ContentLength, ParseHeaderLine;
    match FindCrlf(b, at)
    case None =>
    case Some(eol) =>
      if eol != at && eol + 2 - block <= MAX_HEADER_BYTES {
        var r := TakeField(b[at..eol], hs, count);
        if r.Ok? { FieldsOnlyGrow(b, line, block, eol + 2, r.value, count + 1); }
      }
  }

  lemma {:induction false} FieldsKeepTaken(a: bytes, s: bytes, line: RequestLine, block: nat, at: nat, hs: Headers, count: nat)
    requires a <= s && block <= at <= |a|
    ensures HeadersOf(ParseFields(a, line, block, at, hs, count)) <= HeadersOf(ParseFields(s, line, block, at, hs, count))
    decreases |a| - at
  {
    hide ParseFields, FindCrlf, TakeField;
    FindCrlfExtends(a, s, at);
    TakenAt(a, line, block, at, hs, count);
    TakenAt(s, line, block, at, hs, count);
    FieldsOnlyGrow(s, line, block, at, hs, count);
    match FindCrlf(a, at)
    case None =>
    case Some(eol) =>
      assert a[at..eol] == s[at..eol];
      if eol != at && eol + 2 - block <= MAX_HEADER_BYTES {
        var r := TakeField(a[at..eol], hs, count);
        if r.Ok? { FieldsKeepTaken(a, s, line, block, eol + 2, r.value, count + 1); }
      }
  }

  /** The headers a block of fields comes to, one line at a time. */
  lemma TakenAt(b: bytes, line: RequestLine, block: nat, at: nat, hs: Headers, count: nat)
    requires block <= at <= |b|
    ensures HeadersOf(ParseFields(b, line, block, at, hs, count))
            == match FindCrlf(b, at)
               case None => hs
               case Some(eol) =>
                 if eol + 2 - block > MAX_HEADER_BYTES || eol == at then hs
                 else match TakeField(b[at..eol], hs, count)
                   case Err(_) => hs
                   case Ok(more) => HeadersOf(ParseFields(b, line, block, eol + 2, more, count + 1))
  {
    hide FindCrlf, TakeField, EndFields;
    var r := FindCrlf(b, at);
    if r == Some(at) { EndKeepsHeaders(b, line, at + 2, hs); }
  }

  lemma EndKeepsHeaders(b: bytes, line: RequestLine, bodyStart: nat, hs: Headers)
    requires bodyStart <= |b|
    ensures HeadersOf(EndFields(b, line, bodyStart, hs)) == hs
  {
  }

  lemma TakenGrows(b: bytes, more: bytes)
    ensures Taken(b) <= Taken(b + more)
  {
    hide FindCrlf, ParseRequestLine, ParseFields;
    FindCrlfExtends(b, b + more, 0);
    match FindCrlf(b, 0)
    case None =>
    case Some(eol) =>
      assert b[..eol] == (b + more)[..eol];
      var line := ParseRequestLine(b[..eol]);
      if eol <= MAX_REQUEST_LINE && line.Ok? { FieldsKeepTaken(b, b + more, line.value, eol + 2, eol + 2, [], 0); }
  }

  lemma FromTakenGrows(hs: Headers, b: bytes, more: bytes)
    requires From(hs, Taken(b))
    ensures From(hs, Taken(b + more))
  {
    hide From, Taken;
    TakenGrows(b, more);
    var t := Taken(b + more);
    assert t == Taken(b) + t[|Taken(b)|..];
    FromGrows(hs, Taken(b), t[|Taken(b)|..]);
  }

  // ---- what every run keeps ----

  /** Whatever header list the parser holds was read from the request still at the front of its buffer. */
  ghost predicate OwnFields(p: Parser) {
    From(p.headers, Taken(p.buf)) && (!p.done ==> From(p.carried, Taken(p.buf)))
  }

  lemma CallKeepsOwnFields(p: Parser, call: Call)
    requires OwnFields(p)
    ensures OwnFields(CallOnce(p, call).0)
  {
    match call
    case WasReset =>
    case Pushed(chunk) =>
      FromTakenGrows(p.headers, p.buf, chunk);
      if !p.done {
        FromTakenGrows(p.carried, p.buf, chunk);
        PushOwnFields(p, chunk);
      }
  }

  lemma PushOwnFields(p: Parser, chunk: bytes)
    requires !p.done && From(p.carried, Taken(p.buf + chunk))
    ensures OwnFields(PushView(p, chunk).0)
  {
    ParseAfterCarried(p.carried, p.buf + chunk);
    FromBoth(p.carried, Taken(p.buf + chunk));
    hide Parse;
    assert forall hs :: From([], hs);
  }

  lemma {:induction false} RunOwnsItsFields(p: Parser, calls: seq<Call>)
    requires OwnFields(p)
    ensures OwnFields(CallAll(p, calls).0)
    decreases |calls|
  {
    hide OwnFields, CallOnce;
    if calls != [] {
      CallKeepsOwnFields(p, calls[0]);
      RunOwnsItsFields(CallOnce(p, calls[0]).0, calls[1..]);
    }
  }

  /**
   On any run from a new parser, wherever it was reset: a request is the one its own bytes spell, with fields
   of its own before it if it was reset while unfinished. No field of an earlier request ever reaches it.
   */
  lemma NoFieldFromBefore(calls: seq<Call>, chunk: bytes)
    ensures var p := CallAll(FRESH, calls).0; var status := PushView(p, chunk).1;
            status.Complete? ==>
              var all := p.buf + chunk;
              && status.consumed <= |all|
              && var own := Parse([], all[..status.consumed]);
                 && own.Complete? && own.consumed == status.consumed
                 && status.request == own.request.(headers := p.carried + own.request.headers)
                 && forall h :: h in status.request.headers ==> h in own.request.headers
  {
    hide Parse, OwnFields;
    RunOwnsItsFields(FRESH, calls) by { FreshOwnsNothing(); }
    var p := CallAll(FRESH, calls).0;
    if !p.done { OwnRequest(p, chunk); }
  }

  lemma FreshOwnsNothing()
    ensures OwnFields(FRESH)
  {
  }

  lemma OwnRequest(p: Parser, chunk: bytes)
    requires OwnFields(p) && !p.done
    ensures Parse(p.carried, p.buf + chunk) == WithCarried(p.carried, Parse([], p.buf + chunk))
    ensures var o := Parse([], p.buf + chunk);
            o.Complete? ==>
              && o.consumed <= |p.buf + chunk| && Parse([], (p.buf + chunk)[..o.consumed]) == o
              && forall h :: h in p.carried ==> h in o.request.headers
  {
    hide Parse;
    FromTakenGrows(p.carried, p.buf, chunk);
    ParseAfterCarried(p.carried, p.buf + chunk);
    if Parse([], p.buf + chunk).Complete? { CompleteOnItsOwnBytes([], p.buf + chunk); }
  }

  // ---- when a reset parser is as good as a new one ----

  ghost predicate NeverCompletes(b: bytes) {
    forall more: bytes :: !Parse([], b + more).Complete?
  }

  /** The same bytes, and each with fields of its own only, of a request that will not be returned. */
  ghost predicate Alike(p: Parser, q: Parser) {
    p.buf == q.buf && p.done == q.done && OwnFields(p) && OwnFields(q) && NeverCompletes(p.buf)
  }

  lemma CallsAlike(p: Parser, q: Parser, call: Call)
    requires Alike(p, q)
    ensures Alike(CallOnce(p, call).0, CallOnce(q, call).0)
    ensures CallOnce(p, call).1 == CallOnce(q, call).1
  {
    hide OwnFields, Parse;
    CallKeepsOwnFields(p, call);
    CallKeepsOwnFields(q, call);
    if call.Pushed? {
      var all := p.buf + call.chunk;
      forall more: bytes ensures !Parse([], all + more).Complete? {
        assert all + more == p.buf + (call.chunk + more);
      }
      assert all + [] == all && !Parse([], all).Complete?;
      if !p.done {
        OwnRequest(p, call.chunk);
        OwnRequest(q, call.chunk);
      }
    }
  }

  lemma {:induction false} StayAlike(p: Parser, q: Parser, calls: seq<Call>)
    requires Alike(p, q)
    ensures Statuses(p, calls) == Statuses(q, calls)
    decreases |calls|
  {
    hide Alike, CallOnce;
    if calls != [] {
      CallsAlike(p, q, calls[0]);
      StayAlike(CallOnce(p, calls[0]).0, CallOnce(q, calls[0]).0, calls[1..]);
    }
  }

  /**
   After any run, a reset parser answers all later calls as one new to the same bytes would, exactly when it
   holds no field or the request they belong to can never be completed.
   */
  lemma ResetIsAsNew(calls: seq<Call>)
    ensures var p := CallAll(FRESH, calls).0;
            (forall later: seq<Call> :: Statuses(ResetView(p), later) == Statuses(NewWith(p.buf), later))
            <==> p.headers == [] || NeverCompletes(p.buf)
  {
    hide OwnFields, Parse, Statuses;
    RunOwnsItsFields(FRESH, calls) by { FreshOwnsNothing(); }
    var p := CallAll(FRESH, calls).0;
    var q, anew := ResetView(p), NewWith(p.buf);
    BothOwn(p);
    if p.headers == [] {
      assert q == anew;
    } else if NeverCompletes(p.buf) {
      forall later: seq<Call> ensures Statuses(q, later) == Statuses(anew, later) { StayAlike(q, anew, later); }
    } else {
      var more: bytes :| Parse([], p.buf + more).Complete?;
      CompletedTellsThemApart(p, more);
    }
  }

  lemma BothOwn(p: Parser)
    requires OwnFields(p)
    ensures OwnFields(ResetView(p)) && OwnFields(NewWith(p.buf))
  {
  }

  /** A reset inside an unfinished request puts the fields already taken before the whole list. */
  lemma CompletedTellsThemApart(p: Parser, more: bytes)
    requires OwnFields(p) && Parse([], p.buf + more).Complete?
    ensures var o := Parse([], p.buf + more);
            && PushView(ResetView(p), more).1
               == ParseStatus.Complete(o.request.(headers := p.headers + o.request.headers), o.consumed)
            && PushView(NewWith(p.buf), more).1 == ParseStatus.Complete(o.request, o.consumed)
    ensures p.headers != [] ==> Statuses(ResetView(p), [Pushed(more)]) != Statuses(NewWith(p.buf), [Pushed(more)])
  {
    hide Parse, OwnFields;
    BothOwn(p);
    OwnRequest(ResetView(p), more);
    OwnRequest(NewWith(p.buf), more);
    var h := Parse([], p.buf + more).request.headers;
    assert [] + h == h && |p.headers + h| == |p.headers| + |h|;
    OneCall(ResetView(p), more);
    OneCall(NewWith(p.buf), more);
  }

  lemma OneCall(p: Parser, more: bytes)
    ensures Statuses(p, [Pushed(more)]) == [PushView(p, more).1]
  {
    var calls := [Pushed(more)];
    assert calls[1..] == [] && CallAll(PushView(p, more).0, []).1 == [];
  }

  // ---- after a verdict ----

  /** Fields held by a parser that has given its verdict belong to a request that was refused for good. */
  ghost predicate Verdict(p: Parser) {
    p.done && p.headers != [] ==> NeverCompletes(p.buf)
  }

  lemma VerdictKept(p: Parser, call: Call)
    requires OwnFields(p) && Verdict(p)
    ensures Verdict(CallOnce(p, call).0)
  {
    hide OwnFields, Parse;
    if call.Pushed? {
      var all := p.buf + call.chunk;
      if p.done {
        if p.headers != [] {
          forall more: bytes ensures !Parse([], all + more).Complete? { assert all + more == p.buf + (call.chunk + more); }
        }
      } else {
        OwnRequest(p, call.chunk);
        if Parse([], all).Failed? && PushView(p, call.chunk).0.headers != [] {
          FromTakenGrows(p.carried, p.buf, call.chunk) by { assert OwnFields(p); CarriedOwn(p); }
          RefusedForGood(p.carried, all);
        }
      }
    }
  }

  lemma CarriedOwn(p: Parser)
    requires OwnFields(p) && !p.done
    ensures From(p.carried, Taken(p.buf))
  {
  }

  lemma RefusedForGood(carried: Headers, b: bytes)
    requires From(carried, Taken(b)) && Parse([], b).Failed? && carried + Taken(b) != []
    ensures NeverCompletes(b)
  {
    assert Taken(b) != [] by { if carried != [] { assert carried[0] in carried; } }
    assert FindCrlf(b, 0).Some?;
    hide Parse;
    forall more: bytes ensures !Parse([], b + more).Complete? {
      FindCrlfExtends(b, b + more, 0);
      ParseExtends([], b, b + more);
    }
  }

  lemma {:induction false} RunKeepsVerdict(p: Parser, calls: seq<Call>)
    requires OwnFields(p) && Verdict(p)
    ensures Verdict(CallAll(p, calls).0)
    decreases |calls|
  {
    hide OwnFields, Verdict, CallOnce;
    if calls != [] {
      VerdictKept(p, calls[0]);
      CallKeepsOwnFields(p, calls[0]);
      RunKeepsVerdict(CallOnce(p, calls[0]).0, calls[1..]);
    }
  }

  /** A reset after a request or an error, which is when callers reset, is as good as a new parser. */
  lemma ResetAfterVerdictIsAsNew(calls: seq<Call>, later: seq<Call>)
    requires CallAll(FRESH, calls).0.done
    ensures var p := CallAll(FRESH, calls).0; Statuses(ResetView(p), later) == Statuses(NewWith(p.buf), later)
  {
    hide Statuses, CallAll;
    ResetIsAsNew(calls);
    RunKeepsVerdict(FRESH, calls) by { FreshOwnsNothing(); }
  }

  // ---- an input that shows the difference ----

  /**
   Push a request line and one field, reset, push the empty line: the request comes back with its field
   twice, where a parser new to the same bytes returns it once.
   */
  lemma FieldTwice()
    ensures var r := Request(Get, Ascii("/"), Http11, [Header(Ascii("A"), Ascii("b"))], []);
            var start := PrintLine(r) + CRLF + PrintFields(r.headers);
            var p := PushView(FRESH, start).0;
            && Print(r) == start + CRLF
            && PushView(ResetView(p), CRLF).1 == ParseStatus.Complete(r.(headers := r.headers + r.headers), |Print(r)|)
            && PushView(p, CRLF).1 == ParseStatus.Complete(r, |Print(r)|)
  {
    var r := Request(Get, Ascii("/"), Http11, [Header(Ascii("A"), Ascii("b"))], []);
    var start := PrintLine(r) + CRLF + PrintFields(r.headers);
    SmallRequest(r);
    OneFieldTaken(r, start);
    hide Parse, PrintLine, PrintFields;
    assert Print(r) == start + CRLF;
    ParsePrint([], r, []);
    assert Print(r) + [] == Print(r) && [] + r.headers == r.headers;
    TwiceAfterReset(start, CRLF, r, |Print(r)|);
  }

  lemma TwiceAfterReset(start: bytes, more: bytes, r: Request, n: nat)
    requires Parse([], start) == NeedMore(r.headers) && Parse([], start + more) == Outcome.Complete(r, n)
    ensures var p := PushView(FRESH, start).0;
            && PushView(ResetView(p), more).1 == ParseStatus.Complete(r.(headers := r.headers + r.headers), n)
            && PushView(p, more).1 == ParseStatus.Complete(r, n)
  {
    hide Parse, OwnFields;
    assert [] + start == start;
    var p := PushView(FRESH, start).0;
    assert p == Parser([], start, false, r.headers);
    CallKeepsOwnFields(FRESH, Pushed(start)) by { FreshOwnsNothing(); }
    CompletedTellsThemApart(p, more);
  }

  lemma SmallRequest(r: Request)
    requires r == Request(Get, Ascii("/"), Http11, [Header(Ascii("A"), Ascii("b"))], [])
    ensures Printable(r) && Announces([] + r.headers, |r.body|)
  {
    var h := r.headers[0];
    assert h.name == [65] && h.value == [98] && r.path == [47];
    hide PrintableField, Announces, ValidUtf8, Ascii, PrintLine, PrintFields;
    ValidUtf8Ascii(r.path);
    SmallField(h);
    LengthsOfSmall(r);
    assert [] + r.headers == r.headers;
    NoLengthDeclared(r.headers);
  }

  lemma LengthsOfSmall(r: Request)
    requires |r.path| == 1 && |r.headers| == 1 && |r.headers[0].name| == 1 && |r.headers[0].value| == 1
    ensures |PrintLine(r)| <= 15 && |PrintFields(r.headers)| == 6
  {
    assert PrintFields(r.headers[1..]) == [];
  }

  lemma SmallField(h: Header)
    requires h.name == [65] && h.value == [98]
    ensures PrintableField(h)
  {
    hide ValidUtf8;
    ValidUtf8Ascii(h.name);
    ValidUtf8Ascii(h.value);
    VisibleTrimmed(h.name);
    VisibleTrimmed(h.value);
  }

  lemma NoLengthDeclared(hs: Headers)
    requires |hs| == 1 && |hs[0].name| == 1
    ensures Announces(hs, 0)
  {
    assert |LENGTH| == 14;
  }

  lemma NothingFurther(b: bytes)
    ensures FindCrlf(b, |b|) == None
  {
  }

  lemma OneFieldTaken(r: Request, start: bytes)
    requires Printable(r) && |r.headers| == 1 && start == PrintLine(r) + CRLF + PrintFields(r.headers)
    ensures Parse([], start) == NeedMore(r.headers)
  {
    hide ParseRequestLine, TakeField, PrintableField, PrintLine, PrintField, FindCrlf;
    var line, field := PrintLine(r), PrintField(r.headers[0]);
    var block := |line| + 2;
    ParsePrintedLine(r);
    TakePrintedField(r.headers[0], [], 0);
    assert PrintFields(r.headers) == field + CRLF by { assert r.headers[1..] == []; }
    assert start == [] + line + CRLF + (field + CRLF) == (line + CRLF) + field + CRLF + [];
    FieldLineIn(start, [], line, field + CRLF);
    FieldLineIn(start, line + CRLF, field, []);
    assert start[..|line|] == line && [] + [r.headers[0]] == r.headers;
    var at := block + |field| + 2;
    assert at == |start|;
    assert FindCrlf(start, at) == None by { NothingFurther(start); }
    assert ParseFields(start, RequestLine(r.verb, r.path, r.version), block, block, [], 0)
        == ParseFields(start, RequestLine(r.verb, r.path, r.version), block, at, r.headers, 1);
  }
}
