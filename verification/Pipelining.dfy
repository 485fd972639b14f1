/** Many requests on one connection: the push / reset / empty-push loop against one pass over the stream. */
module Pipelining {
  import opened Bytes
  import opened Http
  import opened RequestSpec
  import opened RequestParsing
  import opened Chunking

  datatype Served = Served(request: Request, consumed: nat)

  /** One pass: the requests in order, then either the undecided rest or the first error. */
  datatype Stream = Stream(requests: seq<Served>, rest: bytes, error: Option<ParseError>)

  function ParseStream(b: bytes): Stream
    decreases |b|
  {
    match Parse([], b)
    case NeedMore(_) => Stream([], b, None)
    case Failed(e, _) => Stream([], b, Some(e))
    case Complete(r, c) =>
      After([Served(r, c)], ParseStream(b[c..]))
  }

  function After(earlier: seq<Served>, x: Stream): Stream {
    x.(requests := earlier + x.requests)
  }

  // ---- the parser driven over a whole connection ----

  /** What the caller has: the parser, the requests taken from it, the error if one came. */
  datatype Session = Session(parser: Parser, requests: seq<Served>, error: Option<ParseError>)

  const OPEN: Session := Session(FRESH, [], None)

  /** Take `status`; while it is a request, reset and push nothing, for a request may be buffered already. */
  function Take(s: Session, p: Parser, status: ParseStatus): Session
    requires status.Complete? ==> p.headers == []
    decreases |p.buf|, status.Complete?
  {
    match status
    case Incomplete => s.(parser := p)
    case Failed(e) => s.(parser := p, error := Some(e))
    case Complete(r, c) =>
      var (q, next) := PushView(ResetView(p), []);
      assert p.buf + [] == p.buf;
      Take(s.(requests := s.requests + [Served(r, c)]), q, next)
  }

  function Feed(s: Session, chunk: bytes): Session {
    var (p, status) := PushView(s.parser, chunk);
    Take(s, p, status)
  }

  function FeedAll(s: Session, chunks: seq<bytes>): Session
    decreases |chunks|
  {
    if chunks == [] then s else FeedAll(Feed(s, chunks[0]), chunks[1..])
  }

  /** The session a one-pass parse of everything fed so far would leave. */
  ghost predicate Agrees(s: Session, requests: seq<Served>, x: Stream) {
    && s.requests == requests + x.requests
    && s.error == x.error
    && s.parser.buf == x.rest
    && (x.error.None? ==> !s.parser.done && s.parser.carried == [])
    && (x.error.Some? ==> s.parser.done)
  }

  lemma {:induction false} TakeIsOnePass(s: Session, p: Parser, chunk: bytes)
    requires !p.done && p.carried == [] && s.error == None
    ensures var (q, status) := PushView(p, chunk);
            Agrees(Take(s, q, status), s.requests, ParseStream(p.buf + chunk))
    decreases |p.buf| + |chunk|
  {
    hide Parse;
    var all := p.buf + chunk;
    var (q, status) := PushView(p, chunk);
    if status.Complete? {
      assert q.buf + [] == q.buf == all[status.consumed..];
      var t := s.(requests := s.requests + [Served(status.request, status.consumed)]);
      TakeIsOnePass(t, ResetView(q), []);
      assert t.requests + ParseStream(q.buf).requests
          == s.requests + ([Served(status.request, status.consumed)] + ParseStream(q.buf).requests);
    }
  }

  // ---- streams that go on ----

  /** No request line of the stream has exactly the limit's length. */
  predicate NoLineAtLimit(b: bytes)
    decreases |b|
  {
    && FindCrlf(b, 0) != Some(MAX_REQUEST_LINE)
    && match Parse([], b)
       case Complete(_, c) => NoLineAtLimit(b[c..])
       case _ => true
  }

  /** What is decided about a prefix stays; what is not is decided by its rest and the new bytes. */
  lemma {:induction false} StreamGoesOn(b: bytes, more: bytes)
    requires NoLineAtLimit(b + more)
    ensures var x := ParseStream(b);
            var y := ParseStream(b + more);
            match x.error
            case Some(_) => y == x.(rest := x.rest + more)
            case None => NoLineAtLimit(x.rest + more) && y == After(x.requests, ParseStream(x.rest + more))
    decreases |b|
  {
    hide FindCrlf, Parse;
    ParseExtends([], b, b + more);
    match Parse([], b)
    case NeedMore(_) =>
      assert After([], ParseStream(b + more)) == ParseStream(b + more);
    case Failed(_, _) =>
    case Complete(r, c) =>
      assert (b + more)[c..] == b[c..] + more;
      StreamGoesOn(b[c..], more);
      AfterAfter([Served(r, c)], ParseStream(b[c..]).requests, ParseStream(ParseStream(b[c..]).rest + more));
  }

  lemma AfterAfter(a: seq<Served>, b: seq<Served>, x: Stream)
    ensures After(a, After(b, x)) == After(a + b, x)
  {
    assert a + (b + x.requests) == (a + b) + x.requests;
  }

  /** Any chunking of a stream gives its requests in order, each with its own length, and its rest. */
  lemma {:induction false} FeedIsOnePass(s: Session, fed: bytes, chunks: seq<bytes>)
    requires Agrees(s, [], ParseStream(fed))
    requires NoLineAtLimit(fed + Concat(chunks))
    ensures Agrees(FeedAll(s, chunks), [], ParseStream(fed + Concat(chunks)))
    decreases |chunks|
  {
    if chunks == [] {
      assert fed + [] == fed;
    } else {
      var now := fed + chunks[0];
      assert now + Concat(chunks[1..]) == fed + Concat(chunks);
      PrefixHasNoLineAtLimit(now, Concat(chunks[1..]));
      FeedOne(s, fed, chunks[0]);
      FeedIsOnePass(Feed(s, chunks[0]), now, chunks[1..]);
    }
  }

  lemma FeedOne(s: Session, fed: bytes, chunk: bytes)
    requires Agrees(s, [], ParseStream(fed)) && NoLineAtLimit(fed + chunk)
    ensures Agrees(Feed(s, chunk), [], ParseStream(fed + chunk))
  {
    hide ParseStream, Parse, NoLineAtLimit, Take;
    StreamGoesOn(fed, chunk);
    if s.error.None? {
      TakeIsOnePass(s, s.parser, chunk);
      var y := ParseStream(s.parser.buf + chunk);
      assert [] + (s.requests + y.requests) == s.requests + y.requests;
    } else {
      FeedAfterError(s, chunk);
    }
  }

  lemma FeedAfterError(s: Session, chunk: bytes)
    requires s.parser.done
    ensures Feed(s, chunk) == s.(parser := s.parser.(buf := s.parser.buf + chunk))
  {
  }

  lemma {:induction false} PrefixHasNoLineAtLimit(b: bytes, more: bytes)
    requires NoLineAtLimit(b + more)
    ensures NoLineAtLimit(b)
    decreases |b|
  {
    hide Parse, FindCrlf;
    FindCrlfExtends(b, b + more, 0);
    ParseExtends([], b, b + more);
    match Parse([], b)
    case Complete(_, c) =>
      assert (b + more)[c..] == b[c..] + more;
      PrefixHasNoLineAtLimit(b[c..], more);
    case _ =>
  }

  /** From the start of a connection. */
  lemma AnyChunking(chunks: seq<bytes>)
    requires NoLineAtLimit(Concat(chunks))
    ensures Agrees(FeedAll(OPEN, chunks), [], ParseStream(Concat(chunks)))
  {
    assert [] + Concat(chunks) == Concat(chunks);
    FeedIsOnePass(OPEN, [], chunks);
  }

  // ---- and when a line is at the limit, some chunking differs ----

  /** The length of a prefix that ends inside the line end of the first request line at the limit. */
  function CutPoint(b: bytes): (n: nat)
    requires !NoLineAtLimit(b)
    ensures n <= |b|
    decreases |b|
  {
    if FindCrlf(b, 0) == Some(MAX_REQUEST_LINE) then MAX_REQUEST_LINE + 1
    else Parse([], b).consumed + CutPoint(b[Parse([], b).consumed..])
  }

  lemma {:induction false} CutStream(b: bytes)
    requires !NoLineAtLimit(b)
    ensures var x, y := ParseStream(b[..CutPoint(b)]), ParseStream(b);
            && NoLineAtLimit(b[..CutPoint(b)])
            && x.error == Some(RequestLineTooLong)
            && (x.requests != y.requests || x.error != y.error)
    decreases |b|
  {
    hide FindCrlf, Parse;
    var p := b[..CutPoint(b)];
    if FindCrlf(b, 0) == Some(MAX_REQUEST_LINE) {
      ParseExtends([], p, b);
      FindCrlfExtends(p, b, 0);
    } else {
      var c := Parse([], b).consumed;
      CompleteOnItsOwnBytes([], b);
      assert b[..c] <= p;
      ParseExtends([], b[..c], p);
      assert p[c..] == b[c..][..CutPoint(b[c..])];
      LineEndIn(b, p, c);
      CutStream(b[c..]);
      var x, y := ParseStream(p), ParseStream(b);
      assert x.requests[1..] == ParseStream(p[c..]).requests && y.requests[1..] == ParseStream(b[c..]).requests;
    }
  }

  lemma LineEndIn(b: bytes, p: bytes, c: nat)
    requires p <= b && c <= |p| && Parse([], b).Complete? && Parse([], b).consumed == c
    ensures FindCrlf(p, 0) == FindCrlf(b, 0)
  {
    assert CrlfAt(p, FindCrlf(b, 0).value);
    FindCrlfExtends(p, b, 0);
  }

  lemma OpenAgrees()
    ensures Agrees(OPEN, [], ParseStream([]))
  {
  }

  lemma SomeChunkingDiffers(b: bytes) returns (chunks: seq<bytes>)
    requires !NoLineAtLimit(b)
    ensures Concat(chunks) == b && !Agrees(FeedAll(OPEN, chunks), [], ParseStream(b))
    ensures FeedAll(OPEN, chunks).requests != ParseStream(b).requests || FeedAll(OPEN, chunks).error != ParseStream(b).error
  {
    hide Feed, Parse, NoLineAtLimit, CutPoint, ParseStream;
    var n := CutPoint(b);
    chunks := [b[..n], b[n..]];
    assert Concat(chunks) == b by { assert chunks[1..] == [b[n..]] && Concat([b[n..]]) == b[n..]; }
    CutStream(b);
    OpenAgrees();
    assert [] + b[..n] == b[..n];
    FeedOne(OPEN, [], b[..n]);
    var s := Feed(OPEN, b[..n]);
    FeedAfterError(s, b[n..]);
    assert FeedAll(OPEN, chunks) == FeedAll(s, [b[n..]]) == Feed(s, b[n..]);
    assert [] + ParseStream(b).requests == ParseStream(b).requests;
    assert [] + ParseStream(b[..n]).requests == ParseStream(b[..n]).requests;
  }

  /** A stream that comes to it: one line of the limit's length. */
  lemma LineAtLimitExists() returns (b: bytes)
    ensures !NoLineAtLimit(b)
  {
    b := seq(MAX_REQUEST_LINE, _ => 65 as byte) + CRLF;
    assert CrlfAt(b, MAX_REQUEST_LINE);
    var r := FindCrlf(b, 0);
    assert r.Some? && r.value <= MAX_REQUEST_LINE && CrlfAt(b, r.value);
  }

  /** Chunk boundaries are invisible on a connection exactly when no request line has the limit's length. */
  lemma ChunkingInvisible(b: bytes)
    ensures (forall chunks: seq<bytes> :: Concat(chunks) == b ==> Agrees(FeedAll(OPEN, chunks), [], ParseStream(b)))
            <==> NoLineAtLimit(b)
  {
    hide Agrees, ParseStream, NoLineAtLimit;
    if NoLineAtLimit(b) {
      forall chunks: seq<bytes> | Concat(chunks) == b ensures Agrees(FeedAll(OPEN, chunks), [], ParseStream(b)) {
        AnyChunking(chunks);
      }
    } else {
      var chunks := SomeChunkingDiffers(b);
    }
  }
}
