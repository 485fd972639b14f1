/** Whole runs of a connection against "parse one request, answer it, go on". */
module Refinement {
  import opened Bytes
  import opened Http
  import opened RequestSpec
  import opened RequestParsing
  import opened RequestRoundTrip
  import opened Pipelining
  import opened ResponseEncoding
  import opened Connections

  // ---- the sequential server ----

  /** Every reply the bytes `b` are owed, up to the first that closes. */
  function Serve(app: App, b: bytes): bytes
    decreases |b|
  {
    match Parse([], b)
    case NeedMore(_) => []
    case Failed(e, _) => ErrorReply(e)
    case Complete(r, c) =>
      if r.WantsKeepAlive() then Reply(app, r) + Serve(app, b[c..]) else Reply(app, r)
  }

  // ---- runs ----

  /** The driver feeds a chunk it has read, or reports how much of the pending bytes it has written. */
  datatype Event = Feed(chunk: bytes) | Wrote(n: nat)

  /** `fed`: bytes accepted while Reading. `sent`: bytes reported written, in order. */
  datatype Run = Run(conn: Conn, fed: bytes, sent: bytes)

  const START: Run := Run(NEW, [], [])

  predicate Legal(s: Run, e: Event)
    requires s.conn.Ok()
  {
    e.Wrote? ==> e.n <= |s.conn.Pending()|
  }

  function Step(app: App, s: Run, e: Event): (t: Run)
    requires s.conn.Ok() && Legal(s, e)
    ensures t.conn.Ok()
  {
    match e
    case Feed(chunk) =>
      ActionsMatchState(s.conn, chunk, 0, app);
      Run(AfterBytes(s.conn, chunk, app).0, if s.conn.phase == Reading then s.fed + chunk else s.fed, s.sent)
    case Wrote(n) =>
      ActionsMatchState(s.conn, [], n, app);
      Run(AfterWritten(s.conn, n).0, s.fed, s.sent + s.conn.Pending()[..n])
  }

  ghost predicate LegalAll(app: App, s: Run, events: seq<Event>)
    requires s.conn.Ok()
    decreases |events|
  {
    events == [] || (Legal(s, events[0]) && LegalAll(app, Step(app, s, events[0]), events[1..]))
  }

  ghost function StepAll(app: App, s: Run, events: seq<Event>): (t: Run)
    requires s.conn.Ok() && LegalAll(app, s, events)
    ensures t.conn.Ok()
    decreases |events|
  {
    if events == [] then s else StepAll(app, Step(app, s, events[0]), events[1..])
  }

  // ---- the invariant ----

  /** Whatever is fed next, `out` is what `fed` has earned so far, and `buf` is what has not been looked at. */
  ghost predicate Owed(app: App, fed: bytes, out: bytes, buf: bytes) {
    forall more: bytes :: Serve(app, fed + more) == out + Serve(app, buf + more)
  }

  ghost predicate Inv(app: App, s: Run) {
    && s.conn.Ok()
    && match s.conn.phase
       case Reading => Owed(app, s.fed, s.sent, s.conn.parser.buf)
       case Writing =>
         if s.conn.closeAfterWrite then Serve(app, s.fed) == s.sent + s.conn.Pending()
         else Owed(app, s.fed, s.sent + s.conn.Pending(), s.conn.parser.buf)
       case Closed => Serve(app, s.fed) == s.sent
  }

  lemma InvOk(app: App, s: Run)
    requires Inv(app, s)
    ensures s.conn.Ok()
  {
  }

  lemma OwedNow(app: App, fed: bytes, out: bytes, buf: bytes)
    requires Owed(app, fed, out, buf)
    ensures Serve(app, fed) == out + Serve(app, buf)
  {
    assert fed + [] == fed && buf + [] == buf;
  }

  lemma OwedGrows(app: App, fed: bytes, out: bytes, buf: bytes, chunk: bytes)
    requires Owed(app, fed, out, buf)
    ensures Owed(app, fed + chunk, out, buf + chunk)
  {
    hide Serve;
    forall more: bytes ensures Serve(app, fed + chunk + more) == out + Serve(app, buf + chunk + more) {
      assert fed + chunk + more == fed + (chunk + more) && buf + chunk + more == buf + (chunk + more);
    }
  }

  lemma ServeComplete(app: App, buf: bytes, more: bytes)
    requires Parse([], buf).Complete?
    ensures var o := Parse([], buf);
            Serve(app, buf + more) == if o.request.WantsKeepAlive()
                                      then Reply(app, o.request) + Serve(app, buf[o.consumed..] + more)
                                      else Reply(app, o.request)
  {
    hide Parse, Reply, Request.WantsKeepAlive;
    var o := Parse([], buf);
    ParseExtends([], buf, buf + more);
    assert (buf + more)[o.consumed..] == buf[o.consumed..] + more;
  }

  /** A complete request at the front of `buf` earns its reply, whatever follows. */
  lemma OwedReply(app: App, fed: bytes, out: bytes, buf: bytes)
    requires Owed(app, fed, out, buf) && Parse([], buf).Complete?
    ensures var o := Parse([], buf); var reply := Reply(app, o.request);
            if o.request.WantsKeepAlive() then Owed(app, fed, out + reply, buf[o.consumed..])
            else Serve(app, fed) == out + reply
  {
    hide Serve, Parse, Reply, Request.WantsKeepAlive;
    var o := Parse([], buf);
    var reply := Reply(app, o.request);
    if o.request.WantsKeepAlive() {
      forall more: bytes ensures Serve(app, fed + more) == (out + reply) + Serve(app, buf[o.consumed..] + more) {
        ServeComplete(app, buf, more);
        Associate(out, reply, Serve(app, buf[o.consumed..] + more));
      }
    } else {
      OwedNow(app, fed, out, buf);
      ServeComplete(app, buf, []);
      assert buf + [] == buf;
    }
  }

  lemma StepKeepsInv(app: App, s: Run, e: Event)
    requires Inv(app, s) && Legal(s, e)
    ensures Inv(app, Step(app, s, e))
  {
    hide Serve, Owed, Parse, Reply, Request.WantsKeepAlive;
    match e
    case Feed(chunk) => FeedKeepsInv(app, s, chunk);
    case Wrote(n) => WroteKeepsInv(app, s, n);
  }

  lemma FeedKeepsInv(app: App, s: Run, chunk: bytes)
    requires Inv(app, s)
    ensures Inv(app, Step(app, s, Feed(chunk)))
  {
    hide Owed, Parse, Reply, Request.WantsKeepAlive;
    if s.conn.phase == Reading {
      var all := s.conn.parser.buf + chunk;
      OwedGrows(app, s.fed, s.sent, s.conn.parser.buf, chunk);
      OwedNow(app, s.fed + chunk, s.sent, all);
      var t := Step(app, s, Feed(chunk));
      if Parse([], all).Complete? { OwedReply(app, s.fed + chunk, s.sent, all); }
      if t.conn.phase == Writing { assert t.conn.Pending() == t.conn.writeBuf; }
    }
  }

  lemma WroteKeepsInv(app: App, s: Run, n: nat)
    requires Inv(app, s) && n <= |s.conn.Pending()|
    ensures Inv(app, Step(app, s, Wrote(n)))
  {
    hide Owed, Serve;
    var pending := s.conn.Pending();
    var t := Step(app, s, Wrote(n));
    assert s.sent + [] == s.sent;
    if s.conn.phase == Writing {
      assert pending[..n] + pending[n..] == pending;
      Associate(s.sent, pending[..n], pending[n..]);
      if t.conn.phase == Writing { assert t.conn.Pending() == pending[n..]; } else { assert pending[..n] == pending; }
    }
  }

  lemma {:induction false} RunKeepsInv(app: App, s: Run, events: seq<Event>)
    requires Inv(app, s) && LegalAll(app, s, events)
    ensures Inv(app, StepAll(app, s, events))
    decreases |events|
  {
    hide Owed, Serve;
    if events != [] {
      StepKeepsInv(app, s, events[0]);
      RunKeepsInv(app, Step(app, s, events[0]), events[1..]);
    }
  }

  lemma StartInv(app: App)
    ensures Inv(app, START)
  {
    assert forall b: bytes :: [] + b == b;
  }

  // ---- the theorems ----

  /**
   For every chunking of the input and every pattern of short writes, what has been sent, what is
   pending and what the unread buffer is still owed make up the sequential server's output.
   */
  lemma RunRefinesServe(app: App, events: seq<Event>)
    requires LegalAll(app, START, events)
    ensures var t := StepAll(app, START, events);
            Serve(app, t.fed) == t.sent + t.conn.Pending() + Unanswered(app, t)
  {
    hide Owed, Serve, LegalAll, StepAll;
    StartInv(app);
    RunKeepsInv(app, START, events);
    InvMeansRefines(app, StepAll(app, START, events));
  }

  /** What the bytes still in the parser would be answered with. */
  function Unanswered(app: App, t: Run): bytes {
    if t.conn.closeAfterWrite then [] else Serve(app, t.conn.parser.buf)
  }

  lemma InvMeansRefines(app: App, t: Run)
    requires Inv(app, t)
    ensures Serve(app, t.fed) == t.sent + t.conn.Pending() + Unanswered(app, t)
  {
    hide Serve;
    var owed := t.sent + t.conn.Pending();
    assert owed + [] == owed && t.sent + [] == t.sent;
    if !t.conn.closeAfterWrite { OwedNow(app, t.fed, owed, t.conn.parser.buf); }
  }

  /** So the client sees a prefix of the sequential output, and on close all of it. */
  lemma SentIsAPrefix(app: App, events: seq<Event>)
    requires LegalAll(app, START, events)
    ensures var t := StepAll(app, START, events);
            && t.sent <= Serve(app, t.fed)
            && (t.conn.phase == Closed ==> t.sent == Serve(app, t.fed))
            && (t.conn.phase == Reading ==>
                  (t.sent == Serve(app, t.fed) <==> Parse([], t.conn.parser.buf).NeedMore?))
  {
    hide Serve, LegalAll, StepAll, Parse;
    RunRefinesServe(app, events);
    var t := StepAll(app, START, events);
    var rest := t.conn.Pending() + Unanswered(app, t);
    assert Serve(app, t.fed) == t.sent + rest;
    if t.conn.phase == Reading {
      assert rest == Serve(app, t.conn.parser.buf);
      OwesNothingIffNeedMore(app, t.conn.parser.buf);
      assert t.sent == t.sent + rest <==> rest == [] by { assert |t.sent + rest| == |t.sent| + |rest|; }
    }
  }

  lemma OwesNothingIffNeedMore(app: App, b: bytes)
    ensures Serve(app, b) == [] <==> Parse([], b).NeedMore?
  {
    hide Parse, Encode, Request.WantsKeepAlive;
  }

  /**
   Two requests in one chunk: once the first reply is out the second request is buffered, complete,
   and unanswered until more bytes arrive.
   */
  lemma PipelinedReplyWaits(app: App, r: Request)
    requires Sendable(r) && r.WantsKeepAlive()
    ensures var events := [Feed(Print(r) + Print(r)), Wrote(|Reply(app, r)|)];
            && LegalAll(app, START, events)
            && var t := StepAll(app, START, events);
               && t.conn.phase == Reading && t.sent == Reply(app, r)
               && Serve(app, t.fed) == Reply(app, r) + Reply(app, r)
  {
    hide Parse, Encode, Print, Request.WantsKeepAlive, Sendable;
    var chunk, reply := Print(r) + Print(r), Reply(app, r);
    ParseTwice(r);
    assert [] + chunk == chunk && chunk[|Print(r)|..] == Print(r) && Print(r)[|Print(r)|..] == [];
    var s1 := Step(app, START, Feed(chunk));
    assert s1.conn.Pending() == reply;
    TwoSteps(app, START, Feed(chunk), Wrote(|reply|));
    assert Serve(app, chunk) == reply + Serve(app, Print(r));
    assert Serve(app, Print(r)) == reply + Serve(app, []);
    NothingToParse();
  }

  lemma TwoSteps(app: App, s: Run, e1: Event, e2: Event)
    requires s.conn.Ok() && Legal(s, e1) && Legal(Step(app, s, e1), e2)
    ensures LegalAll(app, s, [e1, e2]) && StepAll(app, s, [e1, e2]) == Step(app, Step(app, s, e1), e2)
  {
    hide Step, Legal;
    assert [e1, e2][1..] == [e2];
    var t := Step(app, s, e1);
    assert [e2][1..] == [] && StepAll(app, t, [e2]) == StepAll(app, Step(app, t, e2), []);
  }

  lemma ParseTwice(r: Request)
    requires Sendable(r)
    ensures Parse([], Print(r) + Print(r)) == Outcome.Complete(r, |Print(r)|)
    ensures Parse([], Print(r)) == Outcome.Complete(r, |Print(r)|)
  {
    hide Parse, Print, Printable;
    assert [] + r.headers == r.headers && Print(r) + [] == Print(r);
    ParsePrint([], r, Print(r));
    ParsePrint([], r, []);
  }

  // ---- against everything the client will ever send ----

  /** What is left of `b` once the sequential server has answered all it can: nothing after a close. */
  function Tail(b: bytes): bytes
    decreases |b|
  {
    match Parse([], b)
    case NeedMore(_) => b
    case Failed(_, _) => b
    case Complete(r, c) => if r.WantsKeepAlive() then Tail(b[c..]) else []
  }

  lemma {:induction false} ServeGrows(app: App, b: bytes, more: bytes)
    requires !CutInsideLineEnd(Tail(b), Tail(b) + more)
    ensures Serve(app, b) <= Serve(app, b + more)
    decreases |b|
  {
    hide Parse, Reply, Request.WantsKeepAlive, ErrorReply, CutInsideLineEnd;
    ParseExtends([], b, b + more);
    match Parse([], b)
    case NeedMore(_) =>
    case Failed(_, _) =>
    case Complete(r, c) =>
      assert (b + more)[c..] == b[c..] + more;
      if r.WantsKeepAlive() { ServeGrows(app, b[c..], more); }
  }

  /**
   Bytes the connection has not accepted yet do not change what it has already said, unless those it has
   accepted end inside the line end of a request line at the limit.
   */
  lemma ClientSeesAPrefix(app: App, events: seq<Event>, later: bytes)
    requires LegalAll(app, START, events)
    requires var rest := Tail(StepAll(app, START, events).fed); !CutInsideLineEnd(rest, rest + later)
    ensures StepAll(app, START, events).sent <= Serve(app, StepAll(app, START, events).fed + later)
  {
    hide Serve, LegalAll, StepAll, Tail, CutInsideLineEnd;
    SentIsAPrefix(app, events);
    ServeGrows(app, StepAll(app, START, events).fed, later);
  }
}
