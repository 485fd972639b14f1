/** Replies whose length does not fit in the 32 bits a send has for it. */
module LongReplies {
  import opened Bytes
  import opened Http
  import opened Connections
  import opened ResponseEncoding
  import opened RequestSpec
  import opened RequestRoundTrip
  import opened Refinement
  import opened Kernel
  import opened Words
  import opened UringState
  import opened UringSteps

  // ---- one reply ----

  /** Writes the kernel may report: each at most the bytes it was handed, while there is something to write. */
  ghost predicate HandedWrites(app: App, s: Run, ns: seq<nat>)
    requires s.conn.Ok()
    decreases |ns|
  {
    ns == [] ||
    (&& s.conn.phase == Writing && ns[0] <= |Handed(s.conn.Pending())|
     && HandedWrites(app, Step(app, s, Wrote(ns[0])), ns[1..]))
  }

  ghost function AfterWrites(app: App, s: Run, ns: seq<nat>): (t: Run)
    requires s.conn.Ok() && HandedWrites(app, s, ns)
    ensures t.conn.Ok()
    decreases |ns|
  {
    if ns == [] then s else AfterWrites(app, Step(app, s, Wrote(ns[0])), ns[1..])
  }

  function Total(ns: seq<nat>): nat {
    if ns == [] then 0 else ns[0] + Total(ns[1..])
  }

  lemma WriteSome(app: App, s: Run, n: nat)
    requires s.conn.Ok() && s.conn.phase == Writing && n <= |Handed(s.conn.Pending())|
    ensures var t := Step(app, s, Wrote(n));
            if n < |s.conn.Pending()| then t.conn.phase == Writing && |t.conn.Pending()| == |s.conn.Pending()| - n
            else t.conn.phase != Writing
  {
  }

  lemma HandedLength(pending: bytes)
    ensures |Handed(pending)| == |pending| % U32 <= |pending|
  {
  }

  lemma SameHighPart(p: nat, n: nat)
    requires n <= p % U32
    ensures (p - n) / U32 == p / U32 && (p - n) % U32 == p % U32 - n && (p >= U32 ==> p - n >= U32)
  {
    Remainder(p - n, U32, p / U32, p % U32 - n);
  }

  /**
   A reply of 2^32 bytes or more is never written out: the kernel is handed only what is over a multiple of
   2^32, and once it has taken that the connection spins.
   */
  lemma {:induction false} LongReplySpins(app: App, s: Run, ns: seq<nat>)
    requires s.conn.Ok() && s.conn.phase == Writing && |s.conn.Pending()| >= U32 && HandedWrites(app, s, ns)
    ensures var t, p := AfterWrites(app, s, ns), |s.conn.Pending()|;
            && t.conn.phase == Writing && |t.conn.Pending()| == p - Total(ns) >= U32 && Total(ns) <= p % U32
            && (Spins(t) <==> Total(ns) == p % U32)
    decreases |ns|
  {
    hide Step, Conn.Ok, Conn.Pending, Handed, Spins, Legal;
    if ns == [] {
      SpinsWhen(s);
    } else {
      LongWrite(app, s, ns[0]);
      LongReplySpins(app, Step(app, s, Wrote(ns[0])), ns[1..]);
    }
  }

  lemma SpinsWhen(s: Run)
    requires s.conn.Ok() && s.conn.phase == Writing
    ensures Spins(s) <==> |s.conn.Pending()| % U32 == 0
  {
  }

  lemma LongWrite(app: App, s: Run, n: nat)
    requires s.conn.Ok() && s.conn.phase == Writing && |s.conn.Pending()| >= U32 && n <= |Handed(s.conn.Pending())|
    ensures Legal(s, Wrote(n))
    ensures var t, p := Step(app, s, Wrote(n)), |s.conn.Pending()|;
            && t.conn.phase == Writing && |t.conn.Pending()| == p - n >= U32
            && n <= p % U32 && |t.conn.Pending()| % U32 == p % U32 - n
  {
    hide Step, Conn.Ok, Conn.Pending, Handed;
    HandedLength(s.conn.Pending());
    SameHighPart(|s.conn.Pending()|, n);
    WriteSome(app, s, n);
  }

  /** A shorter one never spins. */
  lemma {:induction false} ShortReplyEnds(app: App, s: Run, ns: seq<nat>)
    requires s.conn.Ok() && (s.conn.phase == Writing ==> |s.conn.Pending()| < U32) && HandedWrites(app, s, ns)
    ensures !Spins(AfterWrites(app, s, ns))
    decreases |ns|
  {
    if ns != [] {
      WriteSome(app, s, ns[0]);
      ShortReplyEnds(app, Step(app, s, Wrote(ns[0])), ns[1..]);
    }
  }

  lemma OneHandedWrite(app: App, s: Run, n: nat)
    requires s.conn.Ok() && s.conn.phase == Writing && n <= |Handed(s.conn.Pending())|
    ensures HandedWrites(app, s, [n]) && Total([n]) == n
  {
    assert Legal(s, Wrote(n));
    hide Step, Conn.Ok, Conn.Pending, Handed, Legal;
    var ns := [n];
    assert ns[1..] == [];
    assert HandedWrites(app, Step(app, s, Wrote(n)), ns[1..]) && Total(ns[1..]) == 0;
  }

  /** What can be known when the reply is made: it may come to spin exactly when it has 2^32 bytes or more. */
  lemma SpinsIffLong(app: App, s: Run)
    requires s.conn.Ok() && s.conn.phase == Writing && s.conn.writePos == 0
    ensures (exists ns :: HandedWrites(app, s, ns) && Spins(AfterWrites(app, s, ns))) <==> |s.conn.writeBuf| >= U32
  {
    var p := |s.conn.Pending()|;
    assert s.conn.Pending() == s.conn.writeBuf;
    if p >= U32 {
      var ns := [p % U32];
      OneHandedWrite(app, s, p % U32);
      LongReplySpins(app, s, ns);
    } else {
      forall ns | HandedWrites(app, s, ns) ensures !Spins(AfterWrites(app, s, ns)) { ShortReplyEnds(app, s, ns); }
    }
  }

  // ---- the runtime's connections ----

  ghost predicate ShortReplies(app: App) {
    forall r: Request {:trigger Reply(app, r)} :: |Reply(app, r)| < U32
  }

  predicate ShortConns(conns: map<Fd, Run>) {
    forall fd :: fd in conns ==> |conns[fd].conn.writeBuf| < U32
  }

  ghost predicate SomeEndless(conns: map<Fd, Run>) {
    exists fd :: Endless(conns, fd)
  }

  lemma ShortNeverEndless(conns: map<Fd, Run>)
    requires ShortConns(conns)
    ensures !SomeEndless(conns)
  {
  }

  lemma ErrorReplyShort(e: ParseError)
    ensures |ErrorReply(e)| < U32
  {
    var body := ErrorResponse(e).body;
    DecimalLength(e.Status(), 3);
    assert |body| < 1000;
    DecimalLength(|body|, 3);
    var r := ErrorResponse(e);
    assert |StatusLine(r.status)| < 1000;
    assert r.headers[1..] == [] && |UserFields(r.headers)| < 1000;
    assert |OwnFields(|body|, false)| < 1000;
  }

  lemma StepKeepsShort(app: App, s: Run, e: Event)
    requires ShortReplies(app) && s.conn.Ok() && Legal(s, e) && |s.conn.writeBuf| < U32
    ensures |Step(app, s, e).conn.writeBuf| < U32
  {
    hide Reply, ErrorReply, Request.WantsKeepAlive, Parse;
    forall e ensures |ErrorReply(e)| < U32 { ErrorReplyShort(e); }
  }

  /** Handling a completion leaves connections refused an operation alone, and short replies short. */
  ghost predicate Progress(app: App, lost: set<Fd>, a: map<Fd, Run>, b: map<Fd, Run>) {
    LostStay(lost, a, b) && (ShortReplies(app) && ShortConns(a) ==> ShortConns(b))
  }

  lemma NoProgress(app: App, lost: set<Fd>, a: map<Fd, Run>)
    ensures Progress(app, lost, a, a)
  {
  }

  lemma ProgressShort(app: App, lost: set<Fd>, a: map<Fd, Run>, b: map<Fd, Run>)
    requires Progress(app, lost, a, b)
    ensures ShortReplies(app) && ShortConns(a) ==> ShortConns(b)
  {
  }

  lemma ProgressAgain(app: App, l: set<Fd>, m: set<Fd>, a: map<Fd, Run>, b: map<Fd, Run>, c: map<Fd, Run>)
    requires Progress(app, l, a, b) && l <= m && Progress(app, m, b, c)
    ensures Progress(app, l, a, c)
  {
    hide ShortReplies;
  }

  lemma DropProgress(app: App, lost: set<Fd>, a: map<Fd, Run>, fd: Fd)
    requires fd !in lost
    ensures Progress(app, lost, a, a - {fd})
  {
  }

  lemma NewProgress(app: App, lost: set<Fd>, a: map<Fd, Run>, fd: Fd)
    requires fd !in lost
    ensures Progress(app, lost, a, a[fd := START])
  {
  }

  lemma FedProgress(app: App, u: Uring, v: Uring, fd: Fd, bid: nat)
    requires FedFrom(app, u, v, fd, bid) && fd !in u.lost
    ensures Progress(app, u.lost, u.conns, v.conns)
  {
    hide Step, Conn.Ok, ShortReplies;
    if ShortReplies(app) && ShortConns(u.conns) { StepKeepsShort(app, u.conns[fd], Feed(u.pool[Addr(bid)])); }
  }

  lemma WrittenProgress(app: App, u: Uring, v: Uring, fd: Fd, n: int)
    requires WrittenBy(app, u, v, fd, n) && fd !in u.lost
    ensures Progress(app, u.lost, u.conns, v.conns)
  {
    hide Step, Conn.Ok, Conn.Pending, ShortReplies;
    if ShortReplies(app) && ShortConns(u.conns) { StepKeepsShort(app, u.conns[fd], Wrote(n)); }
  }

  /** The send completion that takes the last handed byte of a long reply makes its connection spin. */
  lemma LongSendSpins(app: App, u: Uring, v: Uring, fd: Fd)
    requires fd in u.conns && u.conns[fd].conn.Ok() && |u.conns[fd].conn.Pending()| >= U32
    requires WrittenBy(app, u, v, fd, |Handed(u.conns[fd].conn.Pending())|)
    ensures Endless(v.conns, fd)
  {
    var s := u.conns[fd];
    var n := |Handed(s.conn.Pending())|;
    WriteSome(app, s, n);
    SameHighPart(|s.conn.Pending()|, n);
  }

  // ---- an input that comes to it ----

  /** An application that answers everything with 2^32 bytes, a request, and the two events that do it. */
  lemma LongReplyExists() returns (app: App, r: Request)
    ensures Sendable(r) && |Reply(app, r)| >= U32
    ensures var events := [Feed(Print(r)), Wrote(|Reply(app, r)| % U32)];
            LegalAll(app, START, events) && Spins(StepAll(app, START, events))
  {
    var body := seq(U32, _ => 65 as byte);
    var response := Response(200, [], body);
    app := (_: Request) => response;
    r := Request(Get, Ascii("/"), Http11, [], []);
    BareRequest(r);
    var reply := Reply(app, r);
    assert |reply| >= U32;
    hide Reply, Encode, Parse, Print, Sendable, Handed;
    ParseTwice(r);
    assert [] + Print(r) == Print(r);
    var s := Step(app, START, Feed(Print(r)));
    assert s.conn.phase == Writing && s.conn.Pending() == reply;
    OneWrite(app, s, |reply| % U32);
    TwoSteps(app, START, Feed(Print(r)), Wrote(|reply| % U32));
  }

  lemma OneWrite(app: App, s: Run, n: nat)
    requires s.conn.Ok() && s.conn.phase == Writing && |s.conn.Pending()| >= U32 && n == |s.conn.Pending()| % U32
    ensures Spins(Step(app, s, Wrote(n)))
  {
    WriteSome(app, s, n);
    SameHighPart(|s.conn.Pending()|, n);
  }

  lemma BareRequest(r: Request)
    requires r == Request(Get, Ascii("/"), Http11, [], [])
    ensures Sendable(r)
  {
    assert r.path == [47];
    ValidUtf8Ascii(r.path);
    hide ValidUtf8;
    assert |PrintLine(r)| == 3 + 1 + 1 + 1 + 8;
  }
}
