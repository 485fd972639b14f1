/** Driving one connection's socket: one operation per event, or until the kernel says stop. */
module EventIo {
  import opened Bytes
  import opened Http
  import opened Connections
  import opened Refinement
  import opened Kernel
  import opened Environment

  // ---- what the loop does with each result ----

  datatype Next = Go(action: ConnAction) | Stop(action: ConnAction)

  /** The direction is read off the connection itself. */
  function Start(c: Conn): ConnAction
    requires c.Ok()
  {
    if c.Pending() == [] then WantRead else WantWrite
  }

  function Feeding(app: App, s: Run, data: bytes): (Run, Next)
    requires s.conn.Ok()
  {
    var t := Step(app, s, Feed(data));
    (t, if t.conn.Action() == ConnAction.Close then Stop(ConnAction.Close) else Go(t.conn.Action()))
  }

  function Writing(app: App, s: Run, n: nat): (Run, Next)
    requires s.conn.Ok() && n <= |s.conn.Pending()|
  {
    if n == 0 then (s, Stop(ConnAction.Close))
    else
      var t := Step(app, s, Wrote(n));
      (t, if t.conn.Action() == WantRead then Go(WantRead) else Stop(t.conn.Action()))
  }

  /** End of file, an error, or a write of nothing: the connection is over whatever its own state. */
  predicate Ends(r: IoResult) {
    r.Eof? || r.Failure? || r == Sent(0)
  }

  /** One operation, the result the kernel gave it, and whether the loop may go on. */
  function IoStep(app: App, s: Run, a: ConnAction, r: IoResult): (x: (Run, Next))
    requires s.conn.Ok()
    ensures x.0.conn.Ok()
  {
    match (a, r)
    case (WantRead, Got(data)) => Feeding(app, s, data)
    case (WantRead, WouldBlock) => (s, Stop(WantRead))
    case (WantWrite, Sent(n)) => Writing(app, s, if n <= |s.conn.Pending()| then n else |s.conn.Pending()|)
    case (WantWrite, WouldBlock) => (s, Stop(WantWrite))
    case _ => (s, Stop(ConnAction.Close))
  }

  /** Edge discipline: the action carried from step to step, all in one call. */
  function EdgeCall(app: App, s: Run, trace: seq<IoResult>): (x: (Run, Next))
    requires s.conn.Ok()
    ensures x.0.conn.Ok()
    decreases |trace|
  {
    if trace == [] then (s, Go(Start(s.conn)))
    else
      var (t, next) := EdgeCall(app, s, trace[..|trace| - 1]);
      match next
      case Stop(_) => (t, next)
      case Go(a) => IoStep(app, t, a, trace[|trace| - 1])
  }

  /** Level discipline: one call after another, each with one result, while the one before said to go on. */
  function LevelCalls(app: App, s: Run, results: seq<IoResult>): (x: (Run, Next))
    requires s.conn.Ok()
    ensures x.0.conn.Ok()
    decreases |results|
  {
    if results == [] then (s, Go(Start(s.conn)))
    else
      var (t, next) := EdgeCall(app, s, results[..1]);
      match next
      case Stop(_) => (t, next)
      case Go(_) => LevelCalls(app, t, results[1..])
  }

  lemma GoMeansStart(app: App, s: Run, a: ConnAction, r: IoResult)
    requires s.conn.Ok()
    ensures var (t, next) := IoStep(app, s, a, r); next.Go? ==> next.action == Start(t.conn) == t.conn.Action()
  {
    hide Conn.Pending, AfterBytes, AfterWritten;
    match (a, r)
    case (WantRead, Got(data)) => ActionsMatchState(s.conn, data, 0, app);
    case (WantWrite, Sent(n)) =>
      ActionsMatchState(s.conn, [], if n <= |s.conn.Pending()| then n else |s.conn.Pending()|, app);
    case _ =>
  }

  /**
   Draining in one call is the same as yielding after each operation and being called again, up to the
   first WouldBlock, short write, failure or close.
   */
  lemma {:induction false} DrainIsRepeatedLevel(app: App, s: Run, trace: seq<IoResult>)
    requires s.conn.Ok()
    ensures EdgeCall(app, s, trace) == LevelCalls(app, s, trace)
    decreases |trace|
  {
    hide IoStep, Start, EdgeCall;
    if trace == [] {
      EdgeCallNothing(app, s);
    } else {
      var first, others := trace[..1], trace[1..];
      assert trace == first + others;
      EdgeCallSplits(app, s, first, others);
      DrainIsRepeatedLevel(app, EdgeCall(app, s, first).0, others);
    }
  }

  /** A call that may go on ends where the next one starts. */
  lemma {:induction false} GoesOnAsStarted(app: App, s: Run, trace: seq<IoResult>)
    requires s.conn.Ok()
    ensures var (t, next) := EdgeCall(app, s, trace); next.Go? ==> next.action == Start(t.conn)
    decreases |trace|
  {
    hide IoStep, Start;
    if trace != [] {
      var (t, next) := EdgeCall(app, s, trace[..|trace| - 1]);
      GoMeansStart(app, t, next.action, trace[|trace| - 1]);
    }
  }

  lemma {:induction false} EdgeCallSplits(app: App, s: Run, first: seq<IoResult>, others: seq<IoResult>)
    requires s.conn.Ok()
    ensures var (t, next) := EdgeCall(app, s, first);
            EdgeCall(app, s, first + others) == if next.Stop? then (t, next) else EdgeCall(app, t, others)
    decreases |others|
  {
    hide IoStep, Start, EdgeCall;
    var (t, next) := EdgeCall(app, s, first);
    if others == [] {
      assert first + others == first;
      EdgeCallNothing(app, t);
      GoesOnAsStarted(app, s, first);
    } else {
      var before, r := others[..|others| - 1], others[|others| - 1];
      assert first + others == (first + before) + [r] && others == before + [r];
      EdgeCallSplits(app, s, first, before);
      EdgeCallSnoc(app, s, first + before, r);
      EdgeCallSnoc(app, t, before, r);
    }
  }

  // ---- a call is a stretch of the connection's run ----

  lemma {:induction false} CallKeepsInv(app: App, s: Run, trace: seq<IoResult>)
    requires Inv(app, s)
    ensures Inv(app, EdgeCall(app, s, trace).0)
    decreases |trace|
  {
    hide Inv, Start;
    if trace != [] {
      var before := trace[..|trace| - 1];
      assert s.conn.Ok() by { InvOk(app, s); }
      CallKeepsInv(app, s, before);
      var (t, next) := EdgeCall(app, s, before);
      if next.Go? { IoKeepsInv(app, t, next.action, trace[|trace| - 1]); }
    }
  }

  lemma IoKeepsInv(app: App, s: Run, a: ConnAction, r: IoResult)
    requires Inv(app, s)
    ensures Inv(app, IoStep(app, s, a, r).0)
  {
    InvOk(app, s);
    hide Inv, Step;
    match (a, r)
    case (WantRead, Got(data)) => StepKeepsInv(app, s, Feed(data));
    case (WantWrite, Sent(n)) =>
      StepKeepsInv(app, s, Wrote(if n <= |s.conn.Pending()| then n else |s.conn.Pending()|));
    case _ =>
  }

  // ---- the loop ----

  lemma OnlyServedAgain(k: Kernel, l: Kernel, m: Kernel, fd: Fd)
    requires OnlyServed(k, l, fd) && OnlyServed(l, m, fd)
    ensures OnlyServed(k, m, fd)
  {
  }

  /**
   Reads and writes the socket as far as the discipline allows. It terminates: a read takes bytes that
   are finite, a write that does not end the call empties what is pending.
   */
  method DriveIo(w: World, fd: Fd, s: Run, app: App, drain: bool) returns (t: Run, action: ConnAction, ghost trace: seq<IoResult>)
    requires fd in w.k.socks && Inv(app, s) && s.conn.phase != Closed
    requires s.fed == w.k.socks[fd].taken && s.sent == w.k.socks[fd].out
    modifies w`k, w`diary
    ensures OnlyServed(old(w.k), w.k, fd) && Inv(app, t)
    ensures w.diary == old(w.diary).(log := old(w.diary.log) + trace) && trace != []
    ensures action == ConnAction.Close <==> t.conn.phase == Closed || Ends(trace[|trace| - 1])
    ensures t.fed == w.k.socks[fd].taken && t.sent == w.k.socks[fd].out
    ensures t == EdgeCall(app, s, trace).0 && (action != ConnAction.Close ==> t.conn.phase != Closed)
    ensures drain ==> EdgeCall(app, s, trace).1 == Stop(action)
    ensures !drain ==> |trace| == 1 && EdgeCall(app, s, trace).1.action == action
    ensures action != ConnAction.Close ==> action == Start(t.conn) == t.conn.Action()
    ensures drain && action == WantRead ==>
              trace != [] && trace[|trace| - 1] == WouldBlock && !w.k.socks[fd].Readable()
    ensures drain && action == WantWrite ==> w.k.socks[fd].room == 0
  {
    hide OnlyServed, Inv, Step, EdgeCall, Owed, Serve, Conn.Ok;
    InvOk(app, s);
    SelfServed(w.k, fd);
    EdgeCallNothing(app, s);
    t := s;
    trace := [];
    action := if s.conn.Pending() == [] then WantRead else WantWrite;
    while true
      invariant fd in w.k.socks && Inv(app, t) && t.conn.Ok()
      invariant OnlyServed(old(w.k), w.k, fd)
      invariant t.fed == w.k.socks[fd].taken && t.sent == w.k.socks[fd].out
      invariant EdgeCall(app, s, trace) == (t, if action == ConnAction.Close then Stop(action) else Go(action))
      invariant drain || trace == []
      invariant w.diary == old(w.diary).(log := old(w.diary.log) + trace)
      invariant action == ConnAction.Close <==> t.conn.phase == Closed
      invariant action == ConnAction.Close ==> trace != []
      invariant action != ConnAction.Close ==> action == Start(t.conn) == t.conn.Action()
      decreases w.k.socks[fd].Unread(), |t.conn.Pending()|, action != ConnAction.Close
    {
      ghost var k0 := w.k;
      match action {
        case WantRead =>
          var r := w.Read(fd);
          OnlyServedAgain(old(w.k), k0, w.k, fd);
          EdgeCallSnoc(app, s, trace, r);
          trace := trace + [r];
          match r {
            case Eof => action := ConnAction.Close; return;
            case Got(data) =>
              FeedStep(app, t, data);
              t := Step(app, t, Feed(data));
              action := t.conn.Action();
              if !drain { return; }
            case WouldBlock => action := WantRead; return;
            case Failure => action := ConnAction.Close; return;
          }
        case WantWrite =>
          var pending := t.conn.Pending();
          var r := w.Write(fd, pending);
          OnlyServedAgain(old(w.k), k0, w.k, fd);
          EdgeCallSnoc(app, s, trace, r);
          trace := trace + [r];
          match r {
            case Sent(n) =>
              if n == 0 { action := ConnAction.Close; return; }
              WroteStep(app, t, n);
              t := Step(app, t, Wrote(n));
              action := t.conn.Action();
              if action == WantWrite { return; }
              if !drain { return; }
            case WouldBlock => action := WantWrite; return;
            case Failure => action := ConnAction.Close; return;
          }
        case Close =>
          return;
      }
    }
  }

  lemma SelfServed(k: Kernel, fd: Fd)
    ensures OnlyServed(k, k, fd)
  {
  }

  lemma ServedSameSocks(k: Kernel, l: Kernel, fd: Fd)
    requires OnlyServed(k, l, fd)
    ensures l.socks.Keys == k.socks.Keys
  {
  }

  lemma EdgeCallNothing(app: App, s: Run)
    requires s.conn.Ok()
    ensures EdgeCall(app, s, []) == (s, Go(Start(s.conn)))
  {
  }

  lemma EdgeCallSnoc(app: App, s: Run, trace: seq<IoResult>, r: IoResult)
    requires s.conn.Ok()
    ensures var (t, next) := EdgeCall(app, s, trace);
            EdgeCall(app, s, trace + [r]) == if next.Stop? then (t, next) else IoStep(app, t, next.action, r)
  {
    hide IoStep;
    assert (trace + [r])[..|trace|] == trace;
  }

  lemma FeedStep(app: App, s: Run, data: bytes)
    requires Inv(app, s) && s.conn.Ok() && s.conn.phase == Reading
    ensures var t := Step(app, s, Feed(data));
            && Inv(app, t) && t.fed == s.fed + data && t.sent == s.sent
            && (t.conn.Action() == WantWrite <==> t.conn.Pending() != [])
            && t.conn.Action() == Start(t.conn)
  {
    StepKeepsInv(app, s, Feed(data));
    hide Inv, AfterBytes;
    ActionsMatchState(s.conn, data, 0, app);
  }

  lemma WroteStep(app: App, s: Run, n: nat)
    requires Inv(app, s) && s.conn.Ok() && n <= |s.conn.Pending()|
    ensures var t := Step(app, s, Wrote(n));
            && Inv(app, t) && t.fed == s.fed && t.sent == s.sent + s.conn.Pending()[..n]
            && (t.conn.Action() == WantWrite <==> t.conn.Pending() != [])
            && (t.conn.Action() != ConnAction.Close ==> t.conn.Action() == Start(t.conn))
            && (0 < n < |s.conn.Pending()| ==> t.conn.Action() == WantWrite)
            && (n == |s.conn.Pending()| ==> t.conn.Pending() == [])
  {
    StepKeepsInv(app, s, Wrote(n));
    hide Inv;
    ActionsMatchState(s.conn, [], n, app);
  }
}
