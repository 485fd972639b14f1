/** One connection: bytes in, actions out, a response draining in between. */
module Connections {
  import opened Bytes
  import opened Http
  import opened RequestSpec
  import opened RequestParsing
  import opened ResponseEncoding

  datatype ConnAction = WantRead | WantWrite | Close
  datatype Phase = Reading | Writing | Closed

  // ---- the connection as a value ----

  datatype Conn = Conn(parser: Parser, phase: Phase, writeBuf: bytes, writePos: nat, closeAfterWrite: bool)
  {
    predicate Ok() {
      && (phase == Reading ==> !parser.done && parser.carried == [] && !closeAfterWrite)
      && (phase == Writing ==> writePos < |writeBuf| && parser.done && (!closeAfterWrite ==> parser.headers == []))
      && (phase == Closed ==> closeAfterWrite)
    }

    function Pending(): bytes
      requires Ok()
    {
      if phase == Writing then writeBuf[writePos..] else []
    }

    function Action(): ConnAction {
      match phase
      case Reading => WantRead
      case Writing => WantWrite
      case Closed => Close
    }
  }

  const NEW: Conn := Conn(FRESH, Reading, [], 0, false)

  /** The body of an error response: "<status> <reason>\n". */
  function ErrorResponse(e: ParseError): Response {
    var body := Decimal(e.Status()) + [SP] + Reason(e.Status()) + [LF];
    ErrorBodyShort(e);
    Response(e.Status(), [Header(Ascii("Content-Type"), Ascii("text/plain; charset=utf-8"))], body)
  }

  lemma ErrorBodyShort(e: ParseError)
    ensures |Decimal(e.Status()) + [SP] + Reason(e.Status()) + [LF]| < USIZE_LIMIT
  {
    DecimalLength(e.Status(), 3);
  }

  /** What a request is answered with. */
  function Reply(app: App, r: Request): bytes {
    Encode(app(r), r.WantsKeepAlive(), r.verb != Head)
  }

  function ErrorReply(e: ParseError): bytes {
    Encode(ErrorResponse(e), false, true)
  }

  function Answering(p: Parser, reply: bytes, keepAlive: bool): Conn {
    Conn(p, Writing, reply, 0, !keepAlive)
  }

  function AfterBytes(c: Conn, chunk: bytes, app: App): (Conn, ConnAction) {
    if c.phase != Reading then (c, c.Action())
    else
      var (p, status) := PushView(c.parser, chunk);
      match status
      case Incomplete => (c.(parser := p), WantRead)
      case Complete(r, _) => (Answering(p, Reply(app, r), r.WantsKeepAlive()), WantWrite)
      case Failed(e) => (Answering(p, ErrorReply(e), false), WantWrite)
  }

  function AfterWritten(c: Conn, n: nat): (Conn, ConnAction) {
    if c.phase != Writing then (c, c.Action())
    else if c.writePos + n < |c.writeBuf| then (c.(writePos := c.writePos + n), WantWrite)
    else if c.closeAfterWrite then (c.(writePos := c.writePos + n, phase := Closed), Close)
    else (Conn(ResetView(c.parser), Reading, [], 0, false), WantRead)
  }

  /** The action returned is the one the new state asks for, and the state stays usable. */
  lemma ActionsMatchState(c: Conn, chunk: bytes, n: nat, app: App)
    requires c.Ok()
    ensures var (d, a) := AfterBytes(c, chunk, app); d.Ok() && a == d.Action() && (a == WantWrite <==> d.Pending() != [])
    ensures var (d, a) := AfterWritten(c, n); d.Ok() && a == d.Action() && (a == WantWrite <==> d.Pending() != [])
  {
    hide Encode, Parse, Request.WantsKeepAlive;
  }

  // ---- the connection ----

  class Connection {
    const parser: RequestParser
    var state: Phase
    var writeBuf: bytes
    var writePos: nat
    var closeAfterWrite: bool

    ghost function View(): Conn
      reads this, parser
    {
      Conn(parser.View(), state, writeBuf, writePos, closeAfterWrite)
    }

    /**
     Between requests the parser holds no header of an earlier one, and over the whole connection the
     line scan has taken no more steps than bytes were received.
     */
    ghost predicate Valid()
      reads this, parser
    {
      && parser.Valid() && View().Ok()
      && (state == Reading ==> parser.Linear())
      && (state == Writing && !closeAfterWrite ==> parser.scanSteps <= parser.drained)
      && parser.scanSteps <= Received()
    }

    ghost function Received(): nat
      reads parser
    {
      parser.drained + |parser.buf|
    }

    constructor ()
      ensures Valid() && View() == NEW && Received() == 0
      ensures fresh(parser)
    {
      parser := new RequestParser();
      state := Reading;
      writeBuf, writePos, closeAfterWrite := [], 0, false;
    }

    method OnBytes(chunk: bytes, app: App) returns (action: ConnAction)
      requires Valid()
      modifies this, parser
      ensures Valid()
      ensures (View(), action) == AfterBytes(old(View()), chunk, app)
      ensures Received() == old(Received()) + if old(state) == Reading then |chunk| else 0
    {
      hide Parse, Encode, Request.WantsKeepAlive, ErrorReply;
      if state != Reading {
        action := ActionForState();
        return;
      }
      var status := parser.Push(chunk);
      action := HandleStatus(status, app);
    }

    method PendingWrite() returns (pending: bytes)
      requires Valid()
      ensures pending == View().Pending()
    {
      pending := if state == Writing then writeBuf[writePos..] else [];
    }

    method OnWritten(n: nat) returns (action: ConnAction)
      requires Valid()
      modifies this, parser
      ensures Valid()
      ensures (View(), action) == AfterWritten(old(View()), n)
      ensures Received() == old(Received())
    {
      if state != Writing {
        action := ActionForState();
        return;
      }
      writePos := writePos + n;
      if writePos < |writeBuf| { return WantWrite; }
      if closeAfterWrite {
        state := Closed;
        return Close;
      }
      parser.Reset();
      writeBuf := [];
      writePos := 0;
      state := Reading;
      action := WantRead;
    }

    method HandleStatus(status: ParseStatus, app: App) returns (action: ConnAction)
      requires parser.Valid()
      modifies this
      ensures state == match status case Incomplete => Reading case _ => Writing
      ensures status.Incomplete? ==> unchanged(this`writeBuf, this`writePos, this`closeAfterWrite) && action == WantRead
      ensures !status.Incomplete? ==> writePos == 0 && writeBuf != [] && action == WantWrite
      ensures status.Complete? ==>
                writeBuf == Reply(app, status.request) && closeAfterWrite == !status.request.WantsKeepAlive()
      ensures status.Failed? ==> writeBuf == ErrorReply(status.error) && closeAfterWrite
    {
      match status {
        case Incomplete =>
          state := Reading;
          action := WantRead;
        case Complete(request, _) =>
          var includeBody := request.verb != Head;
          var keepAlive := request.WantsKeepAlive();
          var response := app(request);
          StartWriting(response, keepAlive, includeBody);
          action := WantWrite;
        case Failed(err) =>
          StartWriting(ErrorResponse(err), false, true);
          action := WantWrite;
      }
    }

    method StartWriting(response: Response, keepAlive: bool, includeBody: bool)
      modifies this
      ensures writeBuf == Encode(response, keepAlive, includeBody) && writePos == 0
      ensures closeAfterWrite == !keepAlive && state == Writing
    {
      writeBuf := [];
      writePos := 0;
      writeBuf := EncodeTo(response, keepAlive, includeBody, writeBuf);
      closeAfterWrite := !keepAlive;
      state := Writing;
    }

    method ActionForState() returns (action: ConnAction)
      ensures action == View().Action()
    {
      action := match state case Reading => WantRead case Writing => WantWrite case Closed => Close;
    }
  }
}
