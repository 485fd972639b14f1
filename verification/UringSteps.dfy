/** Steps of the io_uring kernel and runtime, and what they mean for clients. */
module UringSteps {
  import opened Bytes
  import opened Http
  import opened Connections
  import opened Refinement
  import opened Kernel
  import opened Words
  import opened BufferRing
  import opened UringState

  /** A kernel step leaves alone the runtime's tables, what it has in hand and completions not yet handled. */
  ghost predicate Undisturbed(u: Uring, v: Uring, busy: set<Fd>, inHand: set<nat>) {
    && v.conns == u.conns && v.generation == u.generation && v.accepted == u.accepted && v.armed == u.armed
    && v.lost == u.lost && v.leaked == u.leaked
    && DoneKept(Of(u), Of(v), {})
    && (forall fd :: fd in busy && fd in u.streams ==> fd in v.streams && v.streams[fd] == u.streams[fd])
    && (forall bid {:trigger Addr(bid)} :: bid in inHand && Addr(bid) in u.pool ==>
          Addr(bid) in v.pool && v.pool[Addr(bid)] == u.pool[Addr(bid)])
  }

  /** The operations known so far, numbered below `next`, and the descriptors refused one. */
  datatype Requests = Requests(ops: map<nat, Op>, next: nat, lost: set<Fd>)

  function Of(u: Uring): Requests { Requests(u.ops, u.next, u.lost) }

  /**
   Completions not yet handled stay as they are, but for those in `but`, which are gone; none comes back.
   What was refused stays refused.
   */
  ghost predicate DoneKept(a: Requests, b: Requests, but: set<nat>) {
    && a.next <= b.next && a.lost <= b.lost
    && (forall id :: id in a.ops && a.ops[id].stage.Done? && id !in but ==> id in b.ops && b.ops[id] == a.ops[id])
    && (forall id :: id in b.ops && id < a.next ==> id in a.ops && id !in but)
  }

  lemma UndisturbedSelf(u: Uring, busy: set<Fd>, inHand: set<nat>)
    ensures Undisturbed(u, u, busy, inHand)
  {
  }

  lemma UndisturbedAgain(u: Uring, v: Uring, w: Uring, busy: set<Fd>, inHand: set<nat>)
    requires Undisturbed(u, v, busy, inHand) && Undisturbed(v, w, busy, inHand)
    ensures Undisturbed(u, w, busy, inHand)
  {
  }

  // ---- the kernel's steps ----

  /** A recv completes with a buffer: `n` bytes of data in it, no more than it has room for, or none and a result that says so. */
  predicate Fills(n: int, data: bytes) {
    if n > 0 then |data| == n <= BUF_SIZE else data == []
  }

  ghost function Received(u: Uring, id: nat, n: int, data: bytes): Uring
    requires u.bufs.Framed() && u.bufs.head < u.bufs.tail
    requires id in u.ops && u.ops[id].sqe.Recv? && u.ops[id].sqe.fd in u.streams
  {
    var x := u.streams[u.ops[id].sqe.fd];
    Finished(Filled(u, data), id, Done(n, false, Some(u.bufs.Window()[0])), x.(taken := x.taken + data))
  }

  lemma ReceivingLeaves(app: App, cap: nat, u: Uring, busy: set<Fd>, inHand: set<nat>, id: nat, n: int, data: bytes)
    requires InOrder(app, cap, u, busy, inHand) && id in u.ops && u.ops[id].sqe.Recv? && u.ops[id].stage.InFlight?
    requires u.bufs.head < u.bufs.tail && Fills(n, data)
    ensures u.ops[id].sqe.fd in u.streams && InOrder(app, cap, Received(u, id, n, data), busy, inHand)
    ensures Undisturbed(u, Received(u, id, n, data), busy, inHand)
  {
    hide InOrder, OpFits, Inv, Undisturbed, Conn.Ok, KeyOk, Bufs.Ok;
    Parts(app, cap, u, busy, inHand);
    WindowThere(cap, u);
    InFlightFits(app, cap, u, busy, inHand, id);
    var bid, v, fd := u.bufs.Window()[0], Filled(u, data), u.ops[id].sqe.fd;
    var x, stage := u.streams[fd].(taken := u.streams[fd].taken + data), Done(n, false, Some(bid));
    FillingLeaves(app, cap, u, busy, inHand, data);
    NotInHand(app, cap, u, busy, inHand, bid);
    assert Addr(bid) in v.pool && v.pool[Addr(bid)] == data;
    RecvDone(u, v, id, bid, n, data);
    FinishingLeaves(app, cap, v, busy, inHand + {bid}, id, stage, x);
    assert (inHand + {bid}) - {bid} == inHand;
    ReceivedUndisturbed(u, id, n, data, busy, inHand);
  }

  lemma WindowThere(cap: nat, u: Uring)
    requires Sound(cap, u)
    ensures u.bufs.Framed()
  {
  }

  lemma NotInHand(app: App, cap: nat, u: Uring, busy: set<Fd>, inHand: set<nat>, bid: nat)
    requires InOrder(app, cap, u, busy, inHand) && bid !in u.bufs.held
    ensures bid !in inHand
  {
    assert BufOk(u, inHand, bid);
  }

  /** An operation in flight fits its connection, which is not busy. */
  lemma InFlightFits(app: App, cap: nat, u: Uring, busy: set<Fd>, inHand: set<nat>, id: nat)
    requires InOrder(app, cap, u, busy, inHand) && id in u.ops && u.ops[id].sqe.OnConn()
    ensures var fd := u.ops[id].sqe.fd;
            && fd in u.conns && fd in u.generation && fd in u.streams && fd !in busy && u.conns[fd].conn.Ok()
            && OpFits(u.ops[id], u.generation[fd], u.conns[fd], u.streams[fd], u.pool)
  {
    var fd := u.ops[id].sqe.fd;
    assert OpOk(u, id, u.ops[id]) && KeyOk(u, busy, fd);
    assert ConnOk(app, u, fd, u.conns[fd]);
  }

  lemma RecvDone(u: Uring, v: Uring, id: nat, bid: nat, n: int, data: bytes)
    requires v == u.(bufs := v.bufs, pool := u.pool[Addr(bid) := data]) && Fills(n, data)
    requires id in u.ops && u.ops[id].sqe.Recv? && u.ops[id].stage.InFlight?
    requires var fd := u.ops[id].sqe.fd;
             && fd in u.conns && fd in u.generation && fd in u.streams && u.conns[fd].conn.Ok()
             && OpFits(u.ops[id], u.generation[fd], u.conns[fd], u.streams[fd], u.pool)
    ensures var fd := u.ops[id].sqe.fd; var x := u.streams[fd];
            OpFits(v.ops[id].(stage := Done(n, false, Some(bid))), v.generation[fd], v.conns[fd],
                   x.(taken := x.taken + data), v.pool)
  {
    hide Conn.Ok;
  }

  lemma ReceivedUndisturbed(u: Uring, id: nat, n: int, data: bytes, busy: set<Fd>, inHand: set<nat>)
    requires u.bufs.Framed() && u.bufs.head < u.bufs.tail && u.bufs.Window()[0] !in inHand
    requires id in u.ops && u.ops[id].sqe.Recv? && u.ops[id].stage.InFlight?
    requires u.ops[id].sqe.fd in u.streams && u.ops[id].sqe.fd !in busy
    ensures Undisturbed(u, Received(u, id, n, data), busy, inHand)
  {
    hide Picked;
  }

  /** A send that ends having written `n` bytes, or a recv or send that fails. */
  function Ended(u: Uring, id: nat, n: int): Uring
    requires id in u.ops && u.ops[id].sqe.OnConn() && u.ops[id].sqe.fd in u.streams
  {
    var x, op := u.streams[u.ops[id].sqe.fd], u.ops[id];
    Finished(u, id, Done(n, false, None),
             if op.sqe.Send? && 0 <= n <= |op.sqe.data| then x.(out := x.out + op.sqe.data[..n]) else x)
  }

  lemma EndingLeaves(app: App, cap: nat, u: Uring, busy: set<Fd>, inHand: set<nat>, id: nat, n: int)
    requires InOrder(app, cap, u, busy, inHand) && id in u.ops && u.ops[id].sqe.OnConn() && u.ops[id].stage.InFlight?
    requires u.ops[id].sqe.Send? ==> n <= |u.ops[id].sqe.data|
    ensures u.ops[id].sqe.fd in u.streams && InOrder(app, cap, Ended(u, id, n), busy, inHand)
    ensures Undisturbed(u, Ended(u, id, n), busy, inHand)
  {
    hide InOrder, OpFits, Inv;
    InFlightFits(app, cap, u, busy, inHand, id);
    var op := u.ops[id];
    var x := u.streams[op.sqe.fd];
    var y := if op.sqe.Send? && 0 <= n <= |op.sqe.data| then x.(out := x.out + op.sqe.data[..n]) else x;
    EndedFits(u, id, n, y);
    FinishingLeaves(app, cap, u, busy, inHand, id, Done(n, false, None), y);
    assert inHand - {} == inHand;
  }

  lemma EndedFits(u: Uring, id: nat, n: int, y: Stream)
    requires id in u.ops && u.ops[id].sqe.OnConn() && u.ops[id].stage.InFlight?
    requires u.ops[id].sqe.Send? ==> n <= |u.ops[id].sqe.data|
    requires var fd := u.ops[id].sqe.fd;
             && fd in u.conns && fd in u.generation && fd in u.streams && u.conns[fd].conn.Ok()
             && OpFits(u.ops[id], u.generation[fd], u.conns[fd], u.streams[fd], u.pool)
             && var x := u.streams[fd];
                y == if u.ops[id].sqe.Send? && 0 <= n then x.(out := x.out + u.ops[id].sqe.data[..n]) else x
    ensures var fd := u.ops[id].sqe.fd;
            OpFits(u.ops[id].(stage := Done(n, false, None)), u.generation[fd], u.conns[fd], y, u.pool)
  {
    hide Conn.Ok, Conn.Pending;
    assert forall b: bytes :: b + [] == b;
  }

  lemma ClosedUndisturbed(app: App, cap: nat, u: Uring, busy: set<Fd>, inHand: set<nat>, id: nat, n: int)
    requires InOrder(app, cap, u, busy, inHand) && id in u.ops && u.ops[id].sqe.CloseFd? && u.ops[id].stage.InFlight?
    ensures Undisturbed(u, ClosedBy(u, id, n), busy, inHand)
  {
    hide InOrder, Sound, BufOk;
    Parts(app, cap, u, busy, inHand);
    assert KeyOk(u, busy, u.ops[id].sqe.fd);
    ClosingNotBusy(u, id, busy);
    hide OpOk, KeyOk;
  }

  lemma ClosingNotBusy(u: Uring, id: nat, busy: set<Fd>)
    requires id in u.ops && u.ops[id].sqe.CloseFd? && u.ops[id].stage.InFlight? && OpOk(u, id, u.ops[id])
    requires KeyOk(u, busy, u.ops[id].sqe.fd)
    ensures u.ops[id].sqe.fd !in busy
  {
  }

  lemma AcceptedUndisturbed(app: App, cap: nat, u: Uring, busy: set<Fd>, inHand: set<nat>, id: nat, n: int, more: bool)
    requires InOrder(app, cap, u, busy, inHand) && MayReport(u, id, n, more)
    ensures u.ops[u.arm].sqe.AcceptMulti? && Undisturbed(u, AcceptedAs(u, id, n, more), busy, inHand)
  {
    hide InOrder, Sound, KeyOk, BufOk, OpOk;
    Parts(app, cap, u, busy, inHand);
    ArmIsAccept(cap, u);
  }

  lemma ArmedBy(app: App, cap: nat, u: Uring, busy: set<Fd>, inHand: set<nat>, id: nat)
    requires InOrder(app, cap, u, busy, inHand) && id in u.ops && u.ops[id].sqe.AcceptMulti? && u.ops[id].stage.InFlight?
    ensures u.armed && u.arm == id < u.next
  {
    assert OpOk(u, id, u.ops[id]);
  }

  // ---- the runtime's steps ----

  lemma MaySubmitStill(app: App, u: Uring, v: Uring, sqe: Sqe, owner: nat)
    requires MaySubmit(app, u, sqe, owner) && Undisturbed(u, v, Frees(sqe), {})
    ensures MaySubmit(app, v, sqe, owner)
  {
    hide Inv, DoneKept;
    if sqe.OnConn() { assert sqe.fd in Frees(sqe) && sqe.fd in u.streams; }
  }

  /** A descriptor just accepted is open, unused, and no connection's. */
  lemma AcceptedIsNew(app: App, cap: nat, u: Uring, id: nat)
    requires InOrder(app, cap, u, {}, {}) && id in u.ops && u.ops[id].sqe.AcceptMulti?
    requires u.ops[id].stage.Done? && u.ops[id].stage.result >= 0
    ensures var fd := u.ops[id].stage.result; fd !in u.conns && fd in u.streams && u.streams[fd] == Stream([], [])
  {
    assert OpOk(u, id, u.ops[id]);
  }

  lemma StartIsSettled(app: App, u: Uring, fd: Fd)
    requires fd in u.streams && u.streams[fd] == Stream([], []) && fd in u.conns && u.conns[fd] == START && fd in u.generation
    ensures Settled(app, u, fd)
  {
    StartInv(app);
  }

  /** A recv of `fd` has been taken off the queue with `n` bytes in buffer `bid`, which its connection has yet to see. */
  ghost predicate Arrived(app: App, u: Uring, fd: Fd, bid: nat, n: int) {
    && fd in u.conns && fd in u.generation && fd in u.streams && Inv(app, u.conns[fd]) && u.conns[fd].conn.phase == Reading
    && Addr(bid) in u.pool && |u.pool[Addr(bid)]| == n && 0 < n <= BUF_SIZE
    && u.streams[fd].taken == u.conns[fd].fed + u.pool[Addr(bid)] && u.streams[fd].out == u.conns[fd].sent
  }

  /** A send of `fd` has been taken off the queue, `n` of the pending bytes written. */
  ghost predicate Departed(app: App, u: Uring, fd: Fd, n: int) {
    && fd in u.conns && fd in u.generation && fd in u.streams && Inv(app, u.conns[fd]) && u.conns[fd].conn.Ok()
    && u.conns[fd].conn.phase == Writing && 0 <= n <= |u.conns[fd].conn.Pending()|
    && u.streams[fd].taken == u.conns[fd].fed && u.streams[fd].out == u.conns[fd].sent + u.conns[fd].conn.Pending()[..n]
  }

  lemma RecvArrived(app: App, cap: nat, u: Uring, v: Uring, id: nat)
    requires InOrder(app, cap, u, {}, {}) && id in u.ops && u.ops[id].sqe.Recv? && u.ops[id].stage.Done? && v == Reaped(u, id)
    ensures var op := u.ops[id];
            && op.sqe.fd in v.conns && Busy(op) == {op.sqe.fd}
            && match op.stage.bid
               case Some(bid) =>
                 InHand(op) == {bid} && (op.stage.result > 0 ==> Arrived(app, v, op.sqe.fd, bid, op.stage.result))
               case None => InHand(op) == {}
  {
    CompletionFindsItsConn(app, cap, u, id);
    hide InOrder, Owed, Serve;
  }

  lemma SendDeparted(app: App, cap: nat, u: Uring, v: Uring, id: nat)
    requires InOrder(app, cap, u, {}, {}) && id in u.ops && u.ops[id].sqe.Send? && u.ops[id].stage.Done? && v == Reaped(u, id)
    ensures var op := u.ops[id];
            && op.sqe.fd in v.conns && Busy(op) == {op.sqe.fd} && InHand(op) == {}
            && (op.stage.result >= 0 ==> Departed(app, v, op.sqe.fd, op.stage.result))
  {
    CompletionFindsItsConn(app, cap, u, id);
    var op := u.ops[id];
    hide InOrder, Owed, Serve, Conn.Pending;
    if op.stage.result >= 0 {
      assert op.sqe.data[..op.stage.result] == u.conns[op.sqe.fd].conn.Pending()[..op.stage.result];
    }
  }

  lemma ArrivedStill(app: App, u: Uring, v: Uring, fd: Fd, bid: nat, n: int)
    requires Arrived(app, u, fd, bid, n) && Undisturbed(u, v, {fd}, {bid})
    ensures Arrived(app, v, fd, bid, n) && v.conns == u.conns
    ensures Addr(bid) in u.pool && Addr(bid) in v.pool && v.pool[Addr(bid)] == u.pool[Addr(bid)]
  {
    hide Inv, DoneKept;
  }

  /** Feeding the connection the buffer its recv filled brings it level with the socket. */
  lemma FeedingSettles(app: App, u: Uring, fd: Fd, bid: nat, n: int)
    requires Arrived(app, u, fd, bid, n)
    ensures u.conns[fd].conn.Ok() && u.pool[Addr(bid)][..n] == u.pool[Addr(bid)]
    ensures var t := Step(app, u.conns[fd], Feed(u.pool[Addr(bid)]));
            Settled(app, u.(conns := u.conns[fd := t]), fd) && t.conn.Ok() && t.conn.phase != Closed
  {
    InvOk(app, u.conns[fd]);
    StepKeepsInv(app, u.conns[fd], Feed(u.pool[Addr(bid)]));
    hide Inv, Conn.Ok, Reply, ErrorReply, Request.WantsKeepAlive;
  }

  /** Reporting what the kernel sent brings it level likewise. */
  lemma WritingSettles(app: App, u: Uring, fd: Fd, n: int)
    requires Departed(app, u, fd, n)
    ensures var t := Step(app, u.conns[fd], Wrote(n)); Settled(app, u.(conns := u.conns[fd := t]), fd) && t.conn.Ok()
  {
    StepKeepsInv(app, u.conns[fd], Wrote(n));
    hide Inv, Conn.Ok, Conn.Pending, AfterWritten;
  }

  ghost predicate FedFrom(app: App, u: Uring, v: Uring, fd: Fd, bid: nat) {
    && fd in u.conns && u.conns[fd].conn.Ok() && Addr(bid) in u.pool
    && v.conns == u.conns[fd := Step(app, u.conns[fd], Feed(u.pool[Addr(bid)]))]
  }

  lemma FedFromReaped(app: App, u: Uring, r: Uring, v: Uring, fd: Fd, bid: nat)
    requires FedFrom(app, r, v, fd, bid) && r.conns == u.conns
    requires Addr(bid) in r.pool ==> Addr(bid) in u.pool && u.pool[Addr(bid)] == r.pool[Addr(bid)]
    ensures FedFrom(app, u, v, fd, bid)
  {
  }

  ghost predicate WrittenBy(app: App, u: Uring, v: Uring, fd: Fd, n: int) {
    && fd in u.conns && u.conns[fd].conn.Ok() && 0 <= n <= |u.conns[fd].conn.Pending()|
    && var t := Step(app, u.conns[fd], Wrote(n));
       v.conns == if t.conn.phase == Closed then u.conns - {fd} else u.conns[fd := t]
  }

  /** The length of what is pending, in 32 bits, is zero though bytes are pending. */
  predicate Spins(s: Run) {
    s.conn.Ok() && s.conn.Pending() != [] && |s.conn.Pending()| % U32 == 0
  }

  predicate Endless(conns: map<Fd, Run>, fd: Fd) {
    fd in conns && Spins(conns[fd])
  }

  lemma EndlessWhen(conns: map<Fd, Run>, fd: Fd)
    requires fd in conns && conns[fd].conn.Ok()
    ensures Endless(conns, fd) <==> conns[fd].conn.phase == Writing && |conns[fd].conn.Pending()| % U32 == 0
  {
  }

  /** The operation an action asks for. */
  function Wanted(action: ConnAction, fd: Fd, c: Conn): Sqe
    requires c.Ok()
  {
    match action
    case WantRead => Recv(fd)
    case WantWrite => Send(fd, Handed(c.Pending()))
    case Close => CloseFd(fd)
  }

  lemma ActionSaysPhase(app: App, u: Uring, fd: Fd)
    requires Settled(app, u, fd) && u.conns[fd].conn.Ok()
    ensures fd in u.conns
    ensures match u.conns[fd].conn.Action()
            case WantRead => u.conns[fd].conn.phase == Reading && !Endless(u.conns, fd)
            case WantWrite => u.conns[fd].conn.phase == Writing
            case Close => true
  {
  }

  lemma SettledIn(app: App, u: Uring, fd: Fd)
    requires Settled(app, u, fd)
    ensures fd in u.conns && fd in u.generation
  {
  }

  /** Distinct completions, none handled yet. */
  predicate Snapshot(batch: seq<nat>, ops: map<nat, Op>) {
    && (forall i :: 0 <= i < |batch| ==> batch[i] in ops && ops[batch[i]].stage.Done?)
    && (forall i, j :: 0 <= i < j < |batch| ==> batch[i] != batch[j])
  }

  lemma SnapshotNext(batch: seq<nat>, ops: map<nat, Op>)
    requires Snapshot(batch, ops) && batch != []
    ensures batch[0] in ops && ops[batch[0]].stage.Done?
  {
  }

  lemma SnapshotKept(batch: seq<nat>, a: Requests, b: Requests)
    requires Snapshot(batch, a.ops) && batch != [] && DoneKept(a, b, {batch[0]})
    ensures Snapshot(batch[1..], b.ops)
    ensures forall id :: id in batch[1..] ==> id in a.ops && b.ops[id] == a.ops[id]
  {
    forall i | 1 <= i < |batch| ensures batch[i] in b.ops && b.ops[batch[i]].stage.Done? {
      assert batch[i] in a.ops && batch[i] != batch[0];
    }
  }

  /** The completions in `ids` have been handled. */
  ghost predicate Handled(ids: seq<nat>, b: Requests) {
    forall i :: 0 <= i < |ids| ==> ids[i] !in b.ops && ids[i] < b.next
  }

  lemma OneMoreHandled(ids: seq<nat>, id: nat, a: Requests, b: Requests)
    requires Handled(ids, a) && DoneKept(a, b, {id}) && id < a.next
    ensures Handled(ids + [id], b)
  {
  }

  /** user_data brings back the operation and the descriptor it was packed from. */
  lemma CompletionKey(app: App, cap: nat, u: Uring, id: nat)
    requires InOrder(app, cap, u, {}, {}) && id in u.ops && u.ops[id].stage.Done?
    ensures id < u.next
    ensures var sqe := u.ops[id].sqe; Unpack(sqe.UserData()) == (sqe.Code(), sqe.Target())
    ensures u.ops[id].sqe.CloseFd? ==> Busy(u.ops[id]) == {} && InHand(u.ops[id]) == {} && !IsArm(u.ops[id])
  {
    assert OpOk(u, id, u.ops[id]);
    PackUnpack(u.ops[id].sqe.Code(), u.ops[id].sqe.Target());
  }

  /** The write of nothing that a send of length zero falls back to changes nothing, so it would be tried for ever. */
  lemma SyntheticWriteGoesNowhere(app: App, s: Run)
    requires s.conn.Ok() && s.conn.phase == Writing
    ensures Step(app, s, Wrote(0)) == s && s.conn.Action() == WantWrite
    ensures Handed(s.conn.Pending()) == [] <==> |s.conn.Pending()| % U32 == 0
  {
    assert s.conn.Pending()[..0] == [] && s.sent + [] == s.sent;
  }

  /** A connection whose next operation was not submitted. */
  lemma StrandingLeaves(app: App, cap: nat, u: Uring, fd: Fd)
    requires InOrder(app, cap, u, {fd}, {}) && Settled(app, u, fd) && u.conns[fd].conn.phase != Closed
    ensures InOrder(app, cap, u.(lost := u.lost + {fd}), {}, {})
  {
    hide InOrder, Sound, KeyOk, BufOk, OpOk, HolderOk, LentOk, ConnOk, Differs;
    Parts(app, cap, u, {fd}, {});
    assert KeyOk(u, {fd}, fd);
    StrandingHere(app, cap, u, fd);
    Locality(app, cap, u, u.(lost := u.lost + {fd}), {fd}, {}, {}, {}, {fd}, {}, {});
  }

  lemma StrandingHere(app: App, cap: nat, u: Uring, fd: Fd)
    requires Sound(cap, u) && KeyOk(u, {fd}, fd) && Settled(app, u, fd) && u.conns[fd].conn.phase != Closed
    ensures var v := u.(lost := u.lost + {fd});
            && Sound(cap, v) && Differs(u, v, {fd}, {}, {}) && KeyOk(v, {}, fd) && fd !in v.holder
            && fd in v.conns && ConnOk(app, v, fd, v.conns[fd])
  {
    hide Inv, Bufs.Ok;
  }

  lemma DoneKeptBy(u: Uring, v: Uring, busy: set<Fd>, inHand: set<nat>)
    requires Undisturbed(u, v, busy, inHand)
    ensures DoneKept(Of(u), Of(v), {})
  {
  }

  lemma DoneKeptAgain(a: Requests, b: Requests, c: Requests, but: set<nat>)
    requires DoneKept(a, b, but) && DoneKept(b, c, {})
    ensures DoneKept(a, c, but)
  {
  }

  lemma ReapingKeepsDone(a: Requests, id: nat)
    ensures DoneKept(a, a.(ops := a.ops - {id}), {id})
  {
  }

  lemma DoneKeptSelf(a: Requests)
    ensures DoneKept(a, a, {})
  {
  }

  lemma RefusalKeepsDone(a: Requests, more: set<Fd>)
    ensures DoneKept(a, a.(lost := a.lost + more), {})
  {
  }

  lemma LostGrow(a: Requests, b: Requests, but: set<nat>)
    requires DoneKept(a, b, but)
    ensures a.lost <= b.lost
  {
  }

  /** The last operation numbered is `sqe`, and it has its descriptor. */
  ghost predicate Queued(u: Uring, sqe: Sqe, owner: nat) {
    && u.next > 0 && u.next - 1 in u.ops && u.ops[u.next - 1] == Op(sqe, owner, InFlight)
    && (!sqe.AcceptMulti? ==> sqe.fd in u.holder && u.holder[sqe.fd] == u.next - 1)
  }

  lemma SubmittedKeepsDone(app: App, cap: nat, u: Uring, sqe: Sqe, owner: nat)
    requires InOrder(app, cap, u, Frees(sqe), {})
    ensures DoneKept(Of(u), Of(Submitted(u, sqe, owner)), {})
  {
    hide InOrder;
    Parts(app, cap, u, Frees(sqe), {});
  }

  lemma MayRecv(app: App, u: Uring, fd: Fd)
    requires Settled(app, u, fd) && u.conns[fd].conn.phase == Reading
    ensures MaySubmit(app, u, Recv(fd), u.generation[fd]) && Frees(Recv(fd)) == {fd}
  {
    hide Owed, Serve;
  }

  lemma MaySend(app: App, u: Uring, fd: Fd)
    requires Settled(app, u, fd) && u.conns[fd].conn.Ok()
    requires u.conns[fd].conn.phase == Writing && |u.conns[fd].conn.Pending()| % U32 != 0
    ensures var sqe := Send(fd, Handed(u.conns[fd].conn.Pending()));
            MaySubmit(app, u, sqe, u.generation[fd]) && Frees(sqe) == {fd}
  {
    hide Owed, Serve, Conn.Pending;
  }

  // ---- at the start ----

  lemma StartInOrder(app: App, cap: nat, bufs: Bufs, arm: nat)
    requires bufs.Ok() && bufs.held == {}
    ensures InOrder(app, cap, Uring(map[], 0, map[], bufs, map[], map[], map[], 0, false, arm, map[], map[], {}, {}), {}, {})
  {
  }

  // ---- what it means for clients ----

  /** Whatever is in flight, a client has been sent a prefix of the answers to what it has sent. */
  lemma ClientsSeeServe(app: App, cap: nat, u: Uring, fd: Fd)
    requires InOrder(app, cap, u, {}, {}) && fd in u.conns
    ensures fd in u.streams && u.conns[fd].fed <= u.streams[fd].taken
    ensures u.streams[fd].out <= Serve(app, u.conns[fd].fed)
  {
    var s, x := u.conns[fd], u.streams[fd];
    Parts(app, cap, u, {}, {});
    assert ConnOk(app, u, fd, s);
    InvMeansRefines(app, s);
    hide Serve, Inv, InOrder;
    if fd in u.holder { OutIsPrefix(u.ops[u.holder[fd]], u.generation[fd], s, x, u.pool); }
    assert s.sent <= s.sent + s.conn.Pending() <= Serve(app, s.fed);
  }

  lemma OutIsPrefix(op: Op, owner: nat, s: Run, x: Stream, pool: map<nat, bytes>)
    requires s.conn.Ok() && OpFits(op, owner, s, x, pool)
    ensures s.fed <= x.taken && x.out <= s.sent + s.conn.Pending()
  {
    hide Conn.Ok;
  }

  /**
   A connection has the operation its state needs if and only if the full submission queue did not refuse it
   that one.
   */
  lemma NobodyForgotten(app: App, cap: nat, u: Uring, fd: Fd)
    requires InOrder(app, cap, u, {}, {}) && fd in u.conns
    ensures fd in u.holder <==> fd !in u.lost
    ensures u.conns[fd].conn.Ok()
    ensures fd !in u.lost ==>
              && u.holder[fd] in u.ops
              && var op := u.ops[u.holder[fd]];
                 && (u.conns[fd].conn.phase == Reading ==> op.sqe == Recv(fd))
                 && (u.conns[fd].conn.phase == Writing ==> op.sqe == Send(fd, Handed(u.conns[fd].conn.Pending())))
  {
    assert KeyOk(u, {}, fd) && ConnOk(app, u, fd, u.conns[fd]);
    if fd in u.holder { assert OpOk(u, u.holder[fd], u.ops[u.holder[fd]]) && HolderOk(u, fd, u.holder[fd]); }
  }

  /** An armed accept is in flight, or its last completion is there to be handled. */
  lemma ArmedMeansListening(app: App, cap: nat, u: Uring)
    requires InOrder(app, cap, u, {}, {})
    ensures u.armed <==> exists id :: id in u.ops && IsArm(u.ops[id])
  {
    forall id | id in u.ops && IsArm(u.ops[id]) ensures u.armed { assert OpOk(u, id, u.ops[id]); }
  }

  /** A completion is never for a connection that was refused an operation: nothing will ever come for it. */
  lemma NothingForTheLost(app: App, cap: nat, u: Uring, id: nat)
    requires InOrder(app, cap, u, {}, {}) && id in u.ops
    ensures Claim(u.ops[id]).Some? ==> Claim(u.ops[id]).value !in u.lost
  {
    var op := u.ops[id];
    assert OpOk(u, id, op);
    if Claim(op).Some? { assert KeyOk(u, {}, Claim(op).value); }
  }

  /** Buffers are conserved: in the ring, with one completion not yet handled, or leaked. */
  lemma BuffersAccounted(app: App, cap: nat, u: Uring, bid: nat)
    requires InOrder(app, cap, u, {}, {}) && bid < u.bufs.N()
    ensures bid in u.bufs.Window() <==> bid !in u.lent && bid !in u.leaked
    ensures bid in u.lent ==> bid !in u.leaked && u.lent[bid] in u.ops && Lends(u.ops[u.lent[bid]]) == Some(bid)
  {
    Conservation(u.bufs);
    assert BufOk(u, {}, bid);
    assert bid in u.lent ==> LentOk(u, bid, u.lent[bid]);
  }

  /** The buffer that handling a completion leaks: one that came without data. */
  function Leaks(op: Op): set<nat> {
    if op.sqe.Recv? && op.stage.Done? && op.stage.result <= 0 then InHand(op) else {}
  }

  function LeakedBy(ids: seq<nat>, ops: map<nat, Op>): set<nat> {
    if ids == [] then {}
    else LeakedBy(ids[..|ids| - 1], ops) + if ids[|ids| - 1] in ops then Leaks(ops[ids[|ids| - 1]]) else {}
  }

  lemma LeakedByOneMore(ids: seq<nat>, id: nat, ops: map<nat, Op>)
    requires id in ops
    ensures LeakedBy(ids + [id], ops) == LeakedBy(ids, ops) + Leaks(ops[id])
  {
    assert (ids + [id])[..|ids|] == ids;
  }

  lemma {:induction false} LeakedByAll(ids: seq<nat>, ops: map<nat, Op>, bid: nat)
    ensures bid in LeakedBy(ids, ops) <==> exists id :: id in ids && id in ops && bid in Leaks(ops[id])
  {
    hide Leaks;
    if ids != [] {
      LeakedByAll(ids[..|ids| - 1], ops, bid);
      assert ids == ids[..|ids| - 1] + [ids[|ids| - 1]];
    }
  }

  lemma LeakedBySnapshot(batch: seq<nat>, ops: map<nat, Op>)
    requires forall id :: id in ops && ops[id].stage.Done? ==> id in batch
    ensures batch == [] ==> forall m :: LeakedBy(batch, m) == {}
    ensures forall bid :: bid in LeakedBy(batch, ops) <==> exists id :: id in ops && bid in Leaks(ops[id])
  {
    forall bid ensures bid in LeakedBy(batch, ops) <==> exists id :: id in ops && bid in Leaks(ops[id]) {
      LeakedByAll(batch, ops, bid);
    }
  }

  /** Connections that were refused an operation are where they were. */
  ghost predicate LostStay(lost: set<Fd>, a: map<Fd, Run>, b: map<Fd, Run>) {
    forall fd :: fd in lost && fd in a ==> fd in b && b[fd] == a[fd]
  }
}
