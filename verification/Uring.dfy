/** The io_uring runtime: completions drained in batches, each answered with the next request. */
module UringRuntime {
  import opened Bytes
  import opened Http
  import opened Connections
  import opened Refinement
  import opened Kernel
  import opened Words
  import opened BufferRing
  import opened UringState
  import opened UringSteps
  import opened LongReplies

  // Buffers in the provided ring, and the power of two that is.
  const NUM_BUFS: nat := 256
  const NUM_BUFS_LOG: nat := 8

  /** The ring's queues as far as they answer, and a record of the answers that nothing else writes. */
  class Ring {
    // How often an entry found the submission queue full.
    ghost var refusals: nat
    // How many waits for completions there were, how many of them no client could end, and what the last one found.
    ghost var waits: nat
    ghost var deaf: nat
    ghost var woken: set<nat>

    constructor ()
      ensures refusals == 0
    {
      refusals := 0;
    }

    method Offer() returns (taken: bool)
      modifies this`refusals
      ensures refusals == old(refusals) + if taken then 0 else 1
    {
      taken := *;
      if !taken { refusals := refusals + 1; }
    }

    /** Blocks until something has completed, or is interrupted. */
    method Wait(ghost ops: map<nat, Op>) returns (interrupted: bool)
      modifies this`waits, this`deaf, this`woken
      ensures waits == old(waits) + 1
      ensures deaf == old(deaf) + if exists id :: id in ops && IsArm(ops[id]) then 0 else 1
      ensures woken == if interrupted then {} else set id | id in ops && ops[id].stage.Done?
    {
      interrupted := *;
      waits := waits + 1;
      deaf := deaf + if exists id :: id in ops && IsArm(ops[id]) then 0 else 1;
      woken := if interrupted then {} else set id | id in ops && ops[id].stage.Done?;
    }
  }

  /** A descriptor is without its operation only because the queue was full twice, or its connection spins. */
  ghost predicate OnlyRefused(lost: set<Fd>, refusals: nat, lostNow: set<Fd>, refusalsNow: nat, spinning: bool) {
    refusals <= refusalsNow && (lostNow == lost || refusals + 2 <= refusalsNow || spinning)
  }

  class Runtime {
    const app: App
    const maxConnections: nat
    const listener: Fd
    const br: BufRing
    const ring: Ring
    var conns: map<Fd, Run>
    var acceptArmed: bool
    // Set where submit_send and apply would call each other for ever; nothing runs after it.
    var spinning: bool

    // The kernel's side.
    var ops: map<nat, Op>
    var next: nat
    var streams: map<Fd, Stream>
    var pool: map<nat, bytes>

    // Numbers the connections, for the statements only: nothing below branches on it.
    var generation: map<Fd, nat>
    var accepted: nat

    ghost var arm: nat
    ghost var holder: map<Fd, nat>
    ghost var lent: map<nat, nat>
    ghost var lost: set<Fd>
    ghost var leaked: set<nat>

    ghost function U(): Uring
      reads this, br, br.slots
    {
      Uring(ops, next, streams, br.View(), pool, conns, generation, accepted, acceptArmed, arm, holder, lent, lost, leaked)
    }

    ghost function Q(): Requests
      reads this
    {
      Requests(ops, next, lost)
    }

    ghost predicate Handling(busy: set<Fd>, inHand: set<nat>)
      reads this, br, br.slots
    {
      br.Valid() && IsI32(listener) && InOrder(app, maxConnections, U(), busy, inHand)
    }

    ghost predicate Valid()
      reads this, br, br.slots
    {
      Handling({}, {})
    }

    constructor (app: App, maxConnections: nat, listener: Fd)
      requires IsI32(listener)
      ensures Valid() && conns == map[] && !acceptArmed && !spinning && br.View().N() == NUM_BUFS && fresh(br) && fresh(br.slots) && fresh(ring)
      ensures lost == {} && leaked == {} && ring.refusals == 0
      ensures this.app == app && this.maxConnections == maxConnections
    {
      this.app, this.maxConnections, this.listener := app, maxConnections, listener;
      assert Pow2(NUM_BUFS_LOG) == NUM_BUFS;
      br := new BufRing(NUM_BUFS, NUM_BUFS_LOG);
      ring := new Ring();
      conns, acceptArmed, spinning := map[], false, false;
      ops, next, streams, pool := map[], 0, map[], map[];
      generation, accepted, holder, lent := map[], 0, map[], map[];
      lost, leaked := {}, {};
      new;
      StartInOrder(app, maxConnections, br.View(), arm);
    }

    // ---- the kernel, at any moment ----

    method KernelActs(ghost busy: set<Fd>, ghost inHand: set<nat>)
      requires Handling(busy, inHand)
      modifies this`ops, this`next, this`streams, this`pool, this`holder, this`lent, br, br.slots
      ensures Handling(busy, inHand) && Undisturbed(old(U()), U(), busy, inHand)
    {
      hide InOrder, Undisturbed;
      UndisturbedSelf(U(), busy, inHand);
      var steps: seq<bool> := *;
      for i := 0 to |steps|
        invariant Handling(busy, inHand) && Undisturbed(old(U()), U(), busy, inHand)
      {
        ghost var u := U();
        KernelActsOnce(busy, inHand);
        UndisturbedAgain(old(U()), u, U(), busy, inHand);
      }
    }

    /** One operation in flight makes progress, in any way it may. */
    method KernelActsOnce(ghost busy: set<Fd>, ghost inHand: set<nat>)
      requires Handling(busy, inHand)
      modifies this`ops, this`next, this`streams, this`pool, this`holder, this`lent, br, br.slots
      ensures Handling(busy, inHand) && Undisturbed(old(U()), U(), busy, inHand)
    {
      hide InOrder, Undisturbed;
      UndisturbedSelf(U(), busy, inHand);
      var id: nat := *;
      if id !in ops || ops[id].stage.Done? { return; }
      match ops[id].sqe {
        case Recv(_) => KernelReceives(id, busy, inHand);
        case Send(_, data) =>
          var n: int := *;
          if n <= |data| { KernelEnds(id, n, busy, inHand); }
        case CloseFd(_) => KernelCloses(id, busy, inHand);
        case AcceptMulti(_) => KernelAccepts(id, busy, inHand);
      }
    }

    /** A recv ends with a buffer from the head of the ring, whether or not data went into it, or without one. */
    method KernelReceives(id: nat, ghost busy: set<Fd>, ghost inHand: set<nat>)
      requires Handling(busy, inHand) && id in ops && ops[id].sqe.Recv? && ops[id].stage.InFlight?
      modifies this`ops, this`streams, this`pool, this`lent, br
      ensures Handling(busy, inHand) && Undisturbed(old(U()), U(), busy, inHand)
    {
      hide InOrder, Undisturbed;
      var data: bytes := *;
      var n: int := *;
      var any := br.HasBuffer();
      if any {
        var e := br.Next();
        if |data| <= e.len && Fills(n, data) {
          KernelDeposits(id, n, data, busy, inHand);
          return;
        }
      }
      KernelEnds(id, n, busy, inHand);
    }

    method KernelDeposits(id: nat, n: int, data: bytes, ghost busy: set<Fd>, ghost inHand: set<nat>)
      requires Handling(busy, inHand) && id in ops && ops[id].sqe.Recv? && ops[id].stage.InFlight?
      requires Fills(n, data) && br.head < br.tail
      modifies this`ops, this`streams, this`pool, this`lent, br
      ensures Handling(busy, inHand) && Undisturbed(old(U()), U(), busy, inHand)
    {
      hide InOrder, Undisturbed, OpFits, Inv, Picked, Bufs.Ok;
      InFlightFits(app, maxConnections, U(), busy, inHand, id);
      ReceivingLeaves(app, maxConnections, U(), busy, inHand, id, n, data);
      var fd := ops[id].sqe.fd;
      var e := br.Take();
      pool := pool[e.addr := data];
      ops := ops[id := ops[id].(stage := Done(n, false, Some(e.bid)))];
      streams := streams[fd := streams[fd].(taken := streams[fd].taken + data)];
      lent := lent[e.bid := id];
    }

    method KernelEnds(id: nat, n: int, ghost busy: set<Fd>, ghost inHand: set<nat>)
      requires Handling(busy, inHand) && id in ops && ops[id].sqe.OnConn() && ops[id].stage.InFlight?
      requires ops[id].sqe.Send? ==> n <= |ops[id].sqe.data|
      modifies this`ops, this`streams
      ensures Handling(busy, inHand) && Undisturbed(old(U()), U(), busy, inHand)
    {
      hide InOrder, Undisturbed;
      EndingLeaves(app, maxConnections, U(), busy, inHand, id, n);
      var op := ops[id];
      var x := streams[op.sqe.fd];
      if op.sqe.Send? && 0 <= n <= |op.sqe.data| { x := x.(out := x.out + op.sqe.data[..n]); }
      streams := streams[op.sqe.fd := x];
      ops := ops[id := op.(stage := Done(n, false, None))];
    }

    method KernelCloses(id: nat, ghost busy: set<Fd>, ghost inHand: set<nat>)
      requires Handling(busy, inHand) && id in ops && ops[id].sqe.CloseFd? && ops[id].stage.InFlight?
      modifies this`ops, this`streams, this`holder
      ensures Handling(busy, inHand) && Undisturbed(old(U()), U(), busy, inHand)
    {
      var result: int := *;
      hide InOrder, Undisturbed;
      ClosingLeaves(app, maxConnections, U(), busy, inHand, id, result);
      ClosedUndisturbed(app, maxConnections, U(), busy, inHand, id, result);
      var fd := ops[id].sqe.fd;
      ops := ops[id := ops[id].(stage := Done(result, false, None))];
      streams, holder := streams - {fd}, holder - {fd};
    }

    /** One more connection, on a descriptor that is not open; or the multishot accept comes to its end. */
    method KernelAccepts(id: nat, ghost busy: set<Fd>, ghost inHand: set<nat>)
      requires Handling(busy, inHand) && id in ops && ops[id].sqe.AcceptMulti? && ops[id].stage.InFlight?
      modifies this`ops, this`next, this`streams, this`holder
      ensures Handling(busy, inHand) && Undisturbed(old(U()), U(), busy, inHand)
    {
      var result: int := *;
      var more: bool := *;
      hide InOrder, Undisturbed;
      UndisturbedSelf(U(), busy, inHand);
      if (result >= 0 && (!IsI32(result) || result in streams)) || (more && result < 0) { return; }
      ArmedBy(app, maxConnections, U(), busy, inHand, id);
      KernelReports(ops[id], if more then next else id, result, more, busy, inHand);
    }

    method KernelReports(op: Op, id: nat, result: int, more: bool, ghost busy: set<Fd>, ghost inHand: set<nat>)
      requires Handling(busy, inHand) && MayReport(U(), id, result, more) && id <= next && (id == next <==> more)
      requires op == ops[arm]
      modifies this`ops, this`next, this`streams, this`holder
      ensures Handling(busy, inHand) && Undisturbed(old(U()), U(), busy, inHand)
    {
      hide InOrder, Undisturbed;
      AcceptingLeaves(app, maxConnections, U(), busy, inHand, id, result, more);
      AcceptedUndisturbed(app, maxConnections, U(), busy, inHand, id, result, more);
      ops := ops[id := op.(stage := Done(result, more, None))];
      next := if id == next then next + 1 else next;
      if result >= 0 { streams, holder := streams[result := Stream([], [])], holder[result := id]; }
    }

    // ---- submitting ----

    /** A full queue is flushed once; then the entry may still be refused. */
    method OfferTwice(ghost busy: set<Fd>) returns (ok: bool)
      requires Handling(busy, {})
      modifies this`ops, this`next, this`streams, this`pool, this`holder, this`lent, br, br.slots, ring`refusals
      ensures Handling(busy, {}) && Undisturbed(old(U()), U(), busy, {})
      ensures if ok then ring.refusals <= old(ring.refusals) + 1 else ring.refusals == old(ring.refusals) + 2
      ensures ring.refusals >= old(ring.refusals)
    {
      hide InOrder, Undisturbed;
      UndisturbedSelf(U(), busy, {});
      ok := ring.Offer();
      if !ok {
        KernelActs(busy, {});
        ok := ring.Offer();
      }
    }

    /** The operation is in flight, or it was refused twice. */
    method Push(sqe: Sqe, owner: nat) returns (ok: bool)
      requires Handling(Frees(sqe), {}) && MaySubmit(app, U(), sqe, owner)
      modifies this`ops, this`next, this`streams, this`pool, this`holder, this`lent, this`lost, this`arm, br, br.slots, ring`refusals
      ensures br.Valid()
      ensures InOrder(app, maxConnections, U().(armed := acceptArmed || (sqe.AcceptMulti? && ok)), {}, {})
      ensures DoneKept(old(Q()), Q(), {})
      ensures if ok then lost == old(lost) && Queued(U(), sqe, owner)
              else lost == old(lost) + Frees(sqe) && ring.refusals == old(ring.refusals) + 2
      ensures ring.refusals >= old(ring.refusals)
    {
      hide InOrder, Undisturbed, MaySubmit, DoneKept, OpFits;
      ok := OfferTwice(Frees(sqe));
      MaySubmitStill(app, old(U()), U(), sqe, owner);
      DoneKeptBy(old(U()), U(), Frees(sqe), {});
      ghost var queued := Q();
      if ok {
        Enqueue(sqe, owner);
      } else {
        RefusalLeaves(app, maxConnections, U(), sqe, owner);
        RefusalKeepsDone(Q(), Frees(sqe));
        lost := lost + Frees(sqe);
      }
      DoneKeptAgain(old(Q()), queued, Q(), {});
    }

    method Enqueue(sqe: Sqe, owner: nat)
      requires Handling(Frees(sqe), {}) && MaySubmit(app, U(), sqe, owner)
      modifies this`ops, this`next, this`holder, this`arm
      ensures InOrder(app, maxConnections, U().(armed := acceptArmed || sqe.AcceptMulti?), {}, {})
      ensures DoneKept(old(Q()), Q(), {}) && Queued(U(), sqe, owner)
    {
      hide InOrder, MaySubmit, DoneKept;
      SubmittingLeaves(app, maxConnections, U(), sqe, owner);
      SubmittedKeepsDone(app, maxConnections, U(), sqe, owner);
      if sqe.AcceptMulti? { arm := next; } else { holder := holder[sqe.fd := next]; }
      ops := ops[next := Op(sqe, owner, InFlight)];
      next := next + 1;
    }

    method ArmAccept()
      requires Valid() && !acceptArmed
      modifies this, br, br.slots, ring`refusals
      ensures Valid() && DoneKept(old(Q()), Q(), {})
      ensures conns == old(conns) && generation == old(generation) && spinning == old(spinning) && lost == old(lost)
      ensures ring.refusals >= old(ring.refusals) && (acceptArmed || ring.refusals == old(ring.refusals) + 2)
    {
      hide InOrder, DoneKept, OpOk, KeyOk, BufOk, ConnOk, Inv, Bufs.Ok;
      var ok := Push(AcceptMulti(listener), 0);
      if ok { acceptArmed := true; }
    }

    method SubmitRecv(fd: Fd)
      requires Handling({fd}, {}) && Settled(app, U(), fd) && conns[fd].conn.phase == Reading
      modifies this`ops, this`next, this`streams, this`pool, this`holder, this`lent, this`lost, this`arm, br, br.slots, ring`refusals
      ensures Valid() && DoneKept(old(Q()), Q(), {})
      ensures ring.refusals >= old(ring.refusals)
      ensures || (lost == old(lost) && Queued(U(), Recv(fd), generation[fd]))
              || (lost == old(lost) + {fd} && ring.refusals == old(ring.refusals) + 2)
    {
      MayRecv(app, U(), fd);
      hide InOrder, DoneKept, Settled, OpOk, KeyOk, BufOk, ConnOk, Bufs.Ok, OpFits;
      var _ := Push(Recv(fd), generation[fd]);
    }

    /**
     The length handed to the kernel is 32 bits wide. Should it come out as zero, the server reports a write
     of nothing and starts again with the same bytes pending.
     */
    method SubmitSend(fd: Fd)
      requires Handling({fd}, {}) && Settled(app, U(), fd) && conns[fd].conn.Ok() && conns[fd].conn.phase == Writing
      modifies this`spinning, this`ops, this`next, this`streams, this`pool, this`holder, this`lent, this`lost, this`arm, br, br.slots, ring`refusals
      ensures Valid() && DoneKept(old(Q()), Q(), {})
      ensures spinning == (old(spinning) || Endless(conns, fd)) && ring.refusals >= old(ring.refusals)
      ensures !Endless(conns, fd) ==>
                || (lost == old(lost) && Queued(U(), Send(fd, Handed(conns[fd].conn.Pending())), generation[fd]))
                || (lost == old(lost) + {fd} && ring.refusals == old(ring.refusals) + 2)
    {
      SettledIn(app, U(), fd);
      EndlessWhen(conns, fd);
      hide InOrder, DoneKept, Settled, Conn.Ok, Conn.Pending, Endless;
      var pending := conns[fd].conn.Pending();
      var len := |pending| % U32;
      if len == 0 {
        SpinOn(fd);
      } else {
        MaySend(app, U(), fd);
        var _ := Push(Send(fd, pending[..len]), generation[fd]);
      }
    }

    /** Reporting a write of nothing leaves the connection as it was, asking for the same write. */
    method SpinOn(fd: Fd)
      requires Handling({fd}, {}) && Settled(app, U(), fd) && conns[fd].conn.Ok() && conns[fd].conn.phase == Writing
      modifies this`spinning, this`lost
      ensures Valid() && spinning && DoneKept(old(Q()), Q(), {})
      ensures Step(app, conns[fd], Wrote(0)) == conns[fd] && conns[fd].conn.Action() == WantWrite
    {
      hide InOrder, Settled, Conn.Ok, Conn.Pending;
      RefusalKeepsDone(Q(), {fd});
      SettledIn(app, U(), fd);
      SyntheticWriteGoesNowhere(app, conns[fd]);
      StrandingLeaves(app, maxConnections, U(), fd);
      lost := lost + {fd};
      spinning := true;
    }

    method SubmitClose(fd: Fd)
      requires Handling({fd}, {}) && fd !in conns
      modifies this`ops, this`next, this`streams, this`pool, this`holder, this`lent, this`lost, this`arm, br, br.slots, ring`refusals
      ensures Valid() && DoneKept(old(Q()), Q(), {})
      ensures ring.refusals >= old(ring.refusals)
      ensures || (lost == old(lost) && Queued(U(), CloseFd(fd), 0))
              || (lost == old(lost) + {fd} && ring.refusals == old(ring.refusals) + 2)
    {
      hide InOrder, DoneKept;
      assert Frees(CloseFd(fd)) == {fd};
      var _ := Push(CloseFd(fd), 0);
    }

    method DropConn(fd: Fd)
      requires Handling({fd}, {}) && fd in conns
      modifies this, br, br.slots, ring`refusals
      ensures Valid() && DoneKept(old(Q()), Q(), {})
      ensures conns == old(conns) - {fd} && generation == old(generation) - {fd}
      ensures ring.refusals >= old(ring.refusals)
      ensures || (lost == old(lost) && Queued(U(), CloseFd(fd), 0))
              || (lost == old(lost) + {fd} && ring.refusals == old(ring.refusals) + 2)
      ensures accepted == old(accepted) && spinning == old(spinning) && !Endless(conns, fd) && leaked == old(leaked)
    {
      hide InOrder, DoneKept, Conn.Ok, Conn.Pending;
      ghost var u := U();
      DroppingLeaves(app, maxConnections, u, fd, {});
      conns := conns - {fd};
      generation := generation - {fd};
      SubmitClose(fd);
    }

    /** The next operation of a connection is the one its action asks for. */
    method Apply(fd: Fd, action: ConnAction)
      requires Handling({fd}, {}) && Settled(app, U(), fd) && conns[fd].conn.Ok() && action == conns[fd].conn.Action()
      modifies this, br, br.slots, ring`refusals
      ensures Valid() && DoneKept(old(Q()), Q(), {}) && accepted == old(accepted) && leaked == old(leaked)
      ensures if action == ConnAction.Close then conns == old(conns) - {fd} && generation == old(generation) - {fd}
              else conns == old(conns) && generation == old(generation)
      ensures ring.refusals >= old(ring.refusals)
      ensures || Endless(conns, fd)
              || (lost == old(lost) && Queued(U(), Wanted(action, fd, old(conns)[fd].conn), if action == ConnAction.Close then 0 else generation[fd]))
              || (lost == old(lost) + {fd} && ring.refusals == old(ring.refusals) + 2)
      ensures OnlyRefused(old(lost), old(ring.refusals), lost, ring.refusals, spinning)
      ensures spinning == (old(spinning) || Endless(conns, fd))
    {
      hide InOrder, DoneKept, Settled, Conn.Ok, Conn.Pending, Conn.Action, Endless, OpOk, KeyOk, BufOk, ConnOk, Bufs.Ok, OpFits;
      ActionSaysPhase(app, U(), fd);
      match action
      case WantRead => SubmitRecv(fd);
      case WantWrite => SubmitSend(fd);
      case Close => DropConn(fd);
    }

    // ---- completions ----

    /** The completion leaves the queue. */
    method Reap(id: nat)
      requires id in ops
      modifies this`ops, this`holder, this`lent
      ensures U() == Reaped(old(U()), id).(armed := acceptArmed)
    {
      ghost var op := ops[id];
      holder := if Claim(op).Some? then holder - {Claim(op).value} else holder;
      lent := if Lends(op).Some? then lent - {Lends(op).value} else lent;
      ops := ops - {id};
    }

    method OnAccept(id: nat, result: int, more: bool)
      requires Valid() && id in ops && ops[id].sqe.AcceptMulti?
      requires ops[id].stage.Done? && ops[id].stage.result == result && ops[id].stage.more == more
      modifies this, br, br.slots, ring`refusals
      ensures OnlyRefused(old(lost), old(ring.refusals), lost, ring.refusals, spinning)
      ensures Valid() && DoneKept(old(Q()), Q(), {id}) && spinning == old(spinning) && leaked == old(leaked)
      ensures conns == if 0 <= result && |old(conns)| < maxConnections then old(conns)[result := START] else old(conns)
    {
      hide InOrder, DoneKept;
      ghost var u := U();
      ReapingKeepsDone(Q(), id);
      Reap(id);
      if !more { acceptArmed := false; }
      ReapingLeaves(app, maxConnections, u, U(), id);
      if result < 0 { return; }
      AcceptedIsNew(app, maxConnections, u, id);
      ghost var reaped := Q();
      Welcome(result);
      DoneKeptAgain(old(Q()), reaped, Q(), {id});
    }

    /** At the cap a connection is closed as soon as it is accepted; below it, it gets a recv. */
    method Welcome(fd: Fd)
      requires Handling({fd}, {}) && fd !in conns && fd in streams && streams[fd] == Stream([], [])
      modifies this, br, br.slots, ring`refusals
      ensures OnlyRefused(old(lost), old(ring.refusals), lost, ring.refusals, spinning)
      ensures Valid() && DoneKept(old(Q()), Q(), {}) && spinning == old(spinning) && leaked == old(leaked)
      ensures conns == if |old(conns)| < maxConnections then old(conns)[fd := START] else old(conns)
    {
      hide InOrder, DoneKept, Settled;
      if |conns| >= maxConnections {
        SubmitClose(fd);
        return;
      }
      StartConn(fd);
    }

    method StartConn(fd: Fd)
      requires Handling({fd}, {}) && fd !in conns && fd in streams && streams[fd] == Stream([], [])
      requires |conns| < maxConnections
      modifies this, br, br.slots, ring`refusals
      ensures OnlyRefused(old(lost), old(ring.refusals), lost, ring.refusals, spinning)
      ensures Valid() && DoneKept(old(Q()), Q(), {}) && spinning == old(spinning) && leaked == old(leaked)
      ensures conns == old(conns)[fd := START]
    {
      hide InOrder, DoneKept, Settled, Bufs.Ok, OpFits, Inv, Conn.Ok, Conn.Pending, Queued;
      AddingLeaves(app, maxConnections, U(), fd);
      conns := conns[fd := START];
      generation, accepted := generation[fd := accepted], accepted + 1;
      StartIsSettled(app, U(), fd);
      SubmitRecv(fd);
    }

    /**
     End of file, an error, or data without a buffer: drop, and do not give back a buffer that came with it.
     Otherwise feed the buffer and give it back.
     */
    method OnRecv(id: nat, fd: Fd, result: int, bid: Option<nat>)
      requires Valid() && id in ops && ops[id].sqe == Recv(fd)
      requires ops[id].stage.Done? && ops[id].stage.result == result && ops[id].stage.bid == bid
      modifies this, br, br.slots, ring`refusals
      ensures OnlyRefused(old(lost), old(ring.refusals), lost, ring.refusals, spinning)
      ensures Valid() && DoneKept(old(Q()), Q(), {id})
      ensures leaked == old(leaked) + Leaks(old(ops)[id])
      ensures result <= 0 || bid == None ==> conns == old(conns) - {fd} && spinning == old(spinning)
      ensures result > 0 && bid.Some? ==>
                FedFrom(app, old(U()), U(), fd, bid.value) && spinning == (old(spinning) || Endless(conns, fd))
    {
      hide InOrder, DoneKept, Arrived, FedFrom, Endless, OpOk, KeyOk, BufOk, ConnOk, Bufs.Ok, OpFits;
      ghost var u := U();
      ReapingKeepsDone(Q(), id);
      Reap(id);
      ReapingLeaves(app, maxConnections, u, U(), id);
      ghost var r := U();
      RecvArrived(app, maxConnections, u, r, id);
      if result <= 0 || bid == None {
        if bid.Some? {
          LeakingLeaves(app, maxConnections, r, {fd}, bid.value);
          leaked := leaked + {bid.value};
        }
        DropConn(fd);
      } else {
        FeedBuffer(fd, bid.value, result);
        FedFromReaped(app, u, r, U(), fd, bid.value);
      }
      DoneKeptAgain(old(Q()), Of(r), Q(), {id});
    }

    /** The kernel may act before the buffer is read; the buffer is still the one it filled. */
    method FeedBuffer(fd: Fd, bid: nat, n: int)
      requires Handling({fd}, {bid}) && Arrived(app, U(), fd, bid, n)
      modifies this, br, br.slots, ring`refusals
      ensures OnlyRefused(old(lost), old(ring.refusals), lost, ring.refusals, spinning)
      ensures Valid() && DoneKept(old(Q()), Q(), {})
      ensures FedFrom(app, old(U()), U(), fd, bid) && spinning == (old(spinning) || Endless(conns, fd))
      ensures leaked == old(leaked)
    {
      hide InOrder, DoneKept, Undisturbed, Arrived, FedFrom, Endless;
      ghost var u := U();
      KernelActs({fd}, {bid});
      DoneKeptBy(u, U(), {fd}, {bid});
      ghost var acted := U();
      ArrivedStill(app, u, acted, fd, bid, n);
      FeedNow(fd, bid, n);
      DoneKeptAgain(Of(u), Of(acted), Q(), {});
      FedFromReaped(app, u, acted, U(), fd, bid);
    }

    method FeedNow(fd: Fd, bid: nat, n: int)
      requires Handling({fd}, {bid}) && Arrived(app, U(), fd, bid, n)
      modifies this, br, br.slots, ring`refusals
      ensures OnlyRefused(old(lost), old(ring.refusals), lost, ring.refusals, spinning)
      ensures Valid() && DoneKept(old(Q()), Q(), {})
      ensures FedFrom(app, old(U()), U(), fd, bid) && spinning == (old(spinning) || Endless(conns, fd))
      ensures leaked == old(leaked)
    {
      hide InOrder, DoneKept, Inv, Endless, OpOk, KeyOk, BufOk, ConnOk, Bufs.Ok, OpFits, Recycled;
      FeedingSettles(app, U(), fd, bid, n);
      var data := pool[Addr(bid)][..n];
      var t := Step(app, conns[fd], Feed(data));
      SteppingLeaves(app, maxConnections, U(), fd, t, {bid});
      conns := conns[fd := t];
      GiveBack(fd, bid);
      Apply(fd, t.conn.Action());
    }

    method GiveBack(fd: Fd, bid: nat)
      requires Handling({fd}, {bid})
      modifies br, br.slots
      ensures Handling({fd}, {}) && br.View() == Recycled(old(br.View()), bid)
    {
      hide InOrder, Bufs.Ok, Recycled;
      RecyclingLeaves(app, maxConnections, U(), {fd}, bid);
      br.Recycle(bid);
    }

    /** An error: drop. Otherwise report what was written. */
    method OnSend(id: nat, fd: Fd, result: int)
      requires Valid() && id in ops && ops[id].sqe.Send? && ops[id].sqe.fd == fd
      requires ops[id].stage.Done? && ops[id].stage.result == result
      modifies this, br, br.slots, ring`refusals
      ensures OnlyRefused(old(lost), old(ring.refusals), lost, ring.refusals, spinning)
      ensures Valid() && DoneKept(old(Q()), Q(), {id})
      ensures leaked == old(leaked)
      ensures result < 0 ==> conns == old(conns) - {fd} && spinning == old(spinning)
      ensures result >= 0 ==> WrittenBy(app, old(U()), U(), fd, result) && spinning == (old(spinning) || Endless(conns, fd))
    {
      hide InOrder, DoneKept, Inv;
      ghost var u := U();
      ReapingKeepsDone(Q(), id);
      Reap(id);
      ReapingLeaves(app, maxConnections, u, U(), id);
      SendDeparted(app, maxConnections, u, U(), id);
      ghost var reaped := Q();
      if result < 0 { DropConn(fd); } else { Report(fd, result); }
      DoneKeptAgain(old(Q()), reaped, Q(), {id});
    }

    method Report(fd: Fd, n: int)
      requires Handling({fd}, {}) && Departed(app, U(), fd, n)
      modifies this, br, br.slots, ring`refusals
      ensures OnlyRefused(old(lost), old(ring.refusals), lost, ring.refusals, spinning)
      ensures Valid() && DoneKept(old(Q()), Q(), {})
      ensures WrittenBy(app, old(U()), U(), fd, n) && spinning == (old(spinning) || Endless(conns, fd))
      ensures leaked == old(leaked)
    {
      hide InOrder, DoneKept, Inv, Endless, Conn.Ok, Conn.Pending, AfterWritten, Settled;
      WritingSettles(app, U(), fd, n);
      var t := Step(app, conns[fd], Wrote(n));
      SteppingLeaves(app, maxConnections, U(), fd, t, {});
      ghost var before := conns;
      conns := conns[fd := t];
      assert conns - {fd} == before - {fd};
      Apply(fd, t.conn.Action());
    }

    /** A snapshot of the completion queue, each dispatched on its user_data alone. */
    method DrainCqes()
      requires Valid() && !spinning
      modifies this, br, br.slots, ring`refusals
      ensures OnlyRefused(old(lost), old(ring.refusals), lost, ring.refusals, spinning)
      ensures Valid()
      ensures !spinning ==> forall id :: id in old(ops) && old(ops)[id].stage.Done? ==> id !in ops
      ensures old(lost) <= lost && Progress(app, old(lost), old(conns), conns)
      ensures spinning ==> SomeEndless(conns)
      ensures !spinning ==> forall bid :: bid in leaked <==>
                bid in old(leaked) || exists id :: id in old(ops) && bid in Leaks(old(ops)[id])
    {
      hide InOrder, DoneKept, Snapshot, Progress, SomeEndless, Leaks, LeakedBy, OpOk, KeyOk, BufOk, ConnOk, Bufs.Ok, OpFits;
      NoProgress(app, lost, conns);
      var batch := Completions();
      var i := 0;
      assert batch[0..] == batch && batch[..0] == [] && LeakedBy([], ops) == {} by { LeakedBySnapshot([], map[]); }
      while i < |batch| && !spinning
        invariant i <= |batch| && Valid() && Snapshot(batch[i..], ops) && Handled(batch[..i], Q())
        invariant old(lost) <= lost && Progress(app, old(lost), old(conns), conns)
        invariant OnlyRefused(old(lost), old(ring.refusals), lost, ring.refusals, spinning)
        invariant spinning ==> SomeEndless(conns)
        invariant forall id :: id in batch[i..] ==> id in ops && id in old(ops) && ops[id] == old(ops)[id]
        invariant leaked == old(leaked) + LeakedBy(batch[..i], old(ops))
      {
        ghost var before, was := Q(), conns;
        SnapshotNext(batch[i..], ops);
        assert batch[i..][0] == batch[i] && batch[i..][1..] == batch[i + 1..] && batch[..i + 1] == batch[..i] + [batch[i]];
        Dispatch(batch[i]);
        SnapshotKept(batch[i..], before, Q());
        LeakedByOneMore(batch[..i], batch[i], old(ops));
        OneMoreHandled(batch[..i], batch[i], before, Q());
        LostGrow(before, Q(), {batch[i]});
        ProgressAgain(app, old(lost), before.lost, old(conns), was, conns);
        i := i + 1;
      }
      assert i == |batch| ==> batch[..i] == batch;
      LeakedBySnapshot(batch, old(ops));
    }

    /** All the completions that are ready, in some order. */
    method Completions() returns (batch: seq<nat>)
      ensures Snapshot(batch, ops)
      ensures forall id :: id in ops && ops[id].stage.Done? ==> id in batch
    {
      batch := [];
      var left := set id | id in ops && ops[id].stage.Done?;
      while left != {}
        invariant Snapshot(batch, ops) && left <= ops.Keys
        invariant forall id :: id in ops && ops[id].stage.Done? <==> id in left || id in batch
        invariant forall id :: id in batch ==> id !in left
        decreases left
      {
        var id :| id in left;
        left := left - {id};
        batch := batch + [id];
      }
    }

    method Dispatch(id: nat)
      requires Valid() && id in ops && ops[id].stage.Done? && !spinning
      modifies this, br, br.slots, ring`refusals
      ensures OnlyRefused(old(lost), old(ring.refusals), lost, ring.refusals, spinning)
      ensures Valid() && DoneKept(old(Q()), Q(), {id}) && id < old(next)
      ensures leaked == old(leaked) + Leaks(old(ops)[id])
      ensures Progress(app, old(lost), old(conns), conns) && (spinning ==> SomeEndless(conns))
    {
      hide InOrder, DoneKept, Pack, Unpack, Progress, SomeEndless;
      CompletionKey(app, maxConnections, U(), id);
      var (code, fd) := Unpack(ops[id].sqe.UserData());
      match code {
        case 1 => DispatchAccept(id);
        case 2 => DispatchRecv(id, fd);
        case 3 => DispatchSend(id, fd);
        case _ => DispatchClose(id);
      }
    }

    method DispatchAccept(id: nat)
      requires Valid() && id in ops && ops[id].stage.Done? && ops[id].sqe.AcceptMulti? && !spinning
      modifies this, br, br.slots, ring`refusals
      ensures OnlyRefused(old(lost), old(ring.refusals), lost, ring.refusals, spinning)
      ensures Valid() && DoneKept(old(Q()), Q(), {id}) && leaked == old(leaked)
      ensures Progress(app, old(lost), old(conns), conns) && !spinning
    {
      hide InOrder, DoneKept, Progress;
      ghost var u := U();
      var cqe := ops[id].stage;
      NothingForTheLost(app, maxConnections, u, id);
      OnAccept(id, cqe.result, cqe.more);
      NoProgress(app, u.lost, u.conns);
      if cqe.result >= 0 { NewProgress(app, u.lost, u.conns, cqe.result); }
    }

    method DispatchRecv(id: nat, fd: Fd)
      requires Valid() && id in ops && ops[id].stage.Done? && ops[id].sqe == Recv(fd) && !spinning
      modifies this, br, br.slots, ring`refusals
      ensures OnlyRefused(old(lost), old(ring.refusals), lost, ring.refusals, spinning)
      ensures Valid() && DoneKept(old(Q()), Q(), {id}) && leaked == old(leaked) + Leaks(old(ops)[id])
      ensures Progress(app, old(lost), old(conns), conns) && (spinning ==> SomeEndless(conns))
    {
      hide InOrder, DoneKept, FedFrom, Endless, Progress, Leaks;
      ghost var u := U();
      var cqe := ops[id].stage;
      NothingForTheLost(app, maxConnections, u, id);
      OnRecv(id, fd, cqe.result, cqe.bid);
      if cqe.result <= 0 || cqe.bid == None {
        DropProgress(app, u.lost, u.conns, fd);
      } else {
        FedProgress(app, u, U(), fd, cqe.bid.value);
      }
    }

    method DispatchSend(id: nat, fd: Fd)
      requires Valid() && id in ops && ops[id].stage.Done? && ops[id].sqe.Send? && ops[id].sqe.fd == fd && !spinning
      modifies this, br, br.slots, ring`refusals
      ensures OnlyRefused(old(lost), old(ring.refusals), lost, ring.refusals, spinning)
      ensures Valid() && DoneKept(old(Q()), Q(), {id}) && leaked == old(leaked)
      ensures Progress(app, old(lost), old(conns), conns) && (spinning ==> SomeEndless(conns))
    {
      hide InOrder, DoneKept, WrittenBy, Endless, Progress;
      ghost var u := U();
      var result := ops[id].stage.result;
      NothingForTheLost(app, maxConnections, u, id);
      OnSend(id, fd, result);
      if result < 0 {
        DropProgress(app, u.lost, u.conns, fd);
      } else {
        WrittenProgress(app, u, U(), fd, result);
      }
    }

    /** The kernel has closed the descriptor; there is nothing to do. */
    method DispatchClose(id: nat)
      requires Valid() && id in ops && ops[id].stage.Done? && ops[id].sqe.CloseFd?
      modifies this, br, br.slots, ring`refusals
      ensures OnlyRefused(old(lost), old(ring.refusals), lost, ring.refusals, spinning)
      ensures Valid() && DoneKept(old(Q()), Q(), {id}) && leaked == old(leaked)
      ensures Progress(app, old(lost), old(conns), conns) && spinning == old(spinning)
    {
      hide InOrder, DoneKept, Progress;
      ghost var u := U();
      ReapingKeepsDone(Q(), id);
      Reap(id);
      ReapingLeaves(app, maxConnections, u, U(), id);
      NoProgress(app, u.lost, u.conns);
    }

    /** One wait: whatever it found completed is handled, unless the server spins. */
    method Turn()
      requires Valid() && !spinning
      modifies this, br, br.slots, ring
      ensures OnlyRefused(old(lost), old(ring.refusals), lost, ring.refusals, spinning)
      ensures 2 * (ring.deaf - old(ring.deaf)) <= ring.refusals - old(ring.refusals)
      ensures Valid() && ring.waits == old(ring.waits) + 1 && (!spinning ==> forall id :: id in ring.woken ==> id !in ops)
      ensures old(lost) <= lost && Progress(app, old(lost), old(conns), conns)
      ensures spinning ==> SomeEndless(conns)
    {
      hide InOrder, DoneKept, SomeEndless, Progress;
      NoProgress(app, lost, conns);
      var interrupted := Await();
      if !interrupted { DrainCqes(); }
    }

    /** The accept is armed again if it has ended; then the server waits. */
    method Await() returns (interrupted: bool)
      requires Valid() && !spinning
      modifies this, br, br.slots, ring
      ensures Valid() && !spinning && conns == old(conns) && lost == old(lost) && ring.refusals >= old(ring.refusals)
      ensures ring.waits == old(ring.waits) + 1 && 2 * (ring.deaf - old(ring.deaf)) <= ring.refusals - old(ring.refusals)
      ensures ring.woken == if interrupted then {} else set id | id in ops && ops[id].stage.Done?
    {
      hide InOrder, Undisturbed, DoneKept, IsArm, OpOk, KeyOk, BufOk, ConnOk, Inv, Bufs.Ok;
      if !acceptArmed { ArmAccept(); }
      KernelActs({}, {});
      ArmedMeansListening(app, maxConnections, U());
      interrupted := ring.Wait(ops);
    }

    /**
     With replies all under 2^32 bytes it never spins; what was refused an operation stays where it is; and it
     waits without an accept only when the full queue refused it one.
     */
    method Run(turns: nat)
      requires Valid() && !spinning
      modifies this, br, br.slots, ring
      ensures OnlyRefused(old(lost), old(ring.refusals), lost, ring.refusals, spinning)
      ensures Valid() && (spinning || ring.waits == old(ring.waits) + turns)
      ensures 2 * (ring.deaf - old(ring.deaf)) <= ring.refusals - old(ring.refusals)
      ensures old(lost) <= lost && Progress(app, old(lost), old(conns), conns)
      ensures spinning ==> SomeEndless(conns)
      ensures ShortReplies(app) && ShortConns(old(conns)) ==> !spinning
    {
      hide InOrder, DoneKept, SomeEndless, ShortReplies, ShortConns, Progress;
      NoProgress(app, lost, conns);
      if !acceptArmed { ArmAccept(); }
      for i := 0 to turns
        invariant Valid() && !spinning && ring.waits == old(ring.waits) + i
        invariant 2 * (ring.deaf - old(ring.deaf)) <= ring.refusals - old(ring.refusals)
        invariant old(lost) <= lost && Progress(app, old(lost), old(conns), conns)
        invariant OnlyRefused(old(lost), old(ring.refusals), lost, ring.refusals, false)
      {
        ghost var was, gone := conns, lost;
        Turn();
        ProgressAgain(app, old(lost), gone, old(conns), was, conns);
        if spinning { break; }
      }
      if ShortConns(conns) { ShortNeverEndless(conns); }
      ProgressShort(app, old(lost), old(conns), conns);
    }
  }
}
