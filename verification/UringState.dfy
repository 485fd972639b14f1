/** io_uring as the runtime sees it: requests and completions in any order, buffers lent, descriptors reused. */
module UringState {
  import opened Bytes
  import opened Http
  import opened Connections
  import opened Refinement
  import opened Kernel
  import opened Words
  import opened BufferRing

  // ---- requests and completions ----

  datatype Sqe = AcceptMulti(listener: Fd) | Recv(fd: Fd) | Send(fd: Fd, data: bytes) | CloseFd(fd: Fd)
  {
    function Code(): nat {
      match this
      case AcceptMulti(_) => 1
      case Recv(_) => 2
      case Send(_, _) => 3
      case CloseFd(_) => 4
    }

    function Target(): Fd {
      if AcceptMulti? then listener else fd
    }

    /** What the completion carries back. */
    function UserData(): nat {
      Pack(Code(), Target())
    }

    predicate OnConn() { Recv? || Send? }
  }

  datatype Stage = InFlight | Done(result: int, more: bool, bid: Option<nat>)

  /**
   `owner`: the connection, by its number, a recv or send was submitted for; the kernel never sees it.
   A completion delivered by a multishot accept is an operation of its own.
   */
  datatype Op = Op(sqe: Sqe, owner: nat, stage: Stage)

  /** The one descriptor an operation has to itself until it is handled. */
  function Claim(op: Op): Option<Fd> {
    match op.sqe
    case Recv(fd) => Some(fd)
    case Send(fd, _) => Some(fd)
    case CloseFd(fd) => if op.stage.InFlight? then Some(fd) else None
    case AcceptMulti(_) => if op.stage.Done? && op.stage.result >= 0 then Some(op.stage.result) else None
  }

  function Lends(op: Op): Option<nat> {
    if op.sqe.Recv? && op.stage.Done? then op.stage.bid else None
  }

  function Busy(op: Op): set<Fd> { if Claim(op).Some? then {Claim(op).value} else {} }

  function InHand(op: Op): set<nat> { if Lends(op).Some? then {Lends(op).value} else {} }

  /** The multishot accept itself: in flight, or its last completion. */
  predicate IsArm(op: Op) {
    op.sqe.AcceptMulti? && !(op.stage.Done? && op.stage.more)
  }

  /** The length of a send is a 32-bit number. */
  function Handed(pending: bytes): bytes {
    pending[..|pending| % U32]
  }

  function Addr(bid: nat): nat { bid * BUF_SIZE }

  // ---- the state ----

  /** What has been received from and sent to a descriptor since it was opened. */
  datatype Stream = Stream(taken: bytes, out: bytes)

  /**
   `streams`: the open descriptors. `pool`: the contents of the buffers, by address. `holder`: the operation
   that has each descriptor. `lent`: the completion that has each buffer. `lost`: descriptors whose next
   operation was refused by the full submission queue. `leaked`: buffers never given back to the ring.
   */
  datatype Uring = Uring(
    ops: map<nat, Op>,
    next: nat,
    streams: map<Fd, Stream>,
    bufs: Bufs,
    pool: map<nat, bytes>,
    conns: map<Fd, Run>,
    generation: map<Fd, nat>,
    accepted: nat,
    armed: bool,
    arm: nat,
    holder: map<Fd, nat>,
    lent: map<nat, nat>,
    lost: set<Fd>,
    leaked: set<nat>)

  predicate ClaimOk(u: Uring, id: nat, op: Op, fd: Fd) {
    && fd in u.holder && u.holder[fd] == id && fd in u.streams && IsI32(fd)
    && (fd in u.conns <==> op.sqe.OnConn())
    && (op.sqe.AcceptMulti? ==> u.streams[fd] == Stream([], []))
  }

  predicate OpOk(u: Uring, id: nat, op: Op) {
    && id < u.next && IsI32(op.sqe.Target())
    && (Claim(op).Some? ==> ClaimOk(u, id, op, Claim(op).value))
    && (Lends(op).Some? ==> Lends(op).value in u.lent && u.lent[Lends(op).value] == id)
    && (IsArm(op) ==> u.armed && id == u.arm)
  }

  predicate HolderOk(u: Uring, fd: Fd, id: nat) {
    id in u.ops && Claim(u.ops[id]) == Some(fd)
  }

  predicate LentOk(u: Uring, bid: nat, id: nat) {
    id in u.ops && Lends(u.ops[id]) == Some(bid)
  }

  /** The operation on a connection is the one its state asks for, on memory that has not changed. */
  predicate OpFits(op: Op, owner: nat, s: Run, x: Stream, pool: map<nat, bytes>)
    requires s.conn.Ok()
  {
    op.owner == owner &&
    match op.sqe
    case Recv(_) => s.conn.phase == Reading && x.out == s.sent && RecvFits(op.stage, s.fed, x.taken, pool)
    case Send(_, data) =>
      && s.conn.phase == Writing && x.taken == s.fed && data == Handed(s.conn.Pending()) && data != []
      && SendFits(op.stage, data, s.sent, x.out)
    case _ => false
  }

  predicate RecvFits(stage: Stage, fed: bytes, taken: bytes, pool: map<nat, bytes>) {
    match stage
    case InFlight => taken == fed
    case Done(_, _, None) => taken == fed
    case Done(n, _, Some(bid)) =>
      if n > 0 then Addr(bid) in pool && |pool[Addr(bid)]| == n <= BUF_SIZE && taken == fed + pool[Addr(bid)] else taken == fed
  }

  predicate SendFits(stage: Stage, data: bytes, sent: bytes, out: bytes) {
    match stage
    case InFlight => out == sent
    case Done(n, _, _) => n <= |data| && out == sent + if n >= 0 then data[..n] else []
  }

  /** What has been received was fed and what was sent was reported. */
  ghost predicate Settled(app: App, u: Uring, fd: Fd) {
    && fd in u.conns && fd in u.streams && fd in u.generation
    && Inv(app, u.conns[fd]) && u.conns[fd].fed == u.streams[fd].taken && u.conns[fd].sent == u.streams[fd].out
  }

  ghost predicate ConnOk(app: App, u: Uring, fd: Fd, s: Run) {
    && Inv(app, s) && s.conn.phase != Closed && fd in u.generation && fd in u.streams
    && if fd in u.holder then u.holder[fd] in u.ops && OpFits(u.ops[u.holder[fd]], u.generation[fd], s, u.streams[fd], u.pool)
       else fd in u.lost && s.fed == u.streams[fd].taken && s.sent == u.streams[fd].out
  }

  /** An open descriptor has an operation, or was refused one, or is being handled: just one of these. */
  predicate KeyOk(u: Uring, busy: set<Fd>, fd: Fd) {
    && (fd in u.streams <==> fd in u.holder || fd in u.lost || fd in busy)
    && !(fd in u.holder && fd in u.lost) && !(fd in u.holder && fd in busy) && !(fd in u.lost && fd in busy)
    && (fd in u.conns <==> fd in u.generation) && (fd in u.conns ==> fd in u.streams && u.generation[fd] < u.accepted)
    && (fd in u.streams ==> IsI32(fd))
  }

  /** A buffer out of the ring is lent to one completion, in hand, or leaked. */
  predicate BufOk(u: Uring, inHand: set<nat>, bid: nat) {
    && (bid in u.bufs.held <==> bid in u.lent || bid in inHand || bid in u.leaked)
    && !(bid in u.lent && bid in inHand) && !(bid in u.lent && bid in u.leaked) && !(bid in inHand && bid in u.leaked)
  }

  /** `busy`: descriptors whose completion is being handled. `inHand`: buffers being read. */
  ghost predicate Shape(u: Uring, busy: set<Fd>, inHand: set<nat>) {
    && (forall fd :: KeyOk(u, busy, fd)) && (forall bid :: BufOk(u, inHand, bid))
  }

  ghost predicate Sound(cap: nat, u: Uring) {
    u.bufs.Ok() && |u.conns| <= cap && (u.armed ==> u.arm in u.ops && IsArm(u.ops[u.arm]))
  }

  ghost predicate OpsOk(u: Uring) {
    forall id {:trigger u.ops[id]} :: id in u.ops ==> OpOk(u, id, u.ops[id])
  }

  ghost predicate HoldersOk(u: Uring) {
    && (forall fd {:trigger u.holder[fd]} :: fd in u.holder ==> HolderOk(u, fd, u.holder[fd]))
    && (forall bid {:trigger u.lent[bid]} :: bid in u.lent ==> LentOk(u, bid, u.lent[bid]))
  }

  ghost predicate ConnsOk(app: App, u: Uring, busy: set<Fd>) {
    forall fd {:trigger u.conns[fd]} :: fd in u.conns && fd !in busy ==> ConnOk(app, u, fd, u.conns[fd])
  }

  ghost predicate InOrder(app: App, cap: nat, u: Uring, busy: set<Fd>, inHand: set<nat>) {
    Sound(cap, u) && Shape(u, busy, inHand) && OpsOk(u) && HoldersOk(u) && ConnsOk(app, u, busy)
  }

  // ---- what the kernel does ----

  /** A recv takes the next buffer and fills it. */
  ghost function Filled(u: Uring, data: bytes): Uring
    requires u.bufs.Framed() && u.bufs.head < u.bufs.tail
  {
    u.(bufs := Picked(u.bufs), pool := u.pool[Addr(u.bufs.Window()[0]) := data])
  }

  /** A recv or send ends; its buffer, if any, goes with the completion. */
  function Finished(u: Uring, id: nat, stage: Stage, x: Stream): Uring
    requires id in u.ops && u.ops[id].sqe.OnConn()
  {
    var op := u.ops[id].(stage := stage);
    u.(ops := u.ops[id := op], streams := u.streams[op.sqe.fd := x],
       lent := if Lends(op).Some? then u.lent[Lends(op).value := id] else u.lent)
  }

  function ClosedBy(u: Uring, id: nat, result: int): Uring
    requires id in u.ops && u.ops[id].sqe.CloseFd?
  {
    var fd := u.ops[id].sqe.fd;
    u.(ops := u.ops[id := u.ops[id].(stage := Done(result, false, None))],
       streams := u.streams - {fd}, holder := u.holder - {fd})
  }

  /** A connection, or an error, is reported by the multishot accept; with `more` it stays armed. */
  function AcceptedAs(u: Uring, id: nat, result: int, more: bool): Uring
    requires u.arm in u.ops && u.ops[u.arm].sqe.AcceptMulti?
  {
    u.(ops := u.ops[id := u.ops[u.arm].(stage := Done(result, more, None))],
       next := if id == u.next then u.next + 1 else u.next,
       streams := if result >= 0 then u.streams[result := Stream([], [])] else u.streams,
       holder := if result >= 0 then u.holder[result := id] else u.holder)
  }

  /** What a connection's agreement depends on: its own stream, operation and buffer. */
  ghost predicate SameFor(u: Uring, v: Uring, fd: Fd) {
    && (fd in u.generation ==> fd in v.generation && v.generation[fd] == u.generation[fd])
    && (fd in u.streams ==> fd in v.streams && v.streams[fd] == u.streams[fd])
    && (fd in v.holder <==> fd in u.holder) && (fd in u.lost ==> fd in v.lost)
    && (fd in u.holder ==> v.holder[fd] == u.holder[fd] && (u.holder[fd] in u.ops ==> SameOp(u, v, u.holder[fd])))
  }

  ghost predicate SameOp(u: Uring, v: Uring, id: nat)
    requires id in u.ops
  {
    && id in v.ops && v.ops[id] == u.ops[id]
    && (Lends(u.ops[id]).Some? ==>
          var a := Addr(Lends(u.ops[id]).value); a in u.pool ==> a in v.pool && v.pool[a] == u.pool[a])
  }

  lemma ConnFrame(app: App, u: Uring, v: Uring, fd: Fd, s: Run)
    requires ConnOk(app, u, fd, s) && SameFor(u, v, fd)
    ensures ConnOk(app, v, fd, s)
  {
    assert s.conn.Ok();
    hide Inv, Conn.Pending, Handed;
    if fd in u.holder { OpFrame(app, u, v, u.holder[fd], u.generation[fd], s, u.streams[fd]); }
  }

  lemma OpFrame(app: App, u: Uring, v: Uring, id: nat, owner: nat, s: Run, x: Stream)
    requires s.conn.Ok() && id in u.ops && SameOp(u, v, id) && OpFits(u.ops[id], owner, s, x, u.pool)
    ensures OpFits(v.ops[id], owner, s, x, v.pool)
  {
    hide Conn.Ok, Conn.Pending, Handed;
  }

  // ---- locality: a change to one descriptor, operation or buffer concerns no other ----

  ghost predicate SameBut<K(!new), V>(m: map<K, V>, n: map<K, V>, but: set<K>) {
    forall x :: x !in but ==> (x in m <==> x in n) && (x in m ==> m[x] == n[x])
  }

  ghost predicate PoolSame(u: Uring, v: Uring, bids: set<nat>) {
    forall b {:trigger u.lent[b]} :: b in u.lent && b !in bids ==>
      (Addr(b) in u.pool ==> Addr(b) in v.pool && v.pool[Addr(b)] == u.pool[Addr(b)])
  }

  /** `v` is `u` but for the descriptors `fds`, the operations `ids` on them and the buffers `bids` of those. */
  ghost predicate Differs(u: Uring, v: Uring, fds: set<Fd>, ids: set<nat>, bids: set<nat>) {
    && SameBut(u.ops, v.ops, ids) && SameBut(u.streams, v.streams, fds) && SameBut(u.conns, v.conns, fds)
    && SameBut(u.generation, v.generation, fds) && SameBut(u.holder, v.holder, fds) && SameBut(u.lent, v.lent, bids)
    && u.lost - fds == v.lost - fds && PoolSame(u, v, bids)
    && u.bufs.held - bids == v.bufs.held - bids && u.leaked - bids == v.leaked - bids
    && u.accepted <= v.accepted && u.next <= v.next && (u.armed ==> u.arm in ids || (v.armed && v.arm == u.arm))
    && (forall fd :: fd in fds && fd in u.holder ==> u.holder[fd] in ids)
    && (forall b :: b in bids && b in u.lent ==> u.lent[b] in ids)
    && (forall id :: id in ids && id in u.ops ==>
          (Claim(u.ops[id]).Some? ==> Claim(u.ops[id]).value in fds) && (Lends(u.ops[id]).Some? ==> Lends(u.ops[id]).value in bids))
  }

  lemma OpElsewhere(u: Uring, v: Uring, fds: set<Fd>, ids: set<nat>, bids: set<nat>, id: nat)
    requires Differs(u, v, fds, ids, bids) && id !in ids && id in v.ops
    requires OpsOk(u)
    ensures id in u.ops && u.ops[id] == v.ops[id] && OpOk(v, id, v.ops[id])
  {
    hide IsArm, Sqe.OnConn;
    assert OpOk(u, id, u.ops[id]);
  }

  lemma HolderElsewhere(u: Uring, v: Uring, fds: set<Fd>, ids: set<nat>, bids: set<nat>, fd: Fd)
    requires Differs(u, v, fds, ids, bids) && fd !in fds && fd in v.holder && HoldersOk(u)
    ensures HolderOk(v, fd, v.holder[fd])
  {
    assert HolderOk(u, fd, u.holder[fd]);
  }

  lemma LentElsewhere(u: Uring, v: Uring, fds: set<Fd>, ids: set<nat>, bids: set<nat>, b: nat)
    requires Differs(u, v, fds, ids, bids) && b !in bids && b in v.lent && HoldersOk(u)
    ensures LentOk(v, b, v.lent[b])
  {
    assert LentOk(u, b, u.lent[b]);
  }

  lemma ConnElsewhere(app: App, u: Uring, v: Uring, fds: set<Fd>, ids: set<nat>, bids: set<nat>, fd: Fd)
    requires Differs(u, v, fds, ids, bids) && fd !in fds && fd in v.conns && OpsOk(u) && HoldersOk(u)
    requires fd in u.conns ==> ConnOk(app, u, fd, u.conns[fd])
    ensures ConnOk(app, v, fd, v.conns[fd])
  {
    hide Inv, OpFits;
    if fd in u.holder {
      assert HolderOk(u, fd, u.holder[fd]);
      assert OpOk(u, u.holder[fd], u.ops[u.holder[fd]]);
    }
    if fd in u.lost { assert fd in u.lost - fds; }
    ConnFrame(app, u, v, fd, u.conns[fd]);
  }

  lemma KeyElsewhere(u: Uring, v: Uring, fds: set<Fd>, ids: set<nat>, bids: set<nat>, fd: Fd, busyU: set<Fd>, busyV: set<Fd>)
    requires Differs(u, v, fds, ids, bids) && busyU - fds == busyV - fds && fd !in fds && KeyOk(u, busyU, fd)
    ensures KeyOk(v, busyV, fd)
  {
    assert fd in u.lost - fds <==> fd in v.lost - fds;
    assert fd in busyU - fds <==> fd in busyV - fds;
  }

  lemma BufElsewhere(u: Uring, v: Uring, fds: set<Fd>, ids: set<nat>, bids: set<nat>, b: nat, handU: set<nat>, handV: set<nat>)
    requires Differs(u, v, fds, ids, bids) && handU - bids == handV - bids && b !in bids && BufOk(u, handU, b)
    ensures BufOk(v, handV, b)
  {
    assert b in u.bufs.held - bids <==> b in v.bufs.held - bids;
    assert b in u.leaked - bids <==> b in v.leaked - bids;
    assert b in handU - bids <==> b in handV - bids;
  }

  /** What has to be shown where something changed. */
  ghost predicate LocallyOk(app: App, v: Uring, busy: set<Fd>, inHand: set<nat>, fds: set<Fd>, ids: set<nat>, bids: set<nat>) {
    && (forall id :: id in ids && id in v.ops ==> OpOk(v, id, v.ops[id]))
    && (forall fd :: fd in fds ==> KeyOk(v, busy, fd))
    && (forall fd :: fd in fds && fd in v.holder ==> HolderOk(v, fd, v.holder[fd]))
    && (forall fd :: fd in fds && fd in v.conns && fd !in busy ==> ConnOk(app, v, fd, v.conns[fd]))
    && (forall b :: b in bids ==> BufOk(v, inHand, b))
    && (forall b :: b in bids && b in v.lent ==> LentOk(v, b, v.lent[b]))
  }

  lemma Locality(app: App, cap: nat, u: Uring, v: Uring, busyU: set<Fd>, busyV: set<Fd>, handU: set<nat>, handV: set<nat>,
                 fds: set<Fd>, ids: set<nat>, bids: set<nat>)
    requires InOrder(app, cap, u, busyU, handU) && Differs(u, v, fds, ids, bids) && Sound(cap, v)
    requires busyU - fds == busyV - fds && handU - bids == handV - bids && LocallyOk(app, v, busyV, handV, fds, ids, bids)
    ensures InOrder(app, cap, v, busyV, handV)
  {
    hide OpsOk, HoldersOk, ConnsOk, Shape, Sound, Differs, LocallyOk;
    ShapeLocality(app, u, v, busyU, busyV, handU, handV, fds, ids, bids);
    OpsLocality(app, u, v, busyV, handV, fds, ids, bids);
    HoldersLocality(app, u, v, busyV, handV, fds, ids, bids);
    ConnsLocality(app, u, v, busyU, busyV, handV, fds, ids, bids);
  }

  lemma OpsLocality(app: App, u: Uring, v: Uring, busyV: set<Fd>, handV: set<nat>, fds: set<Fd>, ids: set<nat>, bids: set<nat>)
    requires OpsOk(u) && Differs(u, v, fds, ids, bids) && LocallyOk(app, v, busyV, handV, fds, ids, bids)
    ensures OpsOk(v)
  {
    hide OpOk, HolderOk, LentOk, ConnOk, KeyOk, BufOk, Differs;
    forall id | id in v.ops ensures OpOk(v, id, v.ops[id]) {
      if id !in ids { OpElsewhere(u, v, fds, ids, bids, id); }
    }
  }

  lemma HoldersLocality(app: App, u: Uring, v: Uring, busyV: set<Fd>, handV: set<nat>, fds: set<Fd>, ids: set<nat>, bids: set<nat>)
    requires HoldersOk(u) && Differs(u, v, fds, ids, bids) && LocallyOk(app, v, busyV, handV, fds, ids, bids)
    ensures HoldersOk(v)
  {
    hide OpOk, HolderOk, LentOk, ConnOk, KeyOk, BufOk, Differs;
    forall fd | fd in v.holder ensures HolderOk(v, fd, v.holder[fd]) {
      if fd !in fds { HolderElsewhere(u, v, fds, ids, bids, fd); }
    }
    forall b | b in v.lent ensures LentOk(v, b, v.lent[b]) {
      if b !in bids { LentElsewhere(u, v, fds, ids, bids, b); }
    }
  }

  lemma ConnsLocality(app: App, u: Uring, v: Uring, busyU: set<Fd>, busyV: set<Fd>, handV: set<nat>,
                      fds: set<Fd>, ids: set<nat>, bids: set<nat>)
    requires OpsOk(u) && HoldersOk(u) && ConnsOk(app, u, busyU)
    requires busyU - fds == busyV - fds && Differs(u, v, fds, ids, bids) && LocallyOk(app, v, busyV, handV, fds, ids, bids)
    ensures ConnsOk(app, v, busyV)
  {
    hide OpOk, HolderOk, LentOk, ConnOk, KeyOk, BufOk, Differs, OpsOk, HoldersOk;
    forall fd | fd in v.conns && fd !in busyV ensures ConnOk(app, v, fd, v.conns[fd]) {
      if fd !in fds {
        assert fd !in busyU by { assert fd !in busyV - fds; }
        ConnElsewhere(app, u, v, fds, ids, bids, fd);
      }
    }
  }

  lemma ShapeLocality(app: App, u: Uring, v: Uring, busyU: set<Fd>, busyV: set<Fd>, handU: set<nat>, handV: set<nat>,
                      fds: set<Fd>, ids: set<nat>, bids: set<nat>)
    requires Shape(u, busyU, handU) && Differs(u, v, fds, ids, bids)
    requires busyU - fds == busyV - fds && handU - bids == handV - bids && LocallyOk(app, v, busyV, handV, fds, ids, bids)
    ensures Shape(v, busyV, handV)
  {
    hide KeyOk, BufOk, Differs, OpOk, HolderOk, LentOk, ConnOk;
    forall fd ensures KeyOk(v, busyV, fd) {
      if fd !in fds { KeyElsewhere(u, v, fds, ids, bids, fd, busyU, busyV); }
    }
    forall b ensures BufOk(v, handV, b) {
      if b !in bids { BufElsewhere(u, v, fds, ids, bids, b, handU, handV); }
    }
  }

  lemma Parts(app: App, cap: nat, u: Uring, busy: set<Fd>, inHand: set<nat>)
    requires InOrder(app, cap, u, busy, inHand)
    ensures Sound(cap, u)
    ensures forall fd {:trigger KeyOk(u, busy, fd)} :: KeyOk(u, busy, fd)
    ensures forall bid {:trigger BufOk(u, inHand, bid)} :: BufOk(u, inHand, bid)
    ensures forall id {:trigger u.ops[id]} :: id in u.ops ==> OpOk(u, id, u.ops[id])
    ensures u.next !in u.ops
  {
    hide Sound, KeyOk, BufOk;
    NextIsNew(u);
  }

  lemma NotHeld(u: Uring, busy: set<Fd>, fd: Fd)
    requires KeyOk(u, busy, fd) && fd in busy
    ensures fd !in u.holder
  {
  }

  // ---- what the kernel does leaves everything in order ----

  lemma FillingLeaves(app: App, cap: nat, u: Uring, busy: set<Fd>, inHand: set<nat>, data: bytes)
    requires InOrder(app, cap, u, busy, inHand) && u.bufs.head < u.bufs.tail
    ensures var bid := u.bufs.Window()[0];
            bid !in u.bufs.held && InOrder(app, cap, Filled(u, data), busy, inHand + {bid})
  {
    var bid, v := u.bufs.Window()[0], Filled(u, data);
    PickKeeps(u.bufs);
    assert v.bufs.held == u.bufs.held + {bid};
    assert BufOk(u, inHand, bid);
    FillingDiffers(u, v, bid, data);
    assert BufOk(v, inHand + {bid}, bid);
    hide OpOk, OpsOk, HolderOk, LentOk, HoldersOk, ConnsOk, ConnOk, Shape, KeyOk, BufOk, Differs;
    Locality(app, cap, u, v, busy, busy, inHand, inHand + {bid}, {}, {}, {bid});
  }

  lemma FillingDiffers(u: Uring, v: Uring, bid: nat, data: bytes)
    requires v == u.(bufs := v.bufs, pool := u.pool[Addr(bid) := data])
    requires v.bufs.held == u.bufs.held + {bid} && bid !in u.lent
    ensures Differs(u, v, {}, {}, {bid})
  {
  }

  lemma FinishingLeaves(app: App, cap: nat, u: Uring, busy: set<Fd>, inHand: set<nat>, id: nat, stage: Stage, x: Stream)
    requires InOrder(app, cap, u, busy, inHand) && id in u.ops && u.ops[id].sqe.OnConn() && u.ops[id].stage.InFlight? && stage.Done?
    requires var op := u.ops[id].(stage := stage); var fd := op.sqe.fd;
             && InHand(op) <= inHand
             && (fd in u.conns && fd in u.generation && Inv(app, u.conns[fd]) ==>
                   OpFits(op, u.generation[fd], u.conns[fd], x, u.pool))
    ensures InOrder(app, cap, Finished(u, id, stage, x), busy, inHand - InHand(u.ops[id].(stage := stage)))
  {
    var v, op := Finished(u, id, stage, x), u.ops[id].(stage := stage);
    var fd, b := op.sqe.fd, InHand(op);
    assert OpOk(u, id, u.ops[id]) && KeyOk(u, busy, fd);
    assert ConnOk(app, u, fd, u.conns[fd]);
    assert Lends(op).Some? ==> BufOk(u, inHand, Lends(op).value);
    FinishingDiffers(u, id, stage, x);
    FinishingHere(app, u, busy, inHand, id, stage, x);
    hide OpOk, OpsOk, HolderOk, LentOk, HoldersOk, ConnsOk, ConnOk, Shape, KeyOk, BufOk, Differs;
    hide LocallyOk, Sound;
    assert Sound(cap, v) by { FinishingSound(cap, u, id, stage, x); }
    Locality(app, cap, u, v, busy, busy, inHand, inHand - b, {fd}, {id}, b);
  }

  lemma FinishingSound(cap: nat, u: Uring, id: nat, stage: Stage, x: Stream)
    requires Sound(cap, u) && id in u.ops && u.ops[id].sqe.OnConn()
    ensures Sound(cap, Finished(u, id, stage, x))
  {
    hide Bufs.Ok;
  }

  lemma FinishingDiffers(u: Uring, id: nat, stage: Stage, x: Stream)
    requires id in u.ops && u.ops[id].sqe.OnConn() && u.ops[id].stage.InFlight? && OpOk(u, id, u.ops[id])
    requires forall b :: b in InHand(u.ops[id].(stage := stage)) ==> b !in u.lent
    ensures Differs(u, Finished(u, id, stage, x), {u.ops[id].sqe.fd}, {id}, InHand(u.ops[id].(stage := stage)))
  {
  }

  lemma FinishingHere(app: App, u: Uring, busy: set<Fd>, inHand: set<nat>, id: nat, stage: Stage, x: Stream)
    requires id in u.ops && u.ops[id].sqe.OnConn() && u.ops[id].stage.InFlight? && stage.Done?
    requires OpOk(u, id, u.ops[id]) && KeyOk(u, busy, u.ops[id].sqe.fd)
    requires var op := u.ops[id].(stage := stage); var fd := op.sqe.fd;
             && InHand(op) <= inHand && (Lends(op).Some? ==> BufOk(u, inHand, Lends(op).value))
             && fd in u.conns && ConnOk(app, u, fd, u.conns[fd])
             && OpFits(op, u.generation[fd], u.conns[fd], x, u.pool)
    ensures var op := u.ops[id].(stage := stage);
            LocallyOk(app, Finished(u, id, stage, x), busy, inHand - InHand(op), {op.sqe.fd}, {id}, InHand(op))
  {
    var v, op := Finished(u, id, stage, x), u.ops[id].(stage := stage);
    var fd := op.sqe.fd;
    assert OpOk(v, id, op) && KeyOk(v, busy, fd) && HolderOk(v, fd, id);
    assert ConnOk(app, v, fd, v.conns[fd]) by { hide Inv, OpFits; }
    assert Lends(op).Some? ==> BufOk(v, inHand - InHand(op), Lends(op).value) && LentOk(v, Lends(op).value, id);
    hide OpOk, HolderOk, LentOk, ConnOk, KeyOk, BufOk;
  }

  lemma ClosingLeaves(app: App, cap: nat, u: Uring, busy: set<Fd>, inHand: set<nat>, id: nat, result: int)
    requires InOrder(app, cap, u, busy, inHand) && id in u.ops && u.ops[id].sqe.CloseFd? && u.ops[id].stage.InFlight?
    ensures InOrder(app, cap, ClosedBy(u, id, result), busy, inHand)
  {
    hide InOrder, Sound, KeyOk, BufOk, OpOk, HolderOk, LentOk, ConnOk, Differs;
    Parts(app, cap, u, busy, inHand);
    var v, fd := ClosedBy(u, id, result), u.ops[id].sqe.fd;
    assert KeyOk(u, busy, fd);
    ClosingDiffers(u, id, result);
    ClosingHere(cap, u, busy, id, result);
    Locality(app, cap, u, v, busy, busy, inHand, inHand, {fd}, {id}, {});
  }

  lemma ClosingDiffers(u: Uring, id: nat, result: int)
    requires id in u.ops && u.ops[id].sqe.CloseFd? && u.ops[id].stage.InFlight? && OpOk(u, id, u.ops[id])
    ensures Differs(u, ClosedBy(u, id, result), {u.ops[id].sqe.fd}, {id}, {})
  {
  }

  lemma ClosingHere(cap: nat, u: Uring, busy: set<Fd>, id: nat, result: int)
    requires Sound(cap, u) && id in u.ops && u.ops[id].sqe.CloseFd? && u.ops[id].stage.InFlight?
    requires OpOk(u, id, u.ops[id]) && KeyOk(u, busy, u.ops[id].sqe.fd)
    ensures var v := ClosedBy(u, id, result);
            Sound(cap, v) && OpOk(v, id, v.ops[id]) && KeyOk(v, busy, u.ops[id].sqe.fd)
            && u.ops[id].sqe.fd !in v.holder && u.ops[id].sqe.fd !in v.conns
  {
    hide Bufs.Ok;
  }

  predicate MayReport(u: Uring, id: nat, result: int, more: bool) {
    && u.armed && u.arm in u.ops && u.ops[u.arm].stage.InFlight?
    && (if more then id == u.next else id == u.arm)
    && (result >= 0 ==> IsI32(result) && result !in u.streams) && (more ==> result >= 0)
  }

  /** accept returns a descriptor that is not open, so nothing still speaks for its last user. */
  lemma AcceptingLeaves(app: App, cap: nat, u: Uring, busy: set<Fd>, inHand: set<nat>, id: nat, result: int, more: bool)
    requires InOrder(app, cap, u, busy, inHand) && MayReport(u, id, result, more)
    ensures u.ops[u.arm].sqe.AcceptMulti? && InOrder(app, cap, AcceptedAs(u, id, result, more), busy, inHand)
  {
    hide InOrder, Sound, KeyOk, BufOk, OpOk, HolderOk, LentOk, ConnOk, Differs;
    Parts(app, cap, u, busy, inHand);
    ArmIsAccept(cap, u);
    assert result >= 0 ==> KeyOk(u, busy, result);
    var v := AcceptedAs(u, id, result, more);
    AcceptingDiffers(u, busy, id, result, more);
    AcceptingHere(cap, u, busy, id, result, more);
    Locality(app, cap, u, v, busy, busy, inHand, inHand, if result >= 0 then {result} else {}, {id}, {});
  }

  lemma ArmIsAccept(cap: nat, u: Uring)
    requires Sound(cap, u) && u.armed
    ensures u.arm in u.ops && u.ops[u.arm].sqe.AcceptMulti?
  {
  }

  lemma AcceptingDiffers(u: Uring, busy: set<Fd>, id: nat, result: int, more: bool)
    requires MayReport(u, id, result, more) && u.ops[u.arm].sqe.AcceptMulti?
    requires u.next !in u.ops && (result >= 0 ==> KeyOk(u, busy, result))
    ensures Differs(u, AcceptedAs(u, id, result, more), if result >= 0 then {result} else {}, {id}, {})
  {
  }

  lemma AcceptingHere(cap: nat, u: Uring, busy: set<Fd>, id: nat, result: int, more: bool)
    requires Sound(cap, u) && MayReport(u, id, result, more) && u.next !in u.ops
    requires OpOk(u, u.arm, u.ops[u.arm]) && u.ops[u.arm].sqe.AcceptMulti? && (result >= 0 ==> KeyOk(u, busy, result))
    ensures var v := AcceptedAs(u, id, result, more);
            && Sound(cap, v) && OpOk(v, id, v.ops[id])
            && (result >= 0 ==> KeyOk(v, busy, result) && HolderOk(v, result, id) && v.holder[result] == id && result !in v.conns)
  {
    hide Bufs.Ok;
  }

  // ---- what the runtime does ----

  /** The completion is taken off the queue; its descriptor and buffer are in the handler's hands. */
  function Reaped(u: Uring, id: nat): Uring
    requires id in u.ops
  {
    var op := u.ops[id];
    u.(ops := u.ops - {id}, armed := u.armed && !IsArm(op),
       holder := if Claim(op).Some? then u.holder - {Claim(op).value} else u.holder,
       lent := if Lends(op).Some? then u.lent - {Lends(op).value} else u.lent)
  }

  lemma ReapingLeaves(app: App, cap: nat, u: Uring, v: Uring, id: nat)
    requires InOrder(app, cap, u, {}, {}) && id in u.ops && u.ops[id].stage.Done? && v == Reaped(u, id)
    ensures InOrder(app, cap, v, Busy(u.ops[id]), InHand(u.ops[id]))
  {
    hide InOrder, Sound, KeyOk, BufOk, OpOk, HolderOk, LentOk, ConnOk, Differs;
    Parts(app, cap, u, {}, {});
    var op := u.ops[id];
    assert Claim(op).Some? ==> KeyOk(u, {}, Claim(op).value);
    assert Lends(op).Some? ==> BufOk(u, {}, Lends(op).value);
    ReapingDiffers(u, id);
    ReapingHere(cap, u, id);
    Locality(app, cap, u, v, {}, Busy(op), {}, InHand(op), Busy(op), {id}, InHand(op));
  }

  lemma ReapingHere(cap: nat, u: Uring, id: nat)
    requires Sound(cap, u) && id in u.ops && OpOk(u, id, u.ops[id]) && u.ops[id].stage.Done?
    requires var op := u.ops[id];
             (Claim(op).Some? ==> KeyOk(u, {}, Claim(op).value)) && (Lends(op).Some? ==> BufOk(u, {}, Lends(op).value))
    ensures var v, op := Reaped(u, id), u.ops[id];
            && Sound(cap, v) && (Claim(op).Some? ==> KeyOk(v, Busy(op), Claim(op).value))
            && (Lends(op).Some? ==> BufOk(v, InHand(op), Lends(op).value))
  {
    hide Bufs.Ok;
  }

  lemma ReapingDiffers(u: Uring, id: nat)
    requires id in u.ops && OpOk(u, id, u.ops[id])
    ensures Differs(u, Reaped(u, id), Busy(u.ops[id]), {id}, InHand(u.ops[id]))
  {
  }

  /** A completion is delivered to the connection it was submitted for, never to a later user of the descriptor. */
  lemma CompletionFindsItsConn(app: App, cap: nat, u: Uring, id: nat)
    requires InOrder(app, cap, u, {}, {}) && id in u.ops && u.ops[id].sqe.OnConn()
    ensures var op := u.ops[id]; var fd := op.sqe.fd;
            && fd in u.conns && fd in u.generation && op.owner == u.generation[fd] && fd in u.streams
            && Inv(app, u.conns[fd]) && u.conns[fd].conn.phase != Closed
            && OpFits(op, u.generation[fd], u.conns[fd], u.streams[fd], u.pool)
  {
    var op := u.ops[id];
    assert OpOk(u, id, op) && ConnOk(app, u, op.sqe.fd, u.conns[op.sqe.fd]);
  }

  /** Each connection has at most one recv or send out, and the bytes of a send are those still pending. */
  lemma OneOperationPerConn(app: App, cap: nat, u: Uring, i: nat, j: nat)
    requires InOrder(app, cap, u, {}, {}) && i in u.ops && j in u.ops && i != j
    ensures Claim(u.ops[i]).Some? ==> Claim(u.ops[i]) != Claim(u.ops[j])
    ensures Lends(u.ops[i]).Some? ==> Lends(u.ops[i]) != Lends(u.ops[j])
    ensures !(IsArm(u.ops[i]) && IsArm(u.ops[j]))
    ensures u.ops[i].sqe.Send? ==>
              && u.ops[i].sqe.fd in u.conns && u.conns[u.ops[i].sqe.fd].conn.Ok()
              && u.ops[i].sqe.data == Handed(u.conns[u.ops[i].sqe.fd].conn.Pending())
  {
    assert OpOk(u, i, u.ops[i]) && OpOk(u, j, u.ops[j]);
    if u.ops[i].sqe.Send? { CompletionFindsItsConn(app, cap, u, i); }
  }

  function Submitted(u: Uring, sqe: Sqe, owner: nat): Uring {
    u.(ops := u.ops[u.next := Op(sqe, owner, InFlight)], next := u.next + 1,
       holder := if sqe.AcceptMulti? then u.holder else u.holder[sqe.fd := u.next],
       armed := u.armed || sqe.AcceptMulti?, arm := if sqe.AcceptMulti? then u.next else u.arm)
  }

  lemma NextIsNew(u: Uring)
    requires OpsOk(u)
    ensures u.next !in u.ops
  {
    assert u.next in u.ops ==> OpOk(u, u.next, u.ops[u.next]);
  }

  /** What a connection may submit: the operation its state asks for. */
  ghost predicate MaySubmit(app: App, u: Uring, sqe: Sqe, owner: nat) {
    match sqe
    case AcceptMulti(listener) => !u.armed && IsI32(listener)
    case CloseFd(fd) => fd !in u.conns
    case _ =>
      && Settled(app, u, sqe.fd) && u.conns[sqe.fd].conn.phase != Closed && u.generation[sqe.fd] == owner
      && OpFits(Op(sqe, owner, InFlight), owner, u.conns[sqe.fd], u.streams[sqe.fd], u.pool)
  }

  function Frees(sqe: Sqe): set<Fd> { if sqe.AcceptMulti? then {} else {sqe.fd} }

  lemma SubmittingLeaves(app: App, cap: nat, u: Uring, sqe: Sqe, owner: nat)
    requires InOrder(app, cap, u, Frees(sqe), {}) && MaySubmit(app, u, sqe, owner)
    ensures InOrder(app, cap, Submitted(u, sqe, owner), {}, {})
  {
    hide InOrder, Sound, KeyOk, BufOk, OpOk, HolderOk, LentOk, ConnOk, Differs;
    hide MaySubmit;
    var v := Submitted(u, sqe, owner);
    Parts(app, cap, u, Frees(sqe), {});
    assert KeyOk(u, Frees(sqe), sqe.Target());
    SubmittingDiffers(app, u, sqe, owner);
    SubmittingHere(app, cap, u, sqe, owner);
    Locality(app, cap, u, v, Frees(sqe), {}, {}, {}, Frees(sqe), {u.next}, {});
  }

  lemma SubmittingDiffers(app: App, u: Uring, sqe: Sqe, owner: nat)
    requires u.next !in u.ops && KeyOk(u, Frees(sqe), sqe.Target()) && MaySubmit(app, u, sqe, owner)
    ensures Differs(u, Submitted(u, sqe, owner), Frees(sqe), {u.next}, {})
  {
    hide Inv, OpFits;
  }

  lemma SubmittingHere(app: App, cap: nat, u: Uring, sqe: Sqe, owner: nat)
    requires Sound(cap, u) && u.next !in u.ops && KeyOk(u, Frees(sqe), sqe.Target()) && MaySubmit(app, u, sqe, owner)
    ensures var v := Submitted(u, sqe, owner);
            && Sound(cap, v) && OpOk(v, u.next, v.ops[u.next])
            && (!sqe.AcceptMulti? ==> KeyOk(v, {}, sqe.fd) && HolderOk(v, sqe.fd, u.next) && v.holder[sqe.fd] == u.next)
            && (sqe.CloseFd? ==> sqe.fd !in v.conns)
            && (sqe.OnConn() ==> sqe.fd in v.conns && ConnOk(app, v, sqe.fd, v.conns[sqe.fd]))
  {
    hide Inv, OpFits, Bufs.Ok;
  }

  lemma RefusalLeaves(app: App, cap: nat, u: Uring, sqe: Sqe, owner: nat)
    requires InOrder(app, cap, u, Frees(sqe), {}) && MaySubmit(app, u, sqe, owner)
    ensures InOrder(app, cap, u.(lost := u.lost + Frees(sqe)), {}, {})
  {
    hide InOrder, Sound, KeyOk, BufOk, OpOk, HolderOk, LentOk, ConnOk, Differs;
    hide MaySubmit;
    Parts(app, cap, u, Frees(sqe), {});
    assert KeyOk(u, Frees(sqe), sqe.Target());
    RefusalHere(app, cap, u, sqe, owner);
    Locality(app, cap, u, u.(lost := u.lost + Frees(sqe)), Frees(sqe), {}, {}, {}, Frees(sqe), {}, {});
  }

  lemma RefusalHere(app: App, cap: nat, u: Uring, sqe: Sqe, owner: nat)
    requires Sound(cap, u) && KeyOk(u, Frees(sqe), sqe.Target()) && MaySubmit(app, u, sqe, owner)
    ensures var v := u.(lost := u.lost + Frees(sqe));
            && Sound(cap, v) && Differs(u, v, Frees(sqe), {}, {})
            && (!sqe.AcceptMulti? ==> KeyOk(v, {}, sqe.fd) && sqe.fd !in v.holder) && (sqe.CloseFd? ==> sqe.fd !in v.conns)
            && (sqe.OnConn() ==> sqe.fd in v.conns && ConnOk(app, v, sqe.fd, v.conns[sqe.fd]))
  {
    hide Inv, OpFits, Bufs.Ok;
  }

  function Without(u: Uring, fd: Fd): Uring {
    u.(conns := u.conns - {fd}, generation := u.generation - {fd})
  }

  lemma DroppingSound(cap: nat, u: Uring, fd: Fd)
    requires Sound(cap, u)
    ensures Sound(cap, Without(u, fd))
  {
    hide Bufs.Ok, IsArm;
    SameSize(u.conns, fd, START);
  }

  lemma DroppingKey(u: Uring, fd: Fd)
    requires KeyOk(u, {fd}, fd)
    ensures KeyOk(Without(u, fd), {fd}, fd)
  {
  }

  lemma DroppingDiffers(u: Uring, fd: Fd)
    requires fd !in u.holder
    ensures Differs(u, Without(u, fd), {fd}, {}, {})
  {
  }

  lemma DroppingLeaves(app: App, cap: nat, u: Uring, fd: Fd, inHand: set<nat>)
    requires InOrder(app, cap, u, {fd}, inHand)
    ensures InOrder(app, cap, Without(u, fd), {fd}, inHand)
  {
    hide InOrder, Sound, KeyOk, BufOk, OpOk, HolderOk, LentOk, ConnOk, Differs;
    Parts(app, cap, u, {fd}, inHand);
    assert KeyOk(u, {fd}, fd);
    NotHeld(u, {fd}, fd);
    DroppingSound(cap, u, fd);
    DroppingKey(u, fd);
    DroppingDiffers(u, fd);
    Locality(app, cap, u, Without(u, fd), {fd}, {fd}, inHand, inHand, {fd}, {}, {});
  }

  lemma SteppingLeaves(app: App, cap: nat, u: Uring, fd: Fd, s: Run, inHand: set<nat>)
    requires InOrder(app, cap, u, {fd}, inHand) && fd in u.conns
    ensures InOrder(app, cap, u.(conns := u.conns[fd := s]), {fd}, inHand)
  {
    hide InOrder, Sound, KeyOk, BufOk, OpOk, HolderOk, LentOk, ConnOk, Differs;
    var v := u.(conns := u.conns[fd := s]);
    Parts(app, cap, u, {fd}, inHand);
    assert KeyOk(u, {fd}, fd);
    NotHeld(u, {fd}, fd);
    SteppingHere(cap, u, fd, s);
    Locality(app, cap, u, v, {fd}, {fd}, inHand, inHand, {fd}, {}, {});
  }

  lemma SteppingHere(cap: nat, u: Uring, fd: Fd, s: Run)
    requires Sound(cap, u) && KeyOk(u, {fd}, fd) && fd in u.conns
    ensures var v := u.(conns := u.conns[fd := s]); Sound(cap, v) && KeyOk(v, {fd}, fd) && Differs(u, v, {fd}, {}, {})
  {
    hide Bufs.Ok, IsArm;
    SameSize(u.conns, fd, s);
  }

  function WithNew(u: Uring, fd: Fd): Uring {
    u.(conns := u.conns[fd := START], generation := u.generation[fd := u.accepted], accepted := u.accepted + 1)
  }

  lemma AddingLeaves(app: App, cap: nat, u: Uring, fd: Fd)
    requires InOrder(app, cap, u, {fd}, {}) && fd !in u.conns && |u.conns| < cap
    ensures InOrder(app, cap, WithNew(u, fd), {fd}, {})
  {
    hide InOrder, Sound, KeyOk, BufOk, OpOk, HolderOk, LentOk, ConnOk, Differs;
    Parts(app, cap, u, {fd}, {});
    assert KeyOk(u, {fd}, fd);
    NotHeld(u, {fd}, fd);
    AddingSound(cap, u, fd);
    AddingKey(u, fd);
    AddingDiffers(u, fd);
    Locality(app, cap, u, WithNew(u, fd), {fd}, {fd}, {}, {}, {fd}, {}, {});
  }

  lemma AddingSound(cap: nat, u: Uring, fd: Fd)
    requires Sound(cap, u) && fd !in u.conns && |u.conns| < cap
    ensures Sound(cap, WithNew(u, fd))
  {
    hide Bufs.Ok, IsArm;
    SameSize(u.conns, fd, START);
  }

  lemma AddingKey(u: Uring, fd: Fd)
    requires KeyOk(u, {fd}, fd)
    ensures KeyOk(WithNew(u, fd), {fd}, fd)
  {
  }

  lemma AddingDiffers(u: Uring, fd: Fd)
    requires fd !in u.holder
    ensures Differs(u, WithNew(u, fd), {fd}, {}, {})
  {
  }

  lemma RecyclingLeaves(app: App, cap: nat, u: Uring, busy: set<Fd>, bid: nat)
    requires InOrder(app, cap, u, busy, {bid})
    ensures bid in u.bufs.held && InOrder(app, cap, u.(bufs := Recycled(u.bufs, bid)), busy, {})
  {
    assert BufOk(u, {bid}, bid);
    hide InOrder, Sound, KeyOk, OpOk, HolderOk, LentOk, ConnOk, Differs, BufOk;
    Parts(app, cap, u, busy, {bid});
    RecyclingHere(cap, u, bid);
    Locality(app, cap, u, u.(bufs := Recycled(u.bufs, bid)), busy, busy, {bid}, {}, {}, {}, {bid});
  }

  /** A buffer in hand that is not given back is out of the ring for good. */
  lemma LeakingLeaves(app: App, cap: nat, u: Uring, busy: set<Fd>, bid: nat)
    requires InOrder(app, cap, u, busy, {bid})
    ensures InOrder(app, cap, u.(leaked := u.leaked + {bid}), busy, {})
  {
    assert BufOk(u, {bid}, bid);
    hide InOrder, Sound, KeyOk, OpOk, HolderOk, LentOk, ConnOk, Differs, BufOk;
    Parts(app, cap, u, busy, {bid});
    LeakingHere(cap, u, bid);
    Locality(app, cap, u, u.(leaked := u.leaked + {bid}), busy, busy, {bid}, {}, {}, {}, {bid});
  }

  lemma LeakingHere(cap: nat, u: Uring, bid: nat)
    requires Sound(cap, u) && BufOk(u, {bid}, bid)
    ensures var v := u.(leaked := u.leaked + {bid});
            Sound(cap, v) && BufOk(v, {}, bid) && bid !in v.lent && Differs(u, v, {}, {}, {bid})
  {
    hide Bufs.Ok, IsArm;
  }

  lemma RecyclingHere(cap: nat, u: Uring, bid: nat)
    requires Sound(cap, u) && BufOk(u, {bid}, bid) && bid in u.bufs.held
    ensures var v := u.(bufs := Recycled(u.bufs, bid)); Sound(cap, v) && BufOk(v, {}, bid) && Differs(u, v, {}, {}, {bid})
  {
    RecycleKeeps(u.bufs, bid);
    hide Bufs.Ok, IsArm;
  }
}
