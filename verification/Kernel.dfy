/**
 The kernel as the event loop sees it: sockets, readiness edges, and peers that act at any moment
 between two system calls. Every peer has a finite script of bytes still to come.
 */
module Kernel {
  import opened Bytes
  import opened Http

  type Fd = nat

  datatype Interest = ReadInterest | WriteInterest | ReadWriteInterest
  {
    predicate Reads() { !WriteInterest? }
    predicate Writes() { !ReadInterest? }

    /** Something it is registered for can be done; errors are reported whatever the interest. */
    predicate Due(s: Sock) {
      s.broken || (Reads() && s.Readable()) || (Writes() && s.Writable())
    }
  }

  /**
   `inbox` can be read now; `coming` has still to arrive; `room` is send-buffer space.
   `taken` and `out` record what the server has read from and written to the socket.
   */
  datatype Sock = Sock(inbox: bytes, coming: bytes, fin: bool, broken: bool, room: nat, taken: bytes, out: bytes)
  {
    predicate Readable() { inbox != [] || fin || broken }
    predicate Writable() { room > 0 || broken }
    function Unread(): nat { |inbox| + |coming| }
  }

  /** `ready`: descriptors with an edge not yet collected by epoll_wait. */
  datatype Kernel = Kernel(
    socks: map<Fd, Sock>,
    interest: map<Fd, Interest>,
    ready: set<Fd>,
    backlog: nat,
    clients: nat,
    listening: bool,
    listenerReady: bool)
  {
    predicate Ok() {
      interest.Keys <= socks.Keys && ready <= interest.Keys
    }

    predicate WantsService(fd: Fd) {
      fd in interest && fd in socks && interest[fd].Due(socks[fd])
    }

    /** No lost wakeup: a descriptor with something to do has an edge waiting for epoll_wait. */
    predicate Covered(fd: Fd) {
      WantsService(fd) ==> fd in ready
    }

    /** The same for errors only, which are noticed even while `fd` is being served. */
    predicate BreakNoticed(fd: Fd) {
      fd in interest && fd in socks && socks[fd].broken ==> fd in ready
    }
  }

  // ---- what peers do ----

  datatype Peer =
    | Arrive(fd: Fd, n: nat)
    | Finish(fd: Fd)
    | Drain(fd: Fd, n: nat)
    | Break(fd: Fd)
    | Connect

  /** Set `fd`'s socket and raise an edge if the change is one it is registered for. */
  function Change(k: Kernel, fd: Fd, s: Sock, edge: bool): Kernel {
    k.(socks := k.socks[fd := s], ready := if edge && fd in k.interest then k.ready + {fd} else k.ready)
  }

  function PeerStep(k: Kernel, e: Peer): Kernel {
    if e.Connect? then
      if k.clients == 0 then k
      else k.(clients := k.clients - 1, backlog := k.backlog + 1, listenerReady := k.listenerReady || k.listening)
    else if e.fd !in k.socks then k
    else
      var s := k.socks[e.fd];
      var onRead := e.fd in k.interest && k.interest[e.fd].Reads();
      var onWrite := e.fd in k.interest && k.interest[e.fd].Writes();
      match e
      case Arrive(fd, n) =>
        var m := if n < |s.coming| then n else |s.coming|;
        if m == 0 then k
        else Change(k, fd, s.(inbox := s.inbox + s.coming[..m], coming := s.coming[m..]), onRead)
      case Finish(fd) => if s.coming == [] then Change(k, fd, s.(fin := true), onRead) else k
      case Drain(fd, n) => if n == 0 then k else Change(k, fd, s.(room := s.room + n), onWrite)
      case Break(fd) => Change(k, fd, s.(broken := true), true)
  }

  function Peers(k: Kernel, es: seq<Peer>): Kernel
    decreases |es|
  {
    if es == [] then k else Peers(PeerStep(k, es[0]), es[1..])
  }

  /** What peers cannot change, and that they never uncover a descriptor. */
  ghost predicate PeersKeep(k: Kernel, l: Kernel) {
    && l.socks.Keys == k.socks.Keys && l.interest == k.interest && k.ready <= l.ready
    && l.listening == k.listening && l.backlog + l.clients == k.backlog + k.clients
    && (k.Ok() ==> l.Ok())
    && (forall fd :: fd in k.socks ==>
          && l.socks[fd].Unread() == k.socks[fd].Unread()
          && l.socks[fd].taken == k.socks[fd].taken && l.socks[fd].out == k.socks[fd].out)
    && (forall fd :: fd in k.socks ==> (k.socks[fd].broken ==> l.socks[fd].broken))
    && (forall fd :: k.Covered(fd) ==> l.Covered(fd))
    && (forall fd :: k.BreakNoticed(fd) ==> l.BreakNoticed(fd))
  }

  lemma ChangeKeeps(k: Kernel, fd: Fd, s: Sock, edge: bool)
    requires fd in k.socks
    requires s.Unread() == k.socks[fd].Unread() && s.taken == k.socks[fd].taken && s.out == k.socks[fd].out
    requires k.socks[fd].broken ==> s.broken
    requires s.broken && !k.socks[fd].broken ==> edge
    requires fd in k.interest && !edge ==> (k.interest[fd].Due(s) ==> k.interest[fd].Due(k.socks[fd]))
    ensures PeersKeep(k, Change(k, fd, s, edge))
  {
  }

  lemma PeerStepKeeps(k: Kernel, e: Peer)
    ensures PeersKeep(k, PeerStep(k, e))
  {
    hide PeersKeep, Change;
    KeepNothing(k);
    if e.Connect? {
      ConnectKeeps(k);
    } else if e.fd in k.socks {
      var s := k.socks[e.fd];
      var onRead := e.fd in k.interest && k.interest[e.fd].Reads();
      var onWrite := e.fd in k.interest && k.interest[e.fd].Writes();
      match e
      case Arrive(fd, n) =>
        var m := if n < |s.coming| then n else |s.coming|;
        if m > 0 { ChangeKeeps(k, fd, s.(inbox := s.inbox + s.coming[..m], coming := s.coming[m..]), onRead); }
      case Finish(fd) => if s.coming == [] { ChangeKeeps(k, fd, s.(fin := true), onRead); }
      case Drain(fd, n) => if n > 0 { ChangeKeeps(k, fd, s.(room := s.room + n), onWrite); }
      case Break(fd) => ChangeKeeps(k, fd, s.(broken := true), true);
    }
  }

  lemma ConnectKeeps(k: Kernel)
    ensures PeersKeep(k, PeerStep(k, Connect))
  {
  }

  lemma KeepNothing(k: Kernel)
    ensures PeersKeep(k, k)
  {
  }

  lemma {:induction false} PeersAlwaysKeep(k: Kernel, es: seq<Peer>)
    ensures PeersKeep(k, Peers(k, es))
    decreases |es|
  {
    hide PeerStep;
    if es != [] {
      var l := PeerStep(k, es[0]);
      PeerStepKeeps(k, es[0]);
      PeersAlwaysKeep(l, es[1..]);
    }
  }

  // ---- system calls ----

  datatype IoResult = Got(data: bytes) | Eof | Sent(n: nat) | WouldBlock | Failure

  /** Results `read` may give: up to a chunk of what is there, short reads included. */
  predicate MayRead(s: Sock, r: IoResult) {
    match r
    case Got(data) => 0 < |data| <= READ_CHUNK && data <= s.inbox
    case Eof => s.inbox == [] && s.fin
    case WouldBlock => s.inbox == [] && !s.fin && !s.broken
    case Failure => s.broken
    case Sent(_) => false
  }

  function AfterRead(s: Sock, r: IoResult): Sock {
    if r.Got? && r.data <= s.inbox then s.(inbox := s.inbox[|r.data|..], taken := s.taken + r.data) else s
  }

  /** Results `write` may give: a short write means that the send buffer is full. */
  predicate MayWrite(s: Sock, p: bytes, r: IoResult) {
    match r
    case Sent(n) => n <= |p| && n <= s.room && (n < |p| ==> n == s.room) && (n == 0 ==> s.broken)
    case WouldBlock => s.room == 0 && !s.broken
    case Failure => s.broken
    case _ => false
  }

  function AfterWrite(s: Sock, p: bytes, r: IoResult): Sock {
    if r.Sent? && r.n <= |p| && r.n <= s.room then s.(room := s.room - r.n, out := s.out + p[..r.n]) else s
  }

  /** EPOLL_CTL_ADD and EPOLL_CTL_MOD look at readiness again. */
  function Register(k: Kernel, fd: Fd, i: Interest): Kernel {
    var l := k.(interest := k.interest[fd := i]);
    if l.WantsService(fd) then l.(ready := l.ready + {fd}) else l
  }

  function CloseSock(k: Kernel, fd: Fd): Kernel {
    k.(socks := k.socks - {fd}, interest := k.interest - {fd}, ready := k.ready - {fd})
  }

  // ---- epoll_wait ----

  // epoll_wait collects at most this many events.
  const MAX_EVENTS: nat := 1024

  datatype EpollEvent =
    | ListenerEvent(readable: bool)
    | ConnEvent(fd: Fd, readable: bool, writable: bool, error: bool)

  /** The flags epoll_wait reports: readiness when the event is collected, under the registered interest. */
  predicate Reports(k: Kernel, e: EpollEvent) {
    match e
    case ListenerEvent(readable) => k.listenerReady && readable
    case ConnEvent(fd, readable, writable, error) =>
      && fd in k.ready && k.WantsService(fd)
      && (readable <==> k.interest[fd].Reads() && k.socks[fd].Readable())
      && (writable <==> k.interest[fd].Writes() && k.socks[fd].Writable())
      && (error <==> k.socks[fd].broken)
  }

  predicate MayCollect(k: Kernel, batch: seq<EpollEvent>) {
    |batch| <= MAX_EVENTS && DistinctFds(batch) && forall i :: 0 <= i < |batch| ==> Reports(k, batch[i])
  }

  function Collected(batch: seq<EpollEvent>): set<Fd> {
    set i | 0 <= i < |batch| && batch[i].ConnEvent? :: batch[i].fd
  }

  /** An edge is reported once: collected, or found to have nothing to report any more. */
  function AfterCollect(k: Kernel, batch: seq<EpollEvent>): Kernel {
    k.(listenerReady := false,
       ready := set fd | fd in k.ready && fd !in Collected(batch) && k.WantsService(fd))
  }

  predicate DistinctFds(batch: seq<EpollEvent>) {
    forall i, j :: 0 <= i < j < |batch| && batch[i].ConnEvent? && batch[j].ConnEvent? ==> batch[i].fd != batch[j].fd
  }

  lemma SameSize<V>(m: map<Fd, V>, fd: Fd, v: V)
    ensures |m[fd := v]| == if fd in m then |m| else |m| + 1
    ensures |m - {fd}| <= |m|
  {
    assert m[fd := v].Keys == m.Keys + {fd};
    assert (m - {fd}).Keys == m.Keys - {fd};
  }

  lemma RemoveOneMore<V>(m: map<Fd, V>, gone: set<Fd>, fd: Fd)
    ensures (m - gone) - {fd} == m - (gone + {fd})
  {
  }

  // ---- wakeups, call by call ----

  /** Every connection but those still to be served has an edge pending for whatever it waits for. */
  ghost predicate CoveredExcept(k: Kernel, due: set<Fd>) {
    forall fd {:trigger k.Covered(fd)} :: fd !in due ==> k.Covered(fd)
  }

  /** A socket error raised while `fd` waits in the batch or is served is not overlooked. */
  ghost predicate KeepsNoticed(k: Kernel, l: Kernel, but: set<Fd>) {
    forall fd {:trigger l.BreakNoticed(fd)} :: fd !in but && k.BreakNoticed(fd) ==> l.BreakNoticed(fd)
  }

  lemma PeersCover(k: Kernel, m: Kernel, due: set<Fd>)
    requires CoveredExcept(k, due) && PeersKeep(k, m)
    ensures CoveredExcept(m, due) && KeepsNoticed(k, m, {})
  {
    hide Kernel.Covered, Kernel.BreakNoticed;
  }

  lemma CloseCovers(k: Kernel, fd: Fd, due: set<Fd>)
    requires CoveredExcept(k, due + {fd})
    ensures CoveredExcept(CloseSock(k, fd), due - {fd}) && KeepsNoticed(k, CloseSock(k, fd), {fd})
    ensures fd !in k.interest ==> KeepsNoticed(k, CloseSock(k, fd), {})
  {
    forall g | g !in due - {fd} ensures CloseSock(k, fd).Covered(g) {
      if g != fd { assert k.Covered(g); }
    }
  }

  /** ADD and MOD look at readiness again, so they cannot lose a wakeup. */
  lemma RegisterCovers(k: Kernel, fd: Fd, i: Interest, due: set<Fd>)
    requires CoveredExcept(k, due + {fd})
    ensures CoveredExcept(Register(k, fd, i), due - {fd}) && KeepsNoticed(k, Register(k, fd, i), {})
  {
    forall g | g !in due - {fd} ensures Register(k, fd, i).Covered(g) {
      if g != fd { assert k.Covered(g); }
    }
  }

  lemma AcceptCovers(k: Kernel, l: Kernel, fd: Fd, due: set<Fd>)
    requires CoveredExcept(k, due) && fd !in k.interest && l.interest == k.interest && l.ready == k.ready
    requires fd !in k.socks && fd in l.socks && l.socks == k.socks[fd := l.socks[fd]]
    ensures CoveredExcept(l, due) && KeepsNoticed(k, l, {})
  {
    forall g | g !in due ensures l.Covered(g) { assert k.Covered(g); }
  }
}
