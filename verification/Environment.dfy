/** The system calls, each preceded by whatever peers choose to do. */
module Environment {
  import opened Bytes
  import opened Http
  import opened Kernel

  /** Only `fd` was served between `k` and `l`; peers may have acted on any socket meanwhile. */
  ghost predicate OnlyServed(k: Kernel, l: Kernel, fd: Fd) {
    && l.socks.Keys == k.socks.Keys && l.interest == k.interest
    && l.listening == k.listening && l.backlog + l.clients == k.backlog + k.clients
    && (k.Ok() ==> l.Ok())
    && (forall g :: g in k.socks && g != fd ==>
          l.socks[g].taken == k.socks[g].taken && l.socks[g].out == k.socks[g].out)
    && (forall g :: g != fd && k.Covered(g) ==> l.Covered(g))
    && (forall g :: k.BreakNoticed(g) ==> l.BreakNoticed(g))
  }

  lemma PeersThenIo(k: Kernel, m: Kernel, fd: Fd, s: Sock)
    requires PeersKeep(k, m) && fd in m.socks && s.broken == m.socks[fd].broken
    ensures OnlyServed(k, m.(socks := m.socks[fd := s]), fd)
  {
  }

  /**
   `log`: what read and write returned. `acceptErrors`, `callErrors`, `listenErrors`: how often accept, setting up
   or changing a connection, and registering the listener failed. `waits`: calls of epoll_wait,
   `interrupts` of them cut short; `collected`: the events they returned. `expired`: the descriptors whose deadline
   had passed when the clock was last read.
   */
  datatype Diary = Diary(
    log: seq<IoResult>,
    acceptErrors: nat,
    callErrors: nat,
    listenErrors: nat,
    waits: nat,
    interrupts: nat,
    collected: seq<EpollEvent>,
    expired: set<Fd>)

  predicate SameWaits(d: Diary, e: Diary) {
    e.waits == d.waits && e.interrupts == d.interrupts && e.collected == d.collected
  }

  class World {
    var k: Kernel
    // What the calls have returned, for the statements only; nothing else writes it.
    ghost var diary: Diary

    constructor (k0: Kernel)
      ensures k == k0
    {
      k := k0;
    }

    /** Peers act, any of them, any number of times. */
    method LetPeersAct()
      modifies this`k
      ensures PeersKeep(old(k), k)
    {
      var es: seq<Peer> := *;
      PeersAlwaysKeep(k, es);
      k := Peers(k, es);
    }

    method Read(fd: Fd) returns (r: IoResult)
      requires fd in k.socks
      modifies this`k, this`diary
      ensures OnlyServed(old(k), k, fd)
      ensures diary == old(diary).(log := old(diary.log) + [r])
      ensures var s, t := old(k).socks[fd], k.socks[fd];
              && t.taken == s.taken + (if r.Got? then r.data else []) && t.out == s.out
              && t.Unread() == s.Unread() - (if r.Got? then |r.data| else 0)
              && match r
                 case Got(data) => 0 < |data| <= READ_CHUNK
                 case Eof => true
                 case WouldBlock => !t.Readable()
                 case Failure => t.broken
                 case Sent(_) => false
    {
      hide OnlyServed;
      LetPeersAct();
      var s := k.socks[fd];
      if s.inbox != [] { assert MayRead(s, Got(s.inbox[..1])); }
      else if s.fin { assert MayRead(s, Eof); }
      else if s.broken { assert MayRead(s, Failure); }
      else { assert MayRead(s, WouldBlock); }
      r :| MayRead(s, r);
      assert MayRead(s, r);
      diary := diary.(log := diary.log + [r]);
      PeersThenIo(old(k), k, fd, AfterRead(s, r));
      k := k.(socks := k.socks[fd := AfterRead(s, r)]);
    }

    method Write(fd: Fd, p: bytes) returns (r: IoResult)
      requires fd in k.socks && p != []
      modifies this`k, this`diary
      ensures OnlyServed(old(k), k, fd)
      ensures diary == old(diary).(log := old(diary.log) + [r])
      ensures var s, t := old(k).socks[fd], k.socks[fd];
              && (r.Sent? ==> r.n <= |p|)
              && t.out == s.out + (if r.Sent? then p[..r.n] else []) && t.taken == s.taken
              && t.Unread() == s.Unread()
              && match r
                 case Sent(n) => (n < |p| ==> t.room == 0) && (n == 0 ==> t.broken)
                 case WouldBlock => !t.Writable()
                 case Failure => t.broken
                 case _ => false
    {
      hide OnlyServed;
      LetPeersAct();
      var s := k.socks[fd];
      if s.broken { assert MayWrite(s, p, Failure); }
      else if s.room == 0 { assert MayWrite(s, p, WouldBlock); }
      else { assert MayWrite(s, p, Sent(if |p| < s.room then |p| else s.room)); }
      r :| MayWrite(s, p, r);
      assert MayWrite(s, p, r);
      diary := diary.(log := diary.log + [r]);
      PeersThenIo(old(k), k, fd, AfterWrite(s, p, r));
      k := k.(socks := k.socks[fd := AfterWrite(s, p, r)]);
    }

    // In the calls below `m` is the kernel just before the call, after whatever peers did.

    /** EPOLL_CTL_ADD or EPOLL_CTL_MOD; either may fail. */
    method Control(fd: Fd, i: Interest) returns (ok: bool, ghost m: Kernel)
      requires fd in k.socks
      modifies this`k, this`diary
      ensures PeersKeep(old(k), m) && (ok ==> k == Register(m, fd, i)) && (!ok ==> k == m)
      ensures k.backlog + k.clients == old(k.backlog + k.clients)
      ensures diary == old(diary).(callErrors := old(diary.callErrors) + if ok then 0 else 1)
    {
      LetPeersAct();
      m := k;
      ok := *;
      if ok { k := Register(k, fd, i); } else { diary := diary.(callErrors := diary.callErrors + 1); }
    }

    /** fcntl(O_NONBLOCK), which may fail. */
    method SetNonblocking(fd: Fd) returns (ok: bool)
      modifies this`diary
      ensures diary == old(diary).(callErrors := old(diary.callErrors) + if ok then 0 else 1)
    {
      ok := *;
      if !ok { diary := diary.(callErrors := diary.callErrors + 1); }
    }

    /** epoll_wait: some of the pending edges, in some order; none when it is interrupted. */
    method Wait() returns (interrupted: bool, batch: seq<EpollEvent>, ghost m: Kernel)
      modifies this`k, this`diary
      ensures PeersKeep(old(k), m)
      ensures if interrupted then k == m && batch == [] else MayCollect(m, batch) && k == AfterCollect(m, batch)
      ensures diary == old(diary).(waits := old(diary.waits) + 1, collected := old(diary.collected) + batch,
                                   interrupts := old(diary.interrupts) + if interrupted then 1 else 0)
    {
      LetPeersAct();
      m := k;
      interrupted := *;
      batch := [];
      if !interrupted {
        assert MayCollect(k, []);
        batch :| MayCollect(k, batch);
        assert MayCollect(k, batch);
        k := AfterCollect(k, batch);
      }
      diary := diary.(waits := diary.waits + 1, collected := diary.collected + batch,
                      interrupts := diary.interrupts + if interrupted then 1 else 0);
    }

    /** The clock is read: some deadlines have passed by now. */
    method Expired() returns (fds: set<Fd>)
      modifies this`diary
      ensures diary == old(diary).(expired := fds)
    {
      fds := *;
      diary := diary.(expired := fds);
    }

    /** EPOLL_CTL_DEL and close. */
    method CloseFd(fd: Fd) returns (ghost m: Kernel)
      modifies this`k
      ensures PeersKeep(old(k), m) && k == CloseSock(m, fd)
      ensures k.backlog + k.clients == old(k.backlog + k.clients)
    {
      LetPeersAct();
      m := k;
      k := CloseSock(k, fd);
    }

    /** accept4: a descriptor that is not open, for a peer that may have sent something already. */
    method Accept() returns (r: Accepted, ghost m: Kernel)
      modifies this`k, this`diary
      ensures PeersKeep(old(k), m)
      ensures match r
              case Client(fd) =>
                && fd !in m.socks && m.backlog > 0 && fd in k.socks
                && k.socks[fd].taken == [] && k.socks[fd].out == []
                && k == m.(socks := m.socks[fd := k.socks[fd]], backlog := m.backlog - 1)
              case NoClient => k == m && m.backlog == 0
              case AcceptFailed => k == m
      ensures k.backlog + k.clients == old(k.backlog + k.clients) - if r.Client? then 1 else 0
      ensures diary == old(diary).(acceptErrors := old(diary.acceptErrors) + if r.AcceptFailed? then 1 else 0)
    {
      LetPeersAct();
      m := k;
      if k.backlog == 0 { return NoClient, m; }
      var fails: bool := *;
      if fails {
        diary := diary.(acceptErrors := diary.acceptErrors + 1);
        return AcceptFailed, m;
      }
      SomeFreshFd(k.socks.Keys);
      var fd: Fd :| fd !in k.socks.Keys;
      var s: Sock := *;
      k := k.(socks := k.socks[fd := s.(taken := [], out := [])], backlog := k.backlog - 1);
      r := Client(fd);
    }

    /** Register or deregister the listener; only registering may fail. */
    method Listen(on: bool) returns (ok: bool, ghost m: Kernel)
      modifies this`k, this`diary
      ensures PeersKeep(old(k), m) && (!on ==> ok)
      ensures k == if ok then m.(listening := on, listenerReady := on && (m.listenerReady || m.backlog > 0)) else m
      ensures diary == old(diary).(listenErrors := old(diary.listenErrors) + if ok then 0 else 1)
    {
      LetPeersAct();
      m := k;
      ok := *;
      if !on { ok := true; }
      if ok { k := k.(listening := on, listenerReady := on && (k.listenerReady || k.backlog > 0)); }
      else { diary := diary.(listenErrors := diary.listenErrors + 1); }
    }
  }

  datatype Accepted = Client(fd: Fd) | NoClient | AcceptFailed

  lemma {:induction false} SomeFreshFd(s: set<Fd>)
    ensures exists fd: Fd :: fd !in s
  {
    var top := FdAbove(s);
  }

  lemma {:induction false} FdAbove(s: set<Fd>) returns (top: Fd)
    ensures forall fd :: fd in s ==> fd < top
    ensures top !in s
    decreases |s|
  {
    if s == {} {
      top := 0;
    } else {
      var x :| x in s;
      var t := FdAbove(s - {x});
      top := if x < t then t else x + 1;
      forall fd | fd in s ensures fd < top { if fd != x { assert fd in s - {x}; } }
    }
  }
}
