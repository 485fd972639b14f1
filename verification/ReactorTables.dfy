/** The reactor's tables, and what each system call leaves true of them. */
module ReactorTables {
  import opened Bytes
  import opened Http
  import opened Connections
  import opened Refinement
  import opened Kernel
  import opened Environment
  import opened EventIo

  // ---- the tables ----

  /**
   The kernel and the reactor's own tables. `generation` tells apart connections that used the same
   descriptor: each gets the number of connections accepted before it.
   */
  datatype Tables = Tables(
    k: Kernel,
    conns: map<Fd, Run>,
    wants: map<Fd, Interest>,
    listenerRegistered: bool,
    generation: map<Fd, nat>,
    accepted: nat)

  function InterestOf(c: Conn): Interest
    requires c.Ok()
  {
    if c.Pending() == [] then ReadInterest else WriteInterest
  }

  /** One connection, its socket and its registration agree. */
  ghost predicate SlotOk(app: App, k: Kernel, fd: Fd, s: Run) {
    && Inv(app, s) && s.conn.phase != Closed
    && fd in k.socks && s.fed == k.socks[fd].taken && s.sent == k.socks[fd].out
    && fd in k.interest && k.interest[fd] == InterestOf(s.conn)
  }

  /** Keys coincide and the cap is kept; descriptors in `extra` are open but in no table. */
  ghost predicate Keyed(cap: nat, t: Tables, extra: set<Fd>) {
    && t.k.Ok()
    && t.conns.Keys == t.wants.Keys == t.k.interest.Keys == t.generation.Keys
    && t.conns.Keys !! extra && t.k.socks.Keys == t.conns.Keys + extra
    && t.wants == t.k.interest
    && |t.conns| <= cap
    && t.k.listening == t.listenerRegistered
    && (forall fd :: fd in t.generation ==> t.generation[fd] < t.accepted)
  }

  ghost predicate SlotsOk(app: App, t: Tables, x: set<Fd>) {
    forall fd {:trigger SlotOk(app, t.k, fd, t.conns[fd])} :: fd in t.conns && fd !in x ==> SlotOk(app, t.k, fd, t.conns[fd])
  }

  /** Interests and histories agree and no connection is closed, but for the slots in `x`. */
  ghost predicate InOrder(app: App, cap: nat, t: Tables, x: set<Fd>, extra: set<Fd>) {
    Keyed(cap, t, extra) && SlotsOk(app, t, x)
  }

  /** At every loop head: the tables agree and no wakeup is lost. */
  ghost predicate AtRest(app: App, cap: nat, t: Tables) {
    InOrder(app, cap, t, {}, {}) && CoveredExcept(t.k, {})
  }

  // ---- what each system call leaves true ----

  lemma PeersLeave(app: App, cap: nat, t: Tables, m: Kernel, x: set<Fd>, extra: set<Fd>)
    requires InOrder(app, cap, t, x, extra) && PeersKeep(t.k, m)
    ensures InOrder(app, cap, t.(k := m), x, extra)
  {
    hide Inv, Kernel.Covered, Kernel.BreakNoticed;
    forall g | g in t.conns && g !in x ensures SlotOk(app, m, g, t.conns[g]) {
      assert SlotOk(app, t.k, g, t.conns[g]);
    }
  }

  lemma ServingLeaves(app: App, cap: nat, t: Tables, l: Kernel, fd: Fd, s: Run)
    requires InOrder(app, cap, t, {}, {}) && OnlyServed(t.k, l, fd) && fd in t.conns
    ensures InOrder(app, cap, t.(k := l, conns := t.conns[fd := s]), {fd}, {})
  {
    hide Inv, Kernel.Covered, Kernel.BreakNoticed;
    assert Keyed(cap, t.(k := l, conns := t.conns[fd := s]), {}) by { ServingKeyed(cap, t, l, fd, s); }
    hide Keyed, Kernel.Ok;
    forall g | g in t.conns && g != fd ensures SlotOk(app, l, g, t.conns[g]) {
      assert SlotOk(app, t.k, g, t.conns[g]);
    }
  }

  lemma ServingKeyed(cap: nat, t: Tables, l: Kernel, fd: Fd, s: Run)
    requires Keyed(cap, t, {}) && OnlyServed(t.k, l, fd) && fd in t.conns
    ensures Keyed(cap, t.(k := l, conns := t.conns[fd := s]), {})
  {
    hide Kernel.Covered, Kernel.BreakNoticed;
    SameSize(t.conns, fd, s);
    assert t.conns[fd := s].Keys == t.conns.Keys;
  }

  /** A slot depends on its own socket and registration only. */
  lemma SlotFrame(app: App, k: Kernel, l: Kernel, fd: Fd, s: Run)
    requires SlotOk(app, k, fd, s)
    requires fd in l.socks && l.socks[fd] == k.socks[fd] && fd in l.interest && l.interest[fd] == k.interest[fd]
    ensures SlotOk(app, l, fd, s)
  {
    hide Inv;
  }

  function Without(t: Tables, fd: Fd): Tables {
    t.(k := CloseSock(t.k, fd), conns := t.conns - {fd}, wants := t.wants - {fd}, generation := t.generation - {fd})
  }

  lemma ClosingLeaves(app: App, cap: nat, t: Tables, fd: Fd)
    requires InOrder(app, cap, t, {fd}, {})
    ensures InOrder(app, cap, Without(t, fd), {}, {})
  {
    hide SlotOk;
    var u := Without(t, fd);
    WithoutKeyed(cap, t, fd);
    forall g | g in u.conns ensures SlotOk(app, u.k, g, u.conns[g]) {
      assert SlotOk(app, t.k, g, t.conns[g]);
      SlotFrame(app, t.k, u.k, g, t.conns[g]);
    }
  }

  lemma WithoutKeyed(cap: nat, t: Tables, fd: Fd)
    requires Keyed(cap, t, {})
    ensures Keyed(cap, Without(t, fd), {})
  {
    SameSize(t.conns, fd, START);
    var u := Without(t, fd);
    assert u.conns.Keys == t.conns.Keys - {fd} && u.k.socks.Keys == t.k.socks.Keys - {fd};
    assert u.k.interest.Keys == t.k.interest.Keys - {fd};
  }

  lemma ForgettingLeaves(app: App, cap: nat, t: Tables, fd: Fd)
    requires InOrder(app, cap, t, {}, {fd})
    ensures InOrder(app, cap, t.(k := CloseSock(t.k, fd)), {}, {})
  {
    hide SlotOk;
    ForgettingKeyed(cap, t, fd);
    var l := CloseSock(t.k, fd);
    forall g | g in t.conns ensures SlotOk(app, l, g, t.conns[g]) {
      assert SlotOk(app, t.k, g, t.conns[g]);
      SlotFrame(app, t.k, l, g, t.conns[g]);
    }
  }

  lemma ForgettingKeyed(cap: nat, t: Tables, fd: Fd)
    requires Keyed(cap, t, {fd})
    ensures Keyed(cap, t.(k := CloseSock(t.k, fd)), {})
  {
    var l := CloseSock(t.k, fd);
    assert l.socks.Keys == t.k.socks.Keys - {fd} && l.interest == t.k.interest;
  }

  lemma AcceptingLeaves(app: App, cap: nat, t: Tables, l: Kernel, fd: Fd)
    requires InOrder(app, cap, t, {}, {}) && fd !in t.k.socks && fd in l.socks
    requires l == t.k.(socks := t.k.socks[fd := l.socks[fd]], backlog := l.backlog)
    ensures InOrder(app, cap, t.(k := l), {}, {fd})
  {
    hide SlotOk;
    forall g | g in t.conns ensures SlotOk(app, l, g, t.conns[g]) {
      assert SlotOk(app, t.k, g, t.conns[g]);
      SlotFrame(app, t.k, l, g, t.conns[g]);
    }
    assert l.socks.Keys == t.k.socks.Keys + {fd};
  }

  function WithNew(t: Tables, fd: Fd): Tables {
    t.(k := Register(t.k, fd, ReadInterest), conns := t.conns[fd := START], wants := t.wants[fd := ReadInterest],
       generation := t.generation[fd := t.accepted], accepted := t.accepted + 1)
  }

  lemma AddingLeaves(app: App, cap: nat, t: Tables, fd: Fd)
    requires InOrder(app, cap, t, {}, {fd}) && |t.conns| < cap
    requires fd in t.k.socks && t.k.socks[fd].taken == [] && t.k.socks[fd].out == []
    ensures InOrder(app, cap, WithNew(t, fd), {}, {})
  {
    hide SlotOk, Register;
    var u := WithNew(t, fd);
    RegisterFrame(t.k, fd, ReadInterest);
    WithNewKeyed(cap, t, fd);
    forall g | g in u.conns ensures SlotOk(app, u.k, g, u.conns[g]) {
      if g == fd { NewSlot(app, u.k, fd); }
      else { assert SlotOk(app, t.k, g, t.conns[g]); SlotFrame(app, t.k, u.k, g, t.conns[g]); }
    }
  }

  lemma RegisterFrame(k: Kernel, fd: Fd, i: Interest)
    ensures var l := Register(k, fd, i);
            l.socks == k.socks && l.interest == k.interest[fd := i] && l.listening == k.listening
            && (k.Ok() && fd in k.socks ==> l.Ok())
  {
  }

  lemma WithNewKeyed(cap: nat, t: Tables, fd: Fd)
    requires Keyed(cap, t, {fd}) && |t.conns| < cap && fd in t.k.socks
    ensures Keyed(cap, WithNew(t, fd), {})
  {
    hide Register;
    RegisterFrame(t.k, fd, ReadInterest);
    SameSize(t.conns, fd, START);
    var u := WithNew(t, fd);
    assert u.conns.Keys == t.conns.Keys + {fd} && u.k.interest.Keys == t.k.interest.Keys + {fd};
  }

  lemma NewSlot(app: App, k: Kernel, fd: Fd)
    requires fd in k.socks && k.socks[fd].taken == [] && k.socks[fd].out == []
    requires fd in k.interest && k.interest[fd] == ReadInterest
    ensures SlotOk(app, k, fd, START)
  {
    StartInv(app);
  }

  lemma ModifyingLeaves(app: App, cap: nat, t: Tables, fd: Fd, i: Interest)
    requires InOrder(app, cap, t, {fd}, {}) && fd in t.conns
    requires SlotOk(app, t.k.(interest := t.k.interest[fd := i]), fd, t.conns[fd])
    ensures InOrder(app, cap, t.(k := Register(t.k, fd, i), wants := t.wants[fd := i]), {}, {})
  {
    hide SlotOk, Register;
    var l := Register(t.k, fd, i);
    RegisterFrame(t.k, fd, i);
    forall g | g in t.conns ensures SlotOk(app, l, g, t.conns[g]) {
      if g == fd { SlotFrame(app, t.k.(interest := t.k.interest[fd := i]), l, fd, t.conns[fd]); }
      else { assert SlotOk(app, t.k, g, t.conns[g]); SlotFrame(app, t.k, l, g, t.conns[g]); }
    }
    assert l.interest.Keys == t.k.interest.Keys;
  }

  /** What drive_io found when it stopped is what the interest chosen from its action is about. */
  ghost predicate Stopped(app: App, k: Kernel, fd: Fd, s: Run, i: Interest) {
    && Inv(app, s) && s.conn.phase != Closed && i == InterestOf(s.conn)
    && fd in k.socks && s.fed == k.socks[fd].taken && s.sent == k.socks[fd].out
    && (i == ReadInterest ==> !k.socks[fd].Readable())
    && (i == WriteInterest ==> k.socks[fd].room == 0)
  }

  /** Keeping the interest needs no second look: what it waits for is not there, and an error is noticed. */
  lemma StayingLeaves(app: App, cap: nat, t: Tables, fd: Fd, due: set<Fd>)
    requires InOrder(app, cap, t, {fd}, {}) && CoveredExcept(t.k, due + {fd}) && fd in t.conns
    requires Stopped(app, t.k, fd, t.conns[fd], t.wants[fd]) && t.k.BreakNoticed(fd)
    ensures InOrder(app, cap, t, {}, {}) && CoveredExcept(t.k, due - {fd})
  {
    hide Inv;
    forall g | g !in due - {fd} ensures t.k.Covered(g) {
      if g != fd { assert g !in due + {fd}; }
    }
  }

  lemma Stopping(app: App, k: Kernel, fd: Fd, s: Run, action: ConnAction)
    requires Inv(app, s) && s.conn.phase != Closed && s.conn.Ok() && action == Start(s.conn)
    requires fd in k.socks && s.fed == k.socks[fd].taken && s.sent == k.socks[fd].out
    requires action == WantRead ==> !k.socks[fd].Readable()
    requires action == WantWrite ==> k.socks[fd].room == 0
    ensures Stopped(app, k, fd, s, if action == WantRead then ReadInterest else WriteInterest)
  {
    hide Inv;
  }

  lemma StoppedFits(app: App, k: Kernel, m: Kernel, fd: Fd, s: Run, i: Interest)
    requires Stopped(app, k, fd, s, i) && PeersKeep(k, m)
    ensures SlotOk(app, m.(interest := m.interest[fd := i]), fd, s)
  {
    hide Inv;
  }

  lemma ListeningLeaves(app: App, cap: nat, t: Tables, l: Kernel)
    requires AtRest(app, cap, t)
    requires l == t.k.(listening := l.listening, listenerReady := l.listenerReady)
    ensures AtRest(app, cap, t.(k := l, listenerRegistered := l.listening))
  {
    hide SlotOk;
    forall g | g in t.conns ensures SlotOk(app, l, g, t.conns[g]) {
      assert SlotOk(app, t.k, g, t.conns[g]);
      SlotFrame(app, t.k, l, g, t.conns[g]);
    }
    forall g ensures l.Covered(g) { assert t.k.Covered(g); }
  }

  // ---- one event leaves the others alone ----

  /** Connections other than those in `but` are the same ones, in the same state, with errors still noticed. */
  ghost predicate Kept(t: Tables, u: Tables, but: set<Fd>) {
    && t.accepted <= u.accepted && KeepsNoticed(t.k, u.k, but)
    && (forall g :: g in t.generation && g !in but ==> g in u.generation && u.generation[g] == t.generation[g])
    && (forall g :: g in t.conns && g !in but ==> g in u.conns && u.conns[g] == t.conns[g])
  }

  lemma KeptAgain(t: Tables, u: Tables, v: Tables, but: set<Fd>)
    requires Kept(t, u, but) && Kept(u, v, but)
    ensures Kept(t, v, but)
  {
    hide Kernel.BreakNoticed;
  }

  lemma KeptWeaker(t: Tables, u: Tables, but: set<Fd>, more: set<Fd>)
    requires Kept(t, u, but) && but <= more
    ensures Kept(t, u, more)
  {
    hide Kernel.BreakNoticed;
  }

  /** Connections were added and nothing else: each starts afresh, numbered after all before it. */
  ghost predicate Welcomed(t: Tables, u: Tables) {
    Kept(t, u, {}) && forall g :: g in u.conns && g !in t.conns ==>
                        u.conns[g] == START && g in u.generation && t.accepted <= u.generation[g]
  }

  lemma WelcomedAgain(t: Tables, u: Tables, v: Tables)
    requires Welcomed(t, u) && Welcomed(u, v)
    ensures Welcomed(t, v)
  {
    hide KeepsNoticed;
    KeptAgain(t, u, v, {});
  }

  /** The rest of a batch: each event is for the connection that held the descriptor when it was collected. */
  ghost predicate Fresh(t: Tables, tickets: map<Fd, nat>, rest: seq<EpollEvent>) {
    DistinctFds(rest) && forall i :: 0 <= i < |rest| ==> FreshEvent(t, tickets, rest[i])
  }

  ghost predicate FreshEvent(t: Tables, tickets: map<Fd, nat>, e: EpollEvent) {
    e.ConnEvent? ==>
      && e.fd in t.generation && e.fd in tickets && t.generation[e.fd] == tickets[e.fd]
      && (e.error || ((e.readable || e.writable) && t.k.BreakNoticed(e.fd)))
  }

  /** Serving one event keeps the rest fresh, although the descriptor it closes may be accepted again. */
  lemma StaysFresh(t: Tables, u: Tables, tickets: map<Fd, nat>, rest: seq<EpollEvent>, but: set<Fd>)
    requires Fresh(t, tickets, rest) && Kept(t, u, but) && Collected(rest) !! but
    ensures Fresh(u, tickets, rest)
  {
    hide Kernel.BreakNoticed;
    forall i | 0 <= i < |rest| ensures FreshEvent(u, tickets, rest[i]) {
      assert FreshEvent(t, tickets, rest[i]);
      if rest[i].ConnEvent? { assert rest[i].fd in Collected(rest); }
    }
  }

  lemma FreshRest(t: Tables, tickets: map<Fd, nat>, batch: seq<EpollEvent>)
    requires Fresh(t, tickets, batch) && batch != []
    ensures Fresh(t, tickets, batch[1..]) && FreshEvent(t, tickets, batch[0])
    ensures var ours := if batch[0].ConnEvent? then {batch[0].fd} else {};
            Collected(batch) == Collected(batch[1..]) + ours && Collected(batch[1..]) !! ours
  {
    hide FreshEvent;
    var rest := batch[1..];
    forall i | 0 <= i < |rest| ensures FreshEvent(t, tickets, rest[i]) { assert rest[i] == batch[i + 1]; }
    forall fd ensures fd in Collected(batch) <==> fd in Collected(rest) || (batch[0].ConnEvent? && fd == batch[0].fd) {
      if fd in Collected(batch) {
        var i :| 0 <= i < |batch| && batch[i].ConnEvent? && batch[i].fd == fd;
        if i > 0 { assert rest[i - 1] == batch[i]; }
      }
      if fd in Collected(rest) {
        var i :| 0 <= i < |rest| && rest[i].ConnEvent? && rest[i].fd == fd;
        assert batch[i + 1] == rest[i];
      }
    }
  }

  /** Collecting a batch uncovers only the descriptors in it, and each event is for its connection. */
  lemma CollectingLeaves(app: App, cap: nat, t: Tables, batch: seq<EpollEvent>)
    requires AtRest(app, cap, t) && MayCollect(t.k, batch)
    ensures InOrder(app, cap, t.(k := AfterCollect(t.k, batch)), {}, {})
    ensures CoveredExcept(AfterCollect(t.k, batch), Collected(batch))
    ensures Fresh(t.(k := AfterCollect(t.k, batch)), t.generation, batch)
  {
    hide SlotOk;
    var l := AfterCollect(t.k, batch);
    forall g | g in t.conns ensures SlotOk(app, l, g, t.conns[g]) {
      assert SlotOk(app, t.k, g, t.conns[g]);
      SlotFrame(app, t.k, l, g, t.conns[g]);
    }
    forall g | g !in Collected(batch) ensures l.Covered(g) { assert t.k.Covered(g); }
    forall i | 0 <= i < |batch| ensures FreshEvent(t.(k := l), t.generation, batch[i]) {
      assert Reports(t.k, batch[i]);
    }
  }

  // ---- one system call of the loop, after whatever peers did ----

  lemma PeersActed(app: App, cap: nat, t: Tables, m: Kernel, x: set<Fd>, extra: set<Fd>, due: set<Fd>)
    requires InOrder(app, cap, t, x, extra) && CoveredExcept(t.k, due) && PeersKeep(t.k, m)
    ensures InOrder(app, cap, t.(k := m), x, extra) && CoveredExcept(m, due) && Kept(t, t.(k := m), {})
  {
    hide InOrder, CoveredExcept, PeersKeep, KeepsNoticed;
    PeersLeave(app, cap, t, m, x, extra);
    PeersCover(t.k, m, due);
  }

  lemma CloseKeeps(t: Tables, fd: Fd)
    ensures KeepsNoticed(t.k, CloseSock(t.k, fd), {fd}) ==> Kept(t, Without(t, fd), {fd})
  {
    hide KeepsNoticed;
  }

  lemma Dropping(app: App, cap: nat, t: Tables, m: Kernel, fd: Fd, due: set<Fd>)
    requires InOrder(app, cap, t, {fd}, {}) && CoveredExcept(t.k, due + {fd}) && PeersKeep(t.k, m)
    ensures var u := Without(t.(k := m), fd);
            InOrder(app, cap, u, {}, {}) && CoveredExcept(u.k, due - {fd}) && Kept(t, u, {fd})
  {
    hide InOrder, CoveredExcept, PeersKeep, KeepsNoticed, Kept, CloseSock;
    PeersActed(app, cap, t, m, {fd}, {}, due + {fd});
    ClosingLeaves(app, cap, t.(k := m), fd);
    CloseCovers(m, fd, due);
    CloseKeeps(t.(k := m), fd);
    KeptWeaker(t, t.(k := m), {}, {fd});
    KeptAgain(t, t.(k := m), Without(t.(k := m), fd), {fd});
  }

  lemma Forgetting(app: App, cap: nat, t: Tables, m: Kernel, fd: Fd, due: set<Fd>)
    requires InOrder(app, cap, t, {}, {fd}) && CoveredExcept(t.k, due) && PeersKeep(t.k, m)
    ensures var u := t.(k := CloseSock(m, fd));
            InOrder(app, cap, u, {}, {}) && CoveredExcept(u.k, due) && Kept(t, u, {})
  {
    assert fd !in m.interest by { hide PeersKeep, SlotsOk; PeersLeave(app, cap, t, m, {}, {fd}); }
    hide InOrder, CoveredExcept, PeersKeep, KeepsNoticed, Kept, CloseSock;
    PeersActed(app, cap, t, m, {}, {fd}, due);
    ForgettingLeaves(app, cap, t.(k := m), fd);
    CoverMore(m, due, due + {fd});
    CloseCovers(m, fd, due);
    CoverMore(CloseSock(m, fd), due - {fd}, due);
    SameTables(t.(k := m), CloseSock(m, fd));
    KeptAgain(t, t.(k := m), t.(k := CloseSock(m, fd)), {});
  }

  lemma SameTables(t: Tables, l: Kernel)
    requires KeepsNoticed(t.k, l, {})
    ensures Kept(t, t.(k := l), {})
  {
    hide KeepsNoticed;
  }

  lemma CoverMore(k: Kernel, due: set<Fd>, more: set<Fd>)
    requires CoveredExcept(k, due) && due <= more
    ensures CoveredExcept(k, more)
  {
    hide Kernel.Covered;
  }

  lemma Accepting(app: App, cap: nat, t: Tables, m: Kernel, l: Kernel, fd: Fd, due: set<Fd>)
    requires InOrder(app, cap, t, {}, {}) && CoveredExcept(t.k, due) && PeersKeep(t.k, m)
    requires fd !in m.socks && fd in l.socks
    requires l == m.(socks := m.socks[fd := l.socks[fd]], backlog := l.backlog)
    ensures var u := t.(k := l);
            InOrder(app, cap, u, {}, {fd}) && CoveredExcept(l, due) && Kept(t, u, {})
  {
    assert fd !in m.interest by { hide PeersKeep, SlotsOk; PeersLeave(app, cap, t, m, {}, {}); }
    hide InOrder, CoveredExcept, PeersKeep, KeepsNoticed, Kept;
    PeersActed(app, cap, t, m, {}, {}, due);
    AcceptingLeaves(app, cap, t.(k := m), l, fd);
    AcceptCovers(m, l, fd, due);
    SameTables(t.(k := m), l);
    KeptAgain(t, t.(k := m), t.(k := l), {});
  }

  lemma Adding(app: App, cap: nat, t: Tables, m: Kernel, u: Tables, fd: Fd, due: set<Fd>)
    requires u == WithNew(t.(k := m), fd)
    requires InOrder(app, cap, t, {}, {fd}) && |t.conns| < cap && CoveredExcept(t.k, due) && PeersKeep(t.k, m)
    requires fd in t.k.socks && t.k.socks[fd].taken == [] && t.k.socks[fd].out == []
    ensures InOrder(app, cap, u, {}, {}) && CoveredExcept(u.k, due) && Welcomed(t, u)
  {
    hide InOrder, CoveredExcept, PeersKeep, KeepsNoticed, Register, Kept, Welcomed, WithNew;
    StillUnused(t.k, m, fd);
    PeersActed(app, cap, t, m, {}, {fd}, due);
    AddingLeaves(app, cap, t.(k := m), fd);
    CoverMore(m, due, due + {fd});
    RegisterCovers(m, fd, ReadInterest, due);
    CoverMore(Register(m, fd, ReadInterest), due - {fd}, due);
    WelcomedNew(app, cap, t.(k := m), fd);
    assert u.k == Register(m, fd, ReadInterest) by { NewKernel(t.(k := m), fd); }
    WelcomedAfter(t, m, u);
  }

  lemma StillUnused(k: Kernel, m: Kernel, fd: Fd)
    requires PeersKeep(k, m) && fd in k.socks && k.socks[fd].taken == [] && k.socks[fd].out == []
    ensures fd in m.socks && m.socks[fd].taken == [] && m.socks[fd].out == []
  {
  }

  lemma NewKernel(t: Tables, fd: Fd)
    ensures WithNew(t, fd).k == Register(t.k, fd, ReadInterest)
  {
  }

  lemma WelcomedAfter(t: Tables, m: Kernel, u: Tables)
    requires Kept(t, t.(k := m), {}) && Welcomed(t.(k := m), u)
    ensures Welcomed(t, u)
  {
    hide Kept;
    KeptAgain(t, t.(k := m), u, {});
  }

  lemma WelcomedNew(app: App, cap: nat, t: Tables, fd: Fd)
    requires InOrder(app, cap, t, {}, {fd}) && KeepsNoticed(t.k, Register(t.k, fd, ReadInterest), {})
    ensures Welcomed(t, WithNew(t, fd))
  {
    hide KeepsNoticed, Register, SlotsOk;
  }

  lemma NoticedAgain(k: Kernel, l: Kernel, m: Kernel)
    requires KeepsNoticed(k, l, {}) && KeepsNoticed(l, m, {})
    ensures KeepsNoticed(k, m, {})
  {
    hide Kernel.BreakNoticed;
  }

  lemma Switching(app: App, cap: nat, t: Tables, m: Kernel, u: Tables, fd: Fd, i: Interest, due: set<Fd>)
    requires fd in t.conns && u == t.(k := Register(m, fd, i), wants := t.wants[fd := i])
    requires InOrder(app, cap, t, {fd}, {}) && CoveredExcept(t.k, due + {fd}) && PeersKeep(t.k, m)
    requires Stopped(app, t.k, fd, t.conns[fd], i)
    ensures InOrder(app, cap, u, {}, {}) && CoveredExcept(u.k, due - {fd}) && Kept(t, u, {})
  {
    hide InOrder, CoveredExcept, PeersKeep, KeepsNoticed, Register, SlotOk, Stopped;
    StoppedFits(app, t.k, m, fd, t.conns[fd], i);
    PeersActed(app, cap, t, m, {fd}, {}, due + {fd});
    ModifyingLeaves(app, cap, t.(k := m), fd, i);
    RegisterCovers(m, fd, i, due);
    NoticedAgain(t.k, m, Register(m, fd, i));
  }

  lemma Served(app: App, cap: nat, t: Tables, l: Kernel, fd: Fd, s: Run, due: set<Fd>)
    requires InOrder(app, cap, t, {}, {}) && CoveredExcept(t.k, due) && OnlyServed(t.k, l, fd) && fd in t.conns
    ensures var u := t.(k := l, conns := t.conns[fd := s]);
            InOrder(app, cap, u, {fd}, {}) && CoveredExcept(l, due + {fd}) && Kept(t, u, {fd})
    ensures t.k.BreakNoticed(fd) ==> l.BreakNoticed(fd)
  {
    hide InOrder, Kernel.Covered, Kernel.BreakNoticed;
    ServingLeaves(app, cap, t, l, fd, s);
    assert KeepsNoticed(t.k, l, {fd});
  }

  lemma KeptSelf(t: Tables)
    ensures Kept(t, t, {})
  {
    hide Kernel.BreakNoticed;
  }

  lemma Loosen(app: App, cap: nat, t: Tables, fd: Fd, due: set<Fd>)
    requires InOrder(app, cap, t, {}, {}) && CoveredExcept(t.k, due)
    ensures InOrder(app, cap, t, {fd}, {}) && CoveredExcept(t.k, due + {fd})
    ensures fd !in t.conns ==> CoveredExcept(t.k, due - {fd})
  {
    hide Kernel.Covered, SlotOk;
    if fd !in t.conns {
      assert t.k.Covered(fd) by { Unregistered(t.k, fd); }
    }
  }

  lemma Unregistered(k: Kernel, fd: Fd)
    requires fd !in k.interest
    ensures k.Covered(fd)
  {
  }

  lemma NothingCollected()
    ensures Collected([]) == {}
  {
  }

  lemma JustKept(t: Tables, l: Kernel)
    requires Kept(t, t.(k := l), {})
    ensures Welcomed(t, t.(k := l))
  {
  }

  lemma WelcomedNobody(t: Tables)
    ensures Welcomed(t, t)
  {
    KeptSelf(t);
  }

  lemma SlotReady(app: App, cap: nat, t: Tables, fd: Fd)
    requires InOrder(app, cap, t, {}, {}) && fd in t.conns
    ensures fd in t.k.socks && Inv(app, t.conns[fd]) && t.conns[fd].conn.Ok() && t.conns[fd].conn.phase != Closed
    ensures t.conns[fd].fed == t.k.socks[fd].taken && t.conns[fd].sent == t.k.socks[fd].out
    ensures fd in t.generation
  {
    hide Owed, Serve;
    assert SlotOk(app, t.k, fd, t.conns[fd]);
  }

  /** Changing registrations or dropping `fd` after it was driven. */
  ghost predicate Settled(t: Tables, u: Tables, fd: Fd) {
    && Kept(t, u, {fd}) && u.accepted == t.accepted
    && ((u.conns == t.conns && u.generation == t.generation) || u.conns == t.conns - {fd})
  }

  lemma SettledTo(t: Tables, u: Tables, v: Tables, fd: Fd)
    requires Kept(t, u, {}) && u.conns == t.conns && u.generation == t.generation && u.accepted == t.accepted
    requires u == v || (Kept(u, v, {fd}) && v.conns == t.conns - {fd} && v.accepted == t.accepted)
    ensures Settled(t, v, fd)
  {
    hide Kept;
    KeptWeaker(t, u, {}, {fd});
    if u != v { KeptAgain(t, u, v, {fd}); }
  }

  lemma StoppedOpen(app: App, k: Kernel, fd: Fd, s: Run, i: Interest)
    requires Stopped(app, k, fd, s, i)
    ensures fd in k.socks
  {
  }

  // ---- what an event comes to ----

  /** The tables together with what the calls have returned so far. */
  datatype Moment = Moment(t: Tables, d: Diary)
  {
    function Clients(): nat { t.k.backlog + t.k.clients }
  }

  /** A client taken off the backlog is in the table, or was closed because a call for it failed. */
  ghost predicate NobodyTurnedAway(a: Moment, b: Moment) {
    b.d.callErrors >= a.d.callErrors && a.Clients() + |a.t.conns| + a.d.callErrors == b.Clients() + |b.t.conns| + b.d.callErrors
  }

  /** What read and write returned between the two moments. */
  function Between(a: Moment, b: Moment): seq<IoResult>
    requires a.d.log <= b.d.log
  {
    b.d.log[|a.d.log|..]
  }

  /**
   The connection went through what read and write returned. It is gone only if that ended it, or left it
   closed, or a call for it failed.
   */
  ghost predicate DrivenBy(app: App, a: Moment, b: Moment, fd: Fd) {
    && Kept(a.t, b.t, {fd}) && b.t.conns.Keys <= a.t.conns.Keys && b.t.accepted == a.t.accepted
    && fd in a.t.conns && a.t.conns[fd].conn.Ok() && a.d.log <= b.d.log && Between(a, b) != []
    && var s := EdgeCall(app, a.t.conns[fd], Between(a, b)).0;
       if fd in b.t.conns then
         b.t.conns[fd] == s && fd in a.t.generation && fd in b.t.generation && b.t.generation[fd] == a.t.generation[fd]
       else
         s.conn.phase == Closed || Ends(Between(a, b)[|Between(a, b)| - 1]) || b.d.callErrors > a.d.callErrors
  }

  /** What has to have happened for an event to have been dealt with. */
  ghost predicate Applied(app: App, cap: nat, e: EpollEvent, a: Moment, b: Moment) {
    match e
    case ListenerEvent(readable) =>
      && Welcomed(a.t, b.t) && NobodyTurnedAway(a, b) && b.d.log == a.d.log
      && (readable ==> |b.t.conns| >= cap || b.t.k.backlog == 0 || b.d.acceptErrors > a.d.acceptErrors)
    case ConnEvent(fd, _, _, error) =>
      if error then b.t.conns == a.t.conns - {fd} && b.d == a.d else DrivenBy(app, a, b, fd)
  }

  ghost predicate AllApplied(app: App, cap: nat, batch: seq<EpollEvent>, ms: seq<Moment>) {
    |ms| == |batch| + 1 && forall i :: 0 <= i < |batch| ==> Applied(app, cap, batch[i], ms[i], ms[i + 1])
  }

  lemma OneMoreApplied(app: App, cap: nat, batch: seq<EpollEvent>, n: nat, ms: seq<Moment>, b: Moment)
    requires n < |batch| && AllApplied(app, cap, batch[..n], ms) && Applied(app, cap, batch[n], ms[n], b)
    ensures AllApplied(app, cap, batch[..n + 1], ms + [b])
  {
    hide Applied;
    forall i | 0 <= i < n + 1 ensures Applied(app, cap, batch[..n + 1][i], (ms + [b])[i], (ms + [b])[i + 1]) {
      if i < n { assert Applied(app, cap, batch[..n][i], ms[i], ms[i + 1]); }
    }
  }

  lemma CountedAgain(a: Moment, b: Moment, c: Moment)
    requires NobodyTurnedAway(a, b) && NobodyTurnedAway(b, c)
    ensures NobodyTurnedAway(a, c)
  {
  }

  lemma NobodyCame(a: Moment)
    ensures Welcomed(a.t, a.t) && NobodyTurnedAway(a, a)
  {
    WelcomedNobody(a.t);
  }

  lemma NothingApplied(app: App, cap: nat, a: Moment)
    ensures AllApplied(app, cap, [], [a])
  {
  }

  lemma WelcomedKept(t: Tables, u: Tables)
    requires Welcomed(t, u)
    ensures Kept(t, u, {})
  {
  }

  lemma DrivenKept(app: App, a: Moment, b: Moment, fd: Fd)
    requires DrivenBy(app, a, b, fd)
    ensures Kept(a.t, b.t, {fd})
  {
    hide Kept, EdgeCall;
  }

  lemma InTables(app: App, cap: nat, t: Tables, fd: Fd)
    requires InOrder(app, cap, t, {}, {}) && fd in t.generation
    ensures fd in t.conns
  {
  }

  lemma NotYetListed(app: App, cap: nat, t: Tables, fd: Fd)
    requires InOrder(app, cap, t, {}, {fd})
    ensures fd !in t.conns
  {
  }

  lemma SettledGone(t: Tables, u: Tables, fd: Fd)
    requires Kept(t, u, {fd}) && u.accepted == t.accepted && u.conns == t.conns - {fd}
    ensures Settled(t, u, fd)
  {
  }

  /** With the connections of `a` the listener is registered in `b` exactly if there is room, or registering it failed. */
  ghost predicate Announced(cap: nat, a: Moment, b: Moment) {
    && (b.t.listenerRegistered ==> |a.t.conns| < cap)
    && (|a.t.conns| < cap && !b.t.listenerRegistered ==> b.d.listenErrors > a.d.listenErrors)
  }

  lemma DrivenMeans(app: App, a: Moment, u: Tables, b: Moment, fd: Fd, trace: seq<IoResult>)
    requires fd in a.t.conns && fd in a.t.generation && a.t.conns[fd].conn.Ok() && trace != []
    requires u.conns == a.t.conns[fd := EdgeCall(app, a.t.conns[fd], trace).0]
    requires Kept(a.t, u, {fd}) && u.accepted == a.t.accepted && u.generation == a.t.generation
    requires Settled(u, b.t, fd) && b.d.log == a.d.log + trace
    requires fd !in b.t.conns ==>
               EdgeCall(app, a.t.conns[fd], trace).0.conn.phase == Closed || Ends(trace[|trace| - 1]) || b.d.callErrors > a.d.callErrors
    ensures DrivenBy(app, a, b, fd)
  {
    hide Kept, EdgeCall, Ends, Conn.Ok;
    assert (a.d.log + trace)[|a.d.log|..] == trace;
    KeptAgain(a.t, u, b.t, {fd});
  }

  // ---- what it all means ----

  /** Between events a client has been sent a prefix of what the sequential server answers to its bytes. */
  lemma ClientsSeeServe(app: App, cap: nat, t: Tables, fd: Fd)
    requires AtRest(app, cap, t) && fd in t.conns
    ensures fd in t.k.socks
    ensures var s, c := t.k.socks[fd], t.conns[fd].conn;
            c.Ok() && Serve(app, s.taken) == s.out + c.Pending() + Unanswered(app, t.conns[fd])
  {
    assert SlotOk(app, t.k, fd, t.conns[fd]);
    hide Serve, AtRest;
    InvMeansRefines(app, t.conns[fd]);
  }

  /**
   With no edge outstanding nothing can be done for any client: all that has arrived was read by a
   connection that has nothing left to write, or the reply waits for send space.
   */
  lemma SilenceMeansNothingToDo(app: App, cap: nat, t: Tables, fd: Fd)
    requires AtRest(app, cap, t) && fd in t.conns && fd !in t.k.ready
    ensures fd in t.k.socks && t.conns[fd].conn.Ok() && !t.k.socks[fd].broken
    ensures if t.conns[fd].conn.Pending() == [] then t.k.socks[fd].inbox == [] && !t.k.socks[fd].fin
            else t.k.socks[fd].room == 0
  {
    assert SlotOk(app, t.k, fd, t.conns[fd]) && t.k.Covered(fd);
    hide Serve;
  }
}
