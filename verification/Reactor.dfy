/** The edge-triggered reactor loop over its tables. */
module Reactors {
  import opened Bytes
  import opened Http
  import opened Connections
  import opened Refinement
  import opened Kernel
  import opened Environment
  import opened EventIo
  import opened ReactorTables

  class Reactor {
    const w: World
    const app: App
    const maxConnections: nat
    var conns: map<Fd, Run>
    var wants: map<Fd, Interest>
    var listenerRegistered: bool
    ghost var generation: map<Fd, nat>
    ghost var accepted: nat

    ghost function T(): Tables
      reads this, w
    {
      Tables(w.k, conns, wants, listenerRegistered, generation, accepted)
    }

    ghost function M(): Moment
      reads this, w
    {
      Moment(T(), w.diary)
    }

    /** While a batch is served: the tables agree, and only descriptors in `due` may lack an edge. */
    ghost predicate Serving(due: set<Fd>)
      reads this, w
    {
      InOrder(app, maxConnections, T(), {}, {}) && CoveredExcept(w.k, due)
    }

    /** At the loop head a registered listener means there is room for the connections it announces. */
    ghost predicate Valid()
      reads this, w
    {
      AtRest(app, maxConnections, T()) && ListenerHasRoom()
    }

    ghost predicate ListenerHasRoom()
      reads this
    {
      listenerRegistered ==> |conns| < maxConnections || maxConnections == 0
    }

    constructor (w: World, app: App, maxConnections: nat)
      requires w.k.socks == map[] && w.k.interest == map[] && w.k.ready == {} && w.k.listening
      ensures Valid() && this.w == w && this.app == app && this.maxConnections == maxConnections
      ensures conns == map[] && listenerRegistered
    {
      this.w, this.app, this.maxConnections := w, app, maxConnections;
      conns, wants := map[], map[];
      listenerRegistered := true;
      generation, accepted := map[], 0;
    }

    /** Turn the loop until told to stop; `Valid` at every loop head. */
    method Run(turns: nat)
      requires Valid()
      modifies this, w`k, w`diary
      ensures Valid() && w.diary.waits == old(w.diary.waits) + turns
    {
      for i := 0 to turns
        invariant Valid() && w.diary.waits == old(w.diary.waits) + i
      {
        var _ := Turn();
      }
    }

    /**
     One epoll_wait; every event it returned is applied, then the listener is registered if and only if there is
     room or that failed, and exactly the connections whose deadline has passed go.
     */
    method Turn() returns (ghost ms: seq<Moment>)
      requires Valid()
      modifies this, w`k, w`diary
      ensures Valid() && w.diary.waits == old(w.diary.waits) + 1 && old(w.diary.collected) <= w.diary.collected
      ensures AllApplied(app, maxConnections, w.diary.collected[|old(w.diary.collected)|..], ms)
      ensures ms[0].t == old(T()).(k := ms[0].t.k)
      ensures ms[0].d == old(w.diary).(waits := w.diary.waits, collected := w.diary.collected, interrupts := w.diary.interrupts)
      ensures var end := ms[|ms| - 1];
              && w.diary == end.d.(listenErrors := w.diary.listenErrors, expired := w.diary.expired)
              && if w.diary.interrupts > old(w.diary.interrupts) then conns == end.t.conns && listenerRegistered == end.t.listenerRegistered
                 else conns == end.t.conns - w.diary.expired && Announced(maxConnections, end, M())
    {
      hide InOrder, CoveredExcept, Kernel.Covered, MayCollect, AfterCollect, Collected, PeersKeep, AllApplied, Announced, Fresh, Register, PeerStep;
      ghost var t := T();
      var interrupted, batch, m := w.Wait();
      PeersLeave(app, maxConnections, t, m, {}, {});
      PeersCover(t.k, m, {});
      assert w.diary.collected[|old(w.diary.collected)|..] == batch;
      if interrupted {
        ms := [M()];
        NothingApplied(app, maxConnections, M());
        return;
      }
      CollectingLeaves(app, maxConnections, t.(k := m), batch);
      ms := Serve(batch, generation);
      Finish();
    }

    /** The end of a turn. */
    method Finish()
      requires Serving({})
      modifies this, w`k, w`diary
      ensures Valid() && conns == old(conns) - w.diary.expired && Announced(maxConnections, old(M()), M())
      ensures w.diary == old(w.diary).(listenErrors := w.diary.listenErrors, expired := w.diary.expired)
    {
      hide InOrder, CoveredExcept;
      ApplyBackpressure();
      var expired := w.Expired();
      SweepExpired(expired);
    }

    /** Each event of the batch, in order. `tickets`: who held each descriptor when the batch was collected. */
    method Serve(batch: seq<EpollEvent>, ghost tickets: map<Fd, nat>) returns (ghost ms: seq<Moment>)
      requires Serving(Collected(batch)) && Fresh(T(), tickets, batch)
      modifies this, w`k, w`diary
      ensures Serving({})
      ensures AllApplied(app, maxConnections, batch, ms) && |ms| == |batch| + 1 && ms[0] == old(M()) && ms[|batch|] == M()
      ensures SameWaits(old(w.diary), w.diary)
    {
      hide Serving, Fresh, Collected, T, Applied, AllApplied;
      var i := 0;
      ms := [M()];
      NothingApplied(app, maxConnections, M());
      assert batch[0..] == batch && batch[..0] == [];
      while i < |batch|
        invariant i <= |batch| && Serving(Collected(batch[i..])) && Fresh(T(), tickets, batch[i..])
        invariant AllApplied(app, maxConnections, batch[..i], ms) && |ms| == i + 1 && ms[0] == old(M()) && ms[i] == M()
        invariant SameWaits(old(w.diary), w.diary)
      {
        assert batch[i..][1..] == batch[i + 1..];
        ServeEvent(batch[i], tickets, batch[i..]);
        OneMoreApplied(app, maxConnections, batch, i, ms, M());
        ms := ms + [M()];
        i := i + 1;
      }
      assert batch[i..] == [] && batch[..i] == batch;
      NothingCollected();
    }

    method ServeEvent(e: EpollEvent, ghost tickets: map<Fd, nat>, ghost batch: seq<EpollEvent>)
      requires batch != [] && e == batch[0]
      requires Serving(Collected(batch)) && Fresh(T(), tickets, batch)
      modifies this, w`k, w`diary
      ensures Serving(Collected(batch[1..])) && Fresh(T(), tickets, batch[1..])
      ensures Applied(app, maxConnections, e, old(M()), M())
      ensures SameWaits(old(w.diary), w.diary)
    {
      hide Fresh, Collected, Kept, KeepsNoticed, InOrder, CoveredExcept, DrivenBy, Welcomed, NobodyTurnedAway;
      ghost var t := T();
      ghost var rest := batch[1..];
      ghost var ours := if e.ConnEvent? then {e.fd} else {};
      FreshRest(t, tickets, batch);
      assert Collected(rest) == Collected(batch) - ours && Collected(batch) - {} == Collected(batch);
      match e {
        case ListenerEvent(readable) =>
          if readable { AcceptReady(Collected(batch)); } else { NobodyCame(M()); }
          WelcomedKept(t, T());
        case ConnEvent(fd, readable, writable, error) =>
          if error {
            Loosen(app, maxConnections, t, fd, Collected(batch));
            DropConn(fd, Collected(batch));
          } else if readable || writable {
            InTables(app, maxConnections, t, fd);
            Drive(fd, tickets[fd], Collected(batch));
            DrivenKept(app, old(M()), M(), fd);
          }
      }
      StaysFresh(t, T(), tickets, rest, ours);
    }

    /** Accept until there is nobody left, an error, or no room. */
    method AcceptReady(ghost due: set<Fd>)
      requires Serving(due)
      modifies this, w`k, w`diary
      ensures |conns| >= maxConnections || w.k.backlog == 0 || w.diary.acceptErrors > old(w.diary.acceptErrors)
      ensures Serving(due) && Welcomed(old(T()), T()) && NobodyTurnedAway(old(M()), M())
      ensures w.diary == old(w.diary).(acceptErrors := w.diary.acceptErrors, callErrors := w.diary.callErrors)
    {
      hide Serving, Kept, Welcomed, T, NobodyTurnedAway;
      NobodyCame(M());
      while |conns| < maxConnections
        invariant Serving(due) && Welcomed(old(T()), T()) && NobodyTurnedAway(old(M()), M())
        invariant w.diary == old(w.diary).(acceptErrors := w.diary.acceptErrors, callErrors := w.diary.callErrors)
        invariant w.diary.acceptErrors >= old(w.diary.acceptErrors)
        decreases w.k.backlog + w.k.clients
      {
        ghost var a := M();
        var more := AcceptOne(due);
        WelcomedAgain(old(T()), a.t, T());
        CountedAgain(old(M()), a, M());
        if !more { return; }
      }
    }

    method AcceptOne(ghost due: set<Fd>) returns (more: bool)
      requires Serving(due) && |conns| < maxConnections
      modifies this, w`k, w`diary
      ensures Serving(due) && Welcomed(old(T()), T()) && NobodyTurnedAway(old(M()), M())
      ensures w.diary == old(w.diary).(acceptErrors := w.diary.acceptErrors, callErrors := w.diary.callErrors)
      ensures more ==> w.k.backlog + w.k.clients < old(w.k.backlog + w.k.clients) && w.diary.acceptErrors == old(w.diary.acceptErrors)
      ensures !more ==> w.diary.acceptErrors >= old(w.diary.acceptErrors)
      ensures !more ==> w.k.backlog == 0 || w.diary.acceptErrors > old(w.diary.acceptErrors)
    {
      hide InOrder, CoveredExcept, Kept, Welcomed, KeepsNoticed;
      ghost var t := T();
      var r, m := w.Accept();
      match r {
        case NoClient =>
          PeersActed(app, maxConnections, t, m, {}, {}, due);
          JustKept(t, m);
          more := false;
        case AcceptFailed =>
          PeersActed(app, maxConnections, t, m, {}, {}, due);
          JustKept(t, m);
          more := false;
        case Client(fd) =>
          Accepting(app, maxConnections, t, m, w.k, fd, due);
          JustKept(t, w.k);
          ghost var u := T();
          AddConn(fd, due);
          WelcomedAgain(t, u, T());
          more := true;
      }
    }

    /** A connection starts afresh whatever its descriptor was used for before, or is closed at once. */
    method AddConn(fd: Fd, ghost due: set<Fd>)
      requires InOrder(app, maxConnections, T(), {}, {fd}) && CoveredExcept(w.k, due) && |conns| < maxConnections
      requires fd in w.k.socks && w.k.socks[fd].taken == [] && w.k.socks[fd].out == []
      modifies this, w`k, w`diary
      ensures Serving(due) && Welcomed(old(T()), T())
      ensures w.k.backlog + w.k.clients == old(w.k.backlog + w.k.clients)
      ensures |conns| == old(|conns|) + 1 - (w.diary.callErrors - old(w.diary.callErrors))
      ensures w.diary.callErrors >= old(w.diary.callErrors) && w.diary == old(w.diary).(callErrors := w.diary.callErrors)
    {
      hide InOrder, CoveredExcept, Kept, Welcomed, KeepsNoticed;
      ghost var t := T();
      NotYetListed(app, maxConnections, t, fd);
      SameSize(conns, fd, START);
      var ok := w.SetNonblocking(fd);
      if ok { ok := Add(fd, due); } else { WelcomedNobody(t); }
      ghost var u := T();
      if ok { WelcomedNobody(u); } else { ForgetFd(fd, due); }
      WelcomedAgain(t, u, T());
    }

    method Add(fd: Fd, ghost due: set<Fd>) returns (ok: bool)
      requires InOrder(app, maxConnections, T(), {}, {fd}) && CoveredExcept(w.k, due) && |conns| < maxConnections
      requires fd in w.k.socks && w.k.socks[fd].taken == [] && w.k.socks[fd].out == []
      modifies this, w`k, w`diary
      ensures w.diary == old(w.diary).(callErrors := old(w.diary.callErrors) + if ok then 0 else 1)
      ensures if ok then Serving(due) && conns == old(conns)[fd := START]
              else InOrder(app, maxConnections, T(), {}, {fd}) && CoveredExcept(w.k, due) && conns == old(conns)
      ensures Welcomed(old(T()), T()) && w.k.backlog + w.k.clients == old(w.k.backlog + w.k.clients)
    {
      hide InOrder, CoveredExcept, Kept, Welcomed, KeepsNoticed, PeersKeep, Register;
      ghost var t := T();
      var control, m := w.Control(fd, ReadInterest);
      ok := control;
      if ok {
        conns := conns[fd := START];
        wants := wants[fd := ReadInterest];
        generation, accepted := generation[fd := accepted], accepted + 1;
        Adding(app, maxConnections, t, m, T(), fd, due);
      } else {
        PeersActed(app, maxConnections, t, m, {}, {fd}, due);
        JustKept(t, m);
      }
    }

    method ForgetFd(fd: Fd, ghost due: set<Fd>)
      requires InOrder(app, maxConnections, T(), {}, {fd}) && CoveredExcept(w.k, due)
      modifies this, w`k
      ensures Serving(due) && Welcomed(old(T()), T()) && conns == old(conns)
      ensures w.k.backlog + w.k.clients == old(w.k.backlog + w.k.clients)
    {
      hide InOrder, CoveredExcept, Kept, Welcomed, KeepsNoticed, PeersKeep, CloseSock;
      ghost var t := T();
      var m := w.CloseFd(fd);
      Forgetting(app, maxConnections, t, m, fd, due);
      JustKept(t, w.k);
    }

    /** Drain the connection's socket, then register it for what it waits for if that has changed. */
    method Drive(fd: Fd, ghost ticket: nat, ghost due: set<Fd>)
      requires Serving(due) && (fd in generation ==> generation[fd] == ticket && w.k.BreakNoticed(fd))
      modifies this, w`k, w`diary
      ensures Serving(due - {fd})
      ensures if fd in old(conns) then DrivenBy(app, old(M()), M(), fd) else M() == old(M())
      ensures w.diary == old(w.diary).(log := w.diary.log, callErrors := w.diary.callErrors)
    {
      hide InOrder, CoveredExcept, Kept, KeepsNoticed, OnlyServed, Inv, EdgeCall, DrivenBy, Ends, Settled;
      ghost var a := M();
      if fd !in conns {
        Loosen(app, maxConnections, a.t, fd, due);
        return;
      }
      SlotReady(app, maxConnections, a.t, fd);
      var s, action, trace := DriveIo(w, fd, conns[fd], app, true);
      Served(app, maxConnections, a.t, w.k, fd, s, due);
      conns := conns[fd := s];
      ghost var u := T();
      if action == ConnAction.Close {
        DropConn(fd, due);
        SettledGone(u, T(), fd);
      } else {
        ServedSameSocks(a.t.k, w.k, fd);
        Stopping(app, w.k, fd, s, action);
        Settle(fd, if action == WantRead then ReadInterest else WriteInterest, due);
      }
      DrivenMeans(app, a, u, M(), fd, trace);
    }

    method Settle(fd: Fd, next: Interest, ghost due: set<Fd>)
      requires InOrder(app, maxConnections, T(), {fd}, {}) && CoveredExcept(w.k, due + {fd}) && fd in conns
      requires Stopped(app, w.k, fd, conns[fd], next) && w.k.BreakNoticed(fd)
      modifies this, w`k, w`diary
      ensures Serving(due - {fd}) && Settled(old(T()), T(), fd)
      ensures w.diary == old(w.diary).(callErrors := w.diary.callErrors)
      ensures w.diary.callErrors >= old(w.diary.callErrors)
      ensures fd !in conns ==> w.diary.callErrors > old(w.diary.callErrors)
    {
      hide InOrder, CoveredExcept, Kept, KeepsNoticed, Stopped, Settled;
      ghost var t := T();
      var ok := true;
      StoppedOpen(app, w.k, fd, conns[fd], next);
      if fd !in wants || wants[fd] != next {
        ok := Modify(fd, next, due);
      } else {
        StayingLeaves(app, maxConnections, t, fd, due);
        KeptSelf(t);
      }
      ghost var u := T();
      if !ok { DropConn(fd, due); }
      SettledTo(t, u, T(), fd);
    }

    method Modify(fd: Fd, next: Interest, ghost due: set<Fd>) returns (ok: bool)
      requires InOrder(app, maxConnections, T(), {fd}, {}) && CoveredExcept(w.k, due + {fd}) && fd in conns
      requires Stopped(app, w.k, fd, conns[fd], next) && fd in w.k.socks
      modifies this, w`k, w`diary
      ensures w.diary == old(w.diary).(callErrors := old(w.diary.callErrors) + if ok then 0 else 1)
      ensures if ok then Serving(due - {fd}) && wants == old(wants)[fd := next]
              else InOrder(app, maxConnections, T(), {fd}, {}) && CoveredExcept(w.k, due + {fd})
      ensures Kept(old(T()), T(), {})
      ensures conns == old(conns) && generation == old(generation) && accepted == old(accepted)
    {
      hide InOrder, CoveredExcept, Kept, KeepsNoticed, Stopped, PeersKeep, Register;
      ghost var t := T();
      var control, m := w.Control(fd, next);
      ok := control;
      if ok {
        wants := wants[fd := next];
        Switching(app, maxConnections, t, m, T(), fd, next, due);
      } else {
        PeersActed(app, maxConnections, t, m, {fd}, {}, due + {fd});
      }
    }

    method DropConn(fd: Fd, ghost due: set<Fd>)
      requires InOrder(app, maxConnections, T(), {fd}, {}) && CoveredExcept(w.k, due + {fd})
      modifies this, w`k
      ensures Serving(due - {fd}) && Kept(old(T()), T(), {fd})
      ensures conns == old(conns) - {fd} && generation == old(generation) - {fd}
      ensures accepted == old(accepted) && listenerRegistered == old(listenerRegistered)
    {
      hide InOrder, CoveredExcept, Kept, KeepsNoticed, PeersKeep;
      ghost var t := T();
      var m := w.CloseFd(fd);
      wants := wants - {fd};
      conns := conns - {fd};
      generation := generation - {fd};
      Dropping(app, maxConnections, t, m, fd, due);
    }

    /** At the cap the listener is deregistered; below it, registered again. */
    method ApplyBackpressure()
      requires Serving({})
      modifies this, w`k, w`diary
      ensures Valid() && conns == old(conns)
      ensures w.diary == old(w.diary).(listenErrors := w.diary.listenErrors)
      ensures |conns| < maxConnections && !listenerRegistered ==> w.diary.listenErrors > old(w.diary.listenErrors)
      ensures listenerRegistered ==> |conns| < maxConnections
      ensures old(listenerRegistered) && |conns| < maxConnections ==> listenerRegistered
    {
      hide InOrder, CoveredExcept, Kept, PeersKeep;
      ghost var t := T();
      if listenerRegistered && |conns| >= maxConnections {
        var _, m := w.Listen(false);
        listenerRegistered := false;
        PeersActed(app, maxConnections, t, m, {}, {}, {});
        ListeningLeaves(app, maxConnections, t.(k := m), w.k);
      } else if !listenerRegistered && |conns| < maxConnections {
        var ok, m := w.Listen(true);
        PeersActed(app, maxConnections, t, m, {}, {}, {});
        ListeningLeaves(app, maxConnections, t.(k := m), w.k);
        if ok { listenerRegistered := true; }
      }
    }

    /** Drop the connections whose deadline has passed, whichever they are. */
    method SweepExpired(expired: set<Fd>)
      requires Valid()
      modifies this, w`k
      ensures Valid() && conns == old(conns) - expired && listenerRegistered == old(listenerRegistered)
    {
      hide InOrder, CoveredExcept, AtRest;
      var left := expired;
      ghost var gone: set<Fd> := {};
      ghost var before := conns;
      assert before == before - gone;
      while left != {}
        invariant Valid() && gone + left == expired && conns == before - gone
        invariant listenerRegistered == old(listenerRegistered)
        decreases left
      {
        var fd :| fd in left;
        SweepOne(fd);
        RemoveOneMore(before, gone, fd);
        gone := gone + {fd};
        left := left - {fd};
      }
      assert gone == expired;
    }

    method SweepOne(fd: Fd)
      requires Valid()
      modifies this, w`k
      ensures Valid() && conns == old(conns) - {fd} && listenerRegistered == old(listenerRegistered)
    {
      hide InOrder, CoveredExcept, Kept, KeepsNoticed;
      Loosen(app, maxConnections, T(), fd, {});
      assert {} - {fd} == {};
      SameSize(conns, fd, START);
      if fd in conns { DropConn(fd, {}); }
    }
  }
}
