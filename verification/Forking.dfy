/** One child process per connection: the accept loop and the SIGCHLD reaper that interrupts it. */
module Forking {
  import opened Words

  // ---- the protocol ----

  /** The next thing the accept loop does. */
  datatype Parent = AtAccept | AtCheck | AtReserve | AtFork | AtRelease

  /** The next thing the signal handler does, if it is running; the parent is suspended meanwhile. */
  datatype Handler = Off | AtWait | AtDecrement

  /**
   `live` is the atomic counter, 64 bits wide. `running` and `zombies` are the children not yet reaped;
   `pending` says that a SIGCHLD waits, one for any number of exits.
   */
  datatype System = System(live: nat, parent: Parent, handler: Handler, running: nat, zombies: nat, pending: bool)

  datatype Step =
    | Accepted
    | Checked
    | Reserved
    | Forked(ok: bool)
    | Released
    | ChildExits
    | SignalArrives
    | Waited
    | Decremented

  function FetchAdd(live: nat): nat { (live + 1) % U64 }
  function FetchSub(live: nat): nat { (live + U64 - 1) % U64 }

  predicate Enabled(s: System, e: Step) {
    match e
    case Accepted => s.handler == Off && s.parent == AtAccept
    case Checked => s.handler == Off && s.parent == AtCheck
    case Reserved => s.handler == Off && s.parent == AtReserve
    case Forked(_) => s.handler == Off && s.parent == AtFork
    case Released => s.handler == Off && s.parent == AtRelease
    case ChildExits => s.running > 0
    case SignalArrives => s.handler == Off && s.pending
    case Waited => s.handler == AtWait
    case Decremented => s.handler == AtDecrement
  }

  function Next(s: System, e: Step, cap: nat): System
    requires Enabled(s, e)
  {
    match e
    case Accepted => s.(parent := AtCheck)
    case Checked => s.(parent := if s.live >= cap then AtAccept else AtReserve)
    case Reserved => s.(parent := AtFork, live := FetchAdd(s.live))
    case Forked(ok) => if ok then s.(parent := AtAccept, running := s.running + 1) else s.(parent := AtRelease)
    case Released => s.(parent := AtAccept, live := FetchSub(s.live))
    case ChildExits => s.(running := s.running - 1, zombies := s.zombies + 1, pending := true)
    case SignalArrives => s.(handler := AtWait, pending := false)
    case Waited => if s.zombies > 0 then s.(handler := AtDecrement, zombies := s.zombies - 1) else s.(handler := Off)
    case Decremented => s.(handler := AtWait, live := FetchSub(s.live))
  }

  const START: System := System(0, AtAccept, Off, 0, 0, false)

  // ---- what every interleaving keeps ----

  function Reservation(p: Parent): nat { if p == AtFork || p == AtRelease then 1 else 0 }

  function Uncounted(h: Handler): nat { if h == AtDecrement then 1 else 0 }

  ghost predicate Inv(s: System, cap: nat) {
    // The counter is the unreaped children, the slot reserved for one, and one reaped but not yet taken off.
    && s.live == s.running + s.zombies + Reservation(s.parent) + Uncounted(s.handler)
    && s.live <= cap < U64
    && (s.parent == AtReserve ==> s.live < cap)
    // No zombie is forgotten although several exits may raise one signal.
    && (s.zombies > 0 && s.handler == Off ==> s.pending)
  }

  lemma StepKeepsInv(s: System, e: Step, cap: nat)
    requires Inv(s, cap) && Enabled(s, e)
    ensures Inv(Next(s, e, cap), cap)
  {
  }

  ghost predicate CanRun(s: System, steps: seq<Step>, cap: nat)
    decreases |steps|
  {
    steps == [] || (Enabled(s, steps[0]) && CanRun(Next(s, steps[0], cap), steps[1..], cap))
  }

  ghost function After(s: System, steps: seq<Step>, cap: nat): System
    requires CanRun(s, steps, cap)
    decreases |steps|
  {
    if steps == [] then s else After(Next(s, steps[0], cap), steps[1..], cap)
  }

  lemma {:induction false} RunKeepsInv(s: System, steps: seq<Step>, cap: nat)
    requires Inv(s, cap) && CanRun(s, steps, cap)
    ensures Inv(After(s, steps, cap), cap)
    decreases |steps|
  {
    if steps != [] {
      StepKeepsInv(s, steps[0], cap);
      RunKeepsInv(Next(s, steps[0], cap), steps[1..], cap);
    }
  }

  /**
   Never more children than the cap, no wrap of the counter in either direction, a connection turned away
   exactly when the unreaped children have reached the cap, and once the handler is done and no signal
   waits there are no zombies.
   */
  ghost predicate Safe(s: System, cap: nat) {
    && s.running + s.zombies <= cap
    && (s.parent == AtReserve ==> FetchAdd(s.live) == s.live + 1)
    && (s.parent == AtRelease || s.handler == AtDecrement ==> FetchSub(s.live) == s.live - 1)
    && (Enabled(s, Checked) ==> (Next(s, Checked, cap).parent == AtAccept <==> s.running + s.zombies == cap))
    && (s.handler == Off && !s.pending ==> s.zombies == 0)
  }

  lemma InvIsSafe(s: System, cap: nat)
    requires Inv(s, cap)
    ensures Safe(s, cap)
  {
  }

  /** Wherever signals fall between the parent's steps. */
  lemma ForkingIsSafe(steps: seq<Step>, cap: nat)
    requires cap < U64 && CanRun(START, steps, cap)
    ensures Safe(After(START, steps, cap), cap)
  {
    RunKeepsInv(START, steps, cap);
    InvIsSafe(After(START, steps, cap), cap);
  }

  // ---- runs, put together ----

  /** The steps are possible from `s` and lead to `t`. */
  ghost predicate Reaches(s: System, steps: seq<Step>, t: System, cap: nat) {
    CanRun(s, steps, cap) && After(s, steps, cap) == t
  }

  lemma Nothing(s: System, cap: nat) returns (steps: seq<Step>)
    ensures Reaches(s, steps, s, cap) && CallsOf(steps) == []
  {
    steps := [];
  }

  lemma {:induction false} RunOn(s: System, first: seq<Step>, others: seq<Step>, cap: nat)
    requires CanRun(s, first, cap) && CanRun(After(s, first, cap), others, cap)
    ensures CanRun(s, first + others, cap) && After(s, first + others, cap) == After(After(s, first, cap), others, cap)
    decreases |first|
  {
    if first == [] {
      assert first + others == others;
    } else {
      assert (first + others)[0] == first[0] && (first + others)[1..] == first[1..] + others;
      RunOn(Next(s, first[0], cap), first[1..], others, cap);
    }
  }

  datatype Call = AcceptCall(ok: bool) | ForkCall(ok: bool)

  /** The system call a step is, if it gave the parent something to go on with. */
  function CallOf(e: Step): seq<Call> {
    match e
    case Accepted => [AcceptCall(true)]
    case Forked(ok) => [ForkCall(ok)]
    case _ => []
  }

  function CallsOf(steps: seq<Step>): seq<Call> {
    if steps == [] then [] else CallOf(steps[0]) + CallsOf(steps[1..])
  }

  lemma {:induction false} CallsAdd(first: seq<Step>, others: seq<Step>)
    ensures CallsOf(first + others) == CallsOf(first) + CallsOf(others)
    decreases |first|
  {
    hide CallOf;
    if first == [] {
      assert first + others == others;
    } else {
      assert (first + others)[0] == first[0] && (first + others)[1..] == first[1..] + others;
      CallsAdd(first[1..], others);
    }
  }

  lemma Then(s: System, first: seq<Step>, m: System, others: seq<Step>, t: System, cap: nat) returns (steps: seq<Step>)
    requires Reaches(s, first, m, cap) && Reaches(m, others, t, cap)
    ensures CallsOf(steps) == CallsOf(first) + CallsOf(others) && Reaches(s, steps, t, cap)
  {
    CallsAdd(first, others);
    RunOn(s, first, others, cap);
    steps := first + others;
  }

  /** One step more; what it leads to is as the step says, and the invariant is kept. */
  lemma Took(s: System, first: seq<Step>, t: System, e: Step, cap: nat) returns (steps: seq<Step>)
    requires Reaches(s, first, t, cap) && Enabled(t, e) && Inv(t, cap)
    ensures CallsOf(steps) == CallsOf(first) + CallOf(e) && Reaches(s, steps, Next(t, e, cap), cap) && Inv(Next(t, e, cap), cap)
  {
    CallsAdd(first, [e]);
    StepKeepsInv(t, e, cap);
    assert [e][1..] == [] && After(Next(t, e, cap), [], cap) == Next(t, e, cap);
    assert CanRun(t, [e], cap) && After(t, [e], cap) == Next(t, e, cap);
    RunOn(s, first, [e], cap);
    steps := first + [e];
  }

  /** There is something to take off the counter when the handler does so. */
  lemma CounterIsUp(s: System, cap: nat)
    requires Inv(s, cap) && s.handler == AtDecrement
    ensures 0 < s.live < U64
  {
  }

  // ---- the server ----

  /** accept and fork, with a record of what they returned that nothing else writes. */
  class Os {
    ghost var calls: seq<Call>

    constructor ()
    {
    }

    method Accept() returns (ok: bool)
      modifies this
      ensures calls == old(calls) + [AcceptCall(ok)]
    {
      ok := *;
      calls := calls + [AcceptCall(ok)];
    }

    method Fork() returns (ok: bool)
      modifies this
      ensures calls == old(calls) + [ForkCall(ok)]
    {
      ok := *;
      calls := calls + [ForkCall(ok)];
    }
  }

  class Server {
    const cap: nat
    const os: Os
    var live: nat
    // Children, and the signal the kernel holds for the parent.
    var running: nat
    var zombies: nat
    var pending: bool
    ghost var parent: Parent
    ghost var handler: Handler

    ghost function S(): System
      reads this
    {
      System(live, parent, handler, running, zombies, pending)
    }

    ghost predicate Valid()
      reads this
    {
      handler == Off && Inv(S(), cap)
    }

    constructor (cap: nat)
      requires cap < U64
      ensures Valid() && S() == START && this.cap == cap && fresh(os)
    {
      this.cap := cap;
      os := new Os();
      live, running, zombies, pending := 0, 0, 0, false;
      parent, handler := AtAccept, Off;
    }

    /**
     The body of the accept loop; children exit and signals arrive between any two of its steps. What it did
     is a run of the protocol, with accept called once and every call it made in it unless accept failed.
     */
    method ServeOne() returns (ghost steps: seq<Step>)
      requires Valid() && parent == AtAccept
      modifies this, os
      ensures old(os.calls) < os.calls
      ensures var made := os.calls[|old(os.calls)|..];
              if made[0] == AcceptCall(false) then |made| == 1 && CallsOf(steps) == []
              else made[0] == AcceptCall(true) && CallsOf(steps) == made
      ensures Valid() && parent == AtAccept && Safe(S(), cap)
      ensures Reaches(old(S()), steps, S(), cap)
    {
      hide Inv, Safe, Reaches, CallsOf;
      ghost var start := S();
      steps := Interrupts();
      var taken := os.Accept();
      if !taken {
        InvIsSafe(S(), cap);
        return;
      }
      steps := Took(start, steps, S(), Accepted, cap);
      parent := AtCheck;
      ghost var at := S();
      ghost var more := ServeClient();
      steps := Then(start, steps, at, more, S(), cap);
      InvIsSafe(S(), cap);
    }

    /** A client is there: turned away at the cap, else given a child if a child can be had. */
    method ServeClient() returns (ghost steps: seq<Step>)
      requires Valid() && parent == AtCheck
      modifies this, os
      ensures Valid() && parent == AtAccept && Reaches(old(S()), steps, S(), cap)
      ensures os.calls == old(os.calls) + CallsOf(steps)
    {
      hide Inv, Reaches, CallsOf;
      ghost var start := S();
      steps := Interrupts();
      steps := Took(start, steps, S(), Checked, cap);
      if live >= cap {
        parent := AtAccept;
        return;
      }
      parent := AtReserve;
      ghost var at := S();
      ghost var more := Interrupts();
      steps := Then(start, steps, at, more, S(), cap);
      steps := Took(start, steps, S(), Reserved, cap);
      live := (live + 1) % U64;
      parent := AtFork;
      at := S();
      more := Fork();
      steps := Then(start, steps, at, more, S(), cap);
    }

    method Fork() returns (ghost steps: seq<Step>)
      requires Valid() && parent == AtFork
      modifies this, os
      ensures os.calls == old(os.calls) + CallsOf(steps)
      ensures Valid() && parent == AtAccept && Reaches(old(S()), steps, S(), cap)
    {
      hide Inv, Reaches, CallsOf;
      ghost var start := S();
      steps := Interrupts();
      var forked := os.Fork();
      steps := Took(start, steps, S(), Forked(forked), cap);
      if forked {
        running := running + 1;
        parent := AtAccept;
      } else {
        parent := AtRelease;
        ghost var at := S();
        ghost var more := Interrupts();
        steps := Then(start, steps, at, more, S(), cap);
        steps := Took(start, steps, S(), Released, cap);
        live := (live + U64 - 1) % U64;
        parent := AtAccept;
      }
    }

    /** Any number of exits and signals. The parent stays where it was. */
    method Interrupts() returns (ghost steps: seq<Step>)
      requires Valid()
      modifies this
      ensures Valid() && parent == old(parent) && Reaches(old(S()), steps, S(), cap) && CallsOf(steps) == []
      ensures live <= old(live) && running <= old(running)
    {
      hide Inv, Reaches, CallsOf;
      ghost var start := S();
      steps := Nothing(start, cap);
      var events: seq<bool> := *;
      for i := 0 to |events|
        invariant Valid() && parent == old(parent) && live <= old(live) && running <= old(running)
        invariant Reaches(start, steps, S(), cap) && CallsOf(steps) == []
      {
        ghost var at := S();
        ghost var more := ChildrenExit();
        steps := Then(start, steps, at, more, S(), cap);
        if events[i] && pending {
          at := S();
          more := SigchldHandler();
          steps := Then(start, steps, at, more, S(), cap);
        }
      }
    }

    /** Some children exit, at a time of their own. */
    method ChildrenExit() returns (ghost steps: seq<Step>)
      requires Inv(S(), cap)
      modifies this`running, this`zombies, this`pending
      ensures Inv(S(), cap) && Reaches(old(S()), steps, S(), cap) && CallsOf(steps) == []
      ensures running + zombies == old(running + zombies) && old(zombies) <= zombies && running <= old(running)
    {
      hide Inv, Reaches, CallsOf;
      ghost var start := S();
      steps := Nothing(start, cap);
      var exits: seq<bool> := *;
      for i := 0 to |exits|
        invariant Inv(S(), cap) && Reaches(start, steps, S(), cap) && CallsOf(steps) == []
        invariant running + zombies == old(running + zombies) && old(zombies) <= zombies && running <= old(running)
      {
        if exits[i] && running > 0 {
          steps := Took(start, steps, S(), ChildExits, cap);
          running, zombies, pending := running - 1, zombies + 1, true;
        }
      }
    }

    /** Reap every child that is ready or becomes so meanwhile, taking each off the counter. */
    method SigchldHandler() returns (ghost steps: seq<Step>)
      requires Valid() && pending
      modifies this
      ensures Valid() && parent == old(parent) && Reaches(old(S()), steps, S(), cap) && CallsOf(steps) == []
      ensures zombies == 0
      ensures live - running - zombies == old(live - running - zombies) && live <= old(live) && running <= old(running)
    {
      hide Inv, Reaches, CallsOf;
      ghost var start := S();
      steps := Nothing(start, cap);
      steps := Took(start, steps, S(), SignalArrives, cap);
      pending, handler := false, AtWait;
      while true
        invariant handler == AtWait && Inv(S(), cap) && parent == old(parent) && Reaches(start, steps, S(), cap)
        invariant CallsOf(steps) == []
        invariant live - running - zombies == old(live - running - zombies) && live <= old(live) && running <= old(running)
        decreases running + zombies
      {
        ghost var at := S();
        ghost var more := ChildrenExit();
        steps := Then(start, steps, at, more, S(), cap);
        steps := Took(start, steps, S(), Waited, cap);
        if zombies == 0 {
          handler := Off;
          break;
        }
        zombies, handler := zombies - 1, AtDecrement;
        at := S();
        more := ChildrenExit();
        steps := Then(start, steps, at, more, S(), cap);
        CounterIsUp(S(), cap);
        steps := Took(start, steps, S(), Decremented, cap);
        live := (live + U64 - 1) % U64;
        handler := AtWait;
      }
    }
  }
}
