/** The load generator's queue of scheduled requests, its scheduler and its workers. */
module LoadQueue {
  import opened Bytes

  // A scheduled time, in nanoseconds.
  type Time = nat

  // ---- the queue under its lock ----

  datatype QueueState = QueueState(pending: seq<Time>, closed: bool)

  datatype Popped = Item(t: Time) | Finished | MustWait

  function Pushed(q: QueueState, t: Time): QueueState {
    q.(pending := q.pending + [t])
  }

  /** One pass of pop's loop with the lock held. */
  function Attempted(q: QueueState): (QueueState, Popped) {
    if q.pending != [] then (q.(pending := q.pending[1..]), Item(q.pending[0]))
    else if q.closed then (q, Finished)
    else (q, MustWait)
  }

  class Queue {
    var pending: seq<Time>
    var schedulingDone: bool

    ghost function State(): QueueState
      reads this
    {
      QueueState(pending, schedulingDone)
    }

    constructor ()
      ensures State() == QueueState([], false)
    {
      pending, schedulingDone := [], false;
    }

    /** `push`, up to the unlock; the notification comes after it. */
    method Push(t: Time)
      modifies this
      ensures State() == Pushed(old(State()), t)
    {
      pending := pending + [t];
    }

    /** `pop`, from the lock to the return or the wait. */
    method TryPop() returns (r: Popped)
      modifies this
      ensures (State(), r) == Attempted(old(State()))
      ensures r == Finished <==> old(schedulingDone) && old(pending) == []
      ensures r.Item? ==> old(pending) == [r.t] + pending
    {
      if pending != [] {
        r := Item(pending[0]);
        pending := pending[1..];
      } else if schedulingDone {
        r := Finished;
      } else {
        r := MustWait;
      }
    }

    /** `close`, up to the unlock. */
    method Close()
      modifies this
      ensures State() == old(State()).(closed := true)
    {
      schedulingDone := true;
    }
  }

  // ---- threads ----

  /** Where a worker is: about to take the lock, blocked on the condition variable, serving, or gone. */
  datatype Place = Ready | Waiting | Serving | Gone

  /** `broken`: its connection failed, so it only counts what it pops as errors. */
  datatype Worker = Worker(place: Place, broken: bool, ok: nat, errors: nat)

  /** Where the scheduler is: `Emitting` between calls, `Notifying` between an unlock and its notify_one. */
  datatype Scheduler = Emitting | Notifying | NotifyingAll | Joining

  /** `plan`: every scheduled time. `emitted` of them have been pushed; `popped` is what workers took, in order. */
  datatype System = System(
    plan: seq<Time>,
    emitted: nat,
    scheduler: Scheduler,
    q: QueueState,
    popped: seq<Time>,
    workers: seq<Worker>)

  datatype Step =
    | Emit
    | NotifyOne(woken: nat)
    | CloseQueue
    | NotifyAll
    | Attempt(i: nat)
    | Finish(i: nat, good: bool)
    | Spurious(i: nat)

  function IsWaiting(w: Worker): nat { if w.place == Waiting then 1 else 0 }
  function IsReady(w: Worker): nat { if w.place == Ready then 1 else 0 }
  function Tally(w: Worker): nat { w.ok + w.errors + if w.place == Serving then 1 else 0 }
  function Cost(w: Worker): nat { match w.place case Ready => 1 case Serving => 2 case _ => 0 }

  function Sum(f: Worker -> nat, ws: seq<Worker>): nat {
    if ws == [] then 0 else f(ws[0]) + Sum(f, ws[1..])
  }

  function Wake(w: Worker): Worker {
    if w.place == Waiting then w.(place := Ready) else w
  }

  function WakeAll(ws: seq<Worker>): (r: seq<Worker>)
    ensures |r| == |ws|
  {
    if ws == [] then [] else [Wake(ws[0])] + WakeAll(ws[1..])
  }

  predicate Enabled(s: System, e: Step) {
    match e
    case Emit => s.scheduler == Emitting && s.emitted < |s.plan|
    case NotifyOne(i) =>
      s.scheduler == Notifying && (Sum(IsWaiting, s.workers) > 0 ==> i < |s.workers| && s.workers[i].place == Waiting)
    case CloseQueue => s.scheduler == Emitting && s.emitted == |s.plan|
    case NotifyAll => s.scheduler == NotifyingAll
    case Attempt(i) => i < |s.workers| && s.workers[i].place == Ready
    case Finish(i, _) => i < |s.workers| && s.workers[i].place == Serving
    case Spurious(i) => i < |s.workers| && s.workers[i].place == Waiting
  }

  /** After a request: an error breaks the connection, and a broken connection makes every later request an error. */
  function Served(w: Worker, good: bool): Worker {
    if good && !w.broken then w.(place := Ready, ok := w.ok + 1)
    else w.(place := Ready, errors := w.errors + 1, broken := true)
  }

  function Next(s: System, e: Step): System
    requires Enabled(s, e)
  {
    match e
    case Emit => s.(scheduler := Notifying, emitted := s.emitted + 1, q := Pushed(s.q, s.plan[s.emitted]))
    case NotifyOne(i) =>
      s.(scheduler := Emitting,
         workers := if Sum(IsWaiting, s.workers) > 0 then s.workers[i := Wake(s.workers[i])] else s.workers)
    case CloseQueue => s.(scheduler := NotifyingAll, q := s.q.(closed := true))
    case NotifyAll => s.(scheduler := Joining, workers := WakeAll(s.workers))
    case Attempt(i) =>
      var (q, r) := Attempted(s.q);
      var w := s.workers[i];
      (match r
       case Item(t) => s.(q := q, popped := s.popped + [t], workers := s.workers[i := w.(place := Serving)])
       case Finished => s.(workers := s.workers[i := w.(place := Gone)])
       case MustWait => s.(workers := s.workers[i := w.(place := Waiting)]))
    case Finish(i, good) => s.(workers := s.workers[i := Served(s.workers[i], good)])
    case Spurious(i) => s.(workers := s.workers[i := Wake(s.workers[i])])
  }

  /** Nothing pushed yet; a worker that could not duplicate its socket starts broken. */
  ghost predicate Initial(s: System) {
    && s.emitted == 0 && s.scheduler == Emitting && s.q == QueueState([], false) && s.popped == []
    && forall i :: 0 <= i < |s.workers| ==> s.workers[i].place == Ready && s.workers[i].ok == 0 && s.workers[i].errors == 0
  }

  // ---- what every step keeps ----

  function Owed(s: System): nat { if s.scheduler == Notifying then 1 else 0 }

  ghost predicate Inv(s: System) {
    // Requests leave in the order they were scheduled, each once.
    && s.emitted <= |s.plan| && s.popped + s.q.pending == s.plan[..s.emitted]
    // Each one popped has been counted, or is being served.
    && Sum(Tally, s.workers) == |s.popped|
    // While a worker sleeps, every queued request has a worker awake or a notification coming.
    && (Sum(IsWaiting, s.workers) > 0 ==> |s.q.pending| <= Sum(IsReady, s.workers) + Owed(s))
    && (s.q.closed <==> s.scheduler == NotifyingAll || s.scheduler == Joining)
    && (s.q.closed ==> s.emitted == |s.plan|)
    && (s.scheduler == Joining ==> Sum(IsWaiting, s.workers) == 0)
    && (forall i :: 0 <= i < |s.workers| && s.workers[i].place == Gone ==> s.q.closed && s.q.pending == [])
  }

  lemma {:induction false} SumUpdate(f: Worker -> nat, ws: seq<Worker>, i: nat, w: Worker)
    requires i < |ws|
    ensures Sum(f, ws[i := w]) == Sum(f, ws) - f(ws[i]) + f(w)
    decreases |ws|
  {
    if i > 0 {
      SumUpdate(f, ws[1..], i - 1, w);
      assert ws[i := w][1..] == ws[1..][i - 1 := w];
    } else {
      assert ws[i := w][1..] == ws[1..];
    }
  }

  lemma {:induction false} SumZero(f: Worker -> nat, ws: seq<Worker>)
    ensures Sum(f, ws) == 0 <==> forall i :: 0 <= i < |ws| ==> f(ws[i]) == 0
  {
    if ws != [] {
      SumZero(f, ws[1..]);
      assert forall i :: 0 < i < |ws| ==> ws[i] == ws[1..][i - 1];
      assert (forall i :: 0 <= i < |ws| ==> f(ws[i]) == 0) ==> forall i :: 0 <= i < |ws[1..]| ==> f(ws[1..][i]) == 0 by {
        forall i | 0 <= i < |ws[1..]| && (forall j :: 0 <= j < |ws| ==> f(ws[j]) == 0) ensures f(ws[1..][i]) == 0 {
          assert ws[1..][i] == ws[i + 1];
        }
      }
    }
  }

  function SomeWaiting(ws: seq<Worker>): (i: nat)
    requires Sum(IsWaiting, ws) > 0
    ensures i < |ws| && ws[i].place == Waiting
  {
    if ws[0].place == Waiting then 0 else 1 + SomeWaiting(ws[1..])
  }

  lemma {:induction false} WakingAll(ws: seq<Worker>)
    ensures Sum(IsWaiting, WakeAll(ws)) == 0
    ensures Sum(Tally, WakeAll(ws)) == Sum(Tally, ws)
    ensures Sum(IsReady, WakeAll(ws)) == Sum(IsReady, ws) + Sum(IsWaiting, ws)
    ensures Sum(Cost, WakeAll(ws)) == Sum(Cost, ws) + Sum(IsWaiting, ws)
    ensures Sum(IsWaiting, ws) <= |ws|
    ensures forall i :: 0 <= i < |ws| ==> WakeAll(ws)[i] == Wake(ws[i])
  {
    if ws != [] {
      WakingAll(ws[1..]);
      assert WakeAll(ws)[1..] == WakeAll(ws[1..]);
    }
  }

  lemma StepKeepsInv(s: System, e: Step)
    requires Inv(s) && Enabled(s, e)
    ensures Inv(Next(s, e))
  {
    match e
    case Emit => EmitKeepsInv(s);
    case NotifyOne(i) => if Sum(IsWaiting, s.workers) > 0 { WakeKeepsInv(s, e, i); }
    case CloseQueue =>
    case NotifyAll => WakingAll(s.workers);
    case Attempt(i) => AttemptKeepsInv(s, i);
    case Finish(i, good) => FinishKeepsInv(s, i, good);
    case Spurious(i) => WakeKeepsInv(s, e, i);
  }

  lemma EmitKeepsInv(s: System)
    requires Inv(s) && Enabled(s, Emit)
    ensures Inv(Next(s, Emit))
  {
    var t := s.plan[s.emitted];
    assert s.popped + (s.q.pending + [t]) == (s.popped + s.q.pending) + [t] == s.plan[..s.emitted + 1];
  }

  lemma SumsUpdate(ws: seq<Worker>, i: nat, w: Worker)
    requires i < |ws|
    ensures var r := ws[i := w];
            && Sum(IsWaiting, r) == Sum(IsWaiting, ws) - IsWaiting(ws[i]) + IsWaiting(w)
            && Sum(IsReady, r) == Sum(IsReady, ws) - IsReady(ws[i]) + IsReady(w)
            && Sum(Tally, r) == Sum(Tally, ws) - Tally(ws[i]) + Tally(w)
            && Sum(Cost, r) == Sum(Cost, ws) - Cost(ws[i]) + Cost(w)
  {
    SumUpdate(IsWaiting, ws, i, w);
    SumUpdate(IsReady, ws, i, w);
    SumUpdate(Tally, ws, i, w);
    SumUpdate(Cost, ws, i, w);
  }

  lemma WakeKeepsInv(s: System, e: Step, i: nat)
    requires Inv(s) && Enabled(s, e) && i < |s.workers| && s.workers[i].place == Waiting
    requires e == Spurious(i) || (e == NotifyOne(i) && Sum(IsWaiting, s.workers) > 0)
    ensures Inv(Next(s, e))
  {
    hide Sum;
    SumsUpdate(s.workers, i, Wake(s.workers[i]));
  }

  lemma AttemptKeepsInv(s: System, i: nat)
    requires Inv(s) && Enabled(s, Attempt(i))
    ensures Inv(Next(s, Attempt(i)))
  {
    hide Sum;
    var r := Attempted(s.q).1;
    SumsUpdate(s.workers, i, s.workers[i].(place := match r case Item(_) => Serving case Finished => Gone case MustWait => Waiting));
    if r.Item? { assert s.popped + s.q.pending == (s.popped + [r.t]) + s.q.pending[1..]; }
  }

  lemma FinishKeepsInv(s: System, i: nat, good: bool)
    requires Inv(s) && Enabled(s, Finish(i, good))
    ensures Inv(Next(s, Finish(i, good)))
  {
    hide Sum;
    SumsUpdate(s.workers, i, Served(s.workers[i], good));
  }

  // ---- over whole runs ----

  ghost predicate CanRun(s: System, steps: seq<Step>)
    decreases |steps|
  {
    steps == [] || (Enabled(s, steps[0]) && CanRun(Next(s, steps[0]), steps[1..]))
  }

  ghost function After(s: System, steps: seq<Step>): System
    requires CanRun(s, steps)
    decreases |steps|
  {
    if steps == [] then s else After(Next(s, steps[0]), steps[1..])
  }

  function SpuriousIn(steps: seq<Step>): nat {
    if steps == [] then 0 else (if steps[0].Spurious? then 1 else 0) + SpuriousIn(steps[1..])
  }

  /** What is still to be done: a bound on the steps left. */
  function Measure(s: System): nat
    requires s.emitted <= |s.plan|
  {
    5 * (|s.plan| - s.emitted) + 2 * |s.q.pending| + Sum(Cost, s.workers)
    + match s.scheduler
      case Emitting => |s.workers| + 3
      case Notifying => |s.workers| + 5
      case NotifyingAll => |s.workers| + 1
      case Joining => 0
  }

  lemma StepIsProgress(s: System, e: Step)
    requires Inv(s) && Enabled(s, e)
    ensures Next(s, e).emitted <= |Next(s, e).plan|
    ensures Measure(Next(s, e)) <= if e.Spurious? then Measure(s) + 1 else Measure(s) - 1
  {
    hide Sum;
    match e
    case Emit =>
    case NotifyOne(i) => if Sum(IsWaiting, s.workers) > 0 { SumsUpdate(s.workers, i, Wake(s.workers[i])); }
    case CloseQueue =>
    case NotifyAll => WakingAll(s.workers);
    case Attempt(i) =>
      var r := Attempted(s.q).1;
      SumsUpdate(s.workers, i, s.workers[i].(place := match r case Item(_) => Serving case Finished => Gone case MustWait => Waiting));
    case Finish(i, good) => SumsUpdate(s.workers, i, Served(s.workers[i], good));
    case Spurious(i) => SumsUpdate(s.workers, i, Wake(s.workers[i]));
  }

  lemma {:induction false} SumOfNone(f: Worker -> nat, ws: seq<Worker>)
    requires forall i :: 0 <= i < |ws| ==> f(ws[i]) == 0
    ensures Sum(f, ws) == 0
  {
    SumZero(f, ws);
  }

  lemma InitialInv(s: System)
    requires Initial(s)
    ensures Inv(s)
  {
    SumOfNone(IsWaiting, s.workers);
    SumOfNone(Tally, s.workers);
  }

  /** Every interleaving keeps the invariant, and cannot go on for ever but for spurious wakeups. */
  lemma {:induction false} RunKeepsInv(s: System, steps: seq<Step>)
    requires Inv(s) && CanRun(s, steps)
    ensures Inv(After(s, steps)) && |After(s, steps).workers| == |s.workers| && After(s, steps).plan == s.plan
    ensures |steps| + Measure(After(s, steps)) <= Measure(s) + 2 * SpuriousIn(steps)
    decreases |steps|
  {
    hide Inv, Measure, Enabled;
    if steps != [] {
      StepKeepsInv(s, steps[0]);
      StepIsProgress(s, steps[0]);
      NextKeepsSize(s, steps[0]);
      RunKeepsInv(Next(s, steps[0]), steps[1..]);
    }
  }

  lemma NextKeepsSize(s: System, e: Step)
    requires Enabled(s, e)
    ensures |Next(s, e).workers| == |s.workers| && Next(s, e).plan == s.plan
  {
  }

  /** With a request queued and no notification on its way, some worker is awake. */
  lemma NobodySleepsOnWork(s: System)
    requires Inv(s) && s.q.pending != [] && s.scheduler != Notifying && s.workers != []
    ensures exists i :: 0 <= i < |s.workers| && (s.workers[i].place == Ready || s.workers[i].place == Serving)
  {
    if Sum(IsWaiting, s.workers) > 0 {
      SumZero(IsReady, s.workers);
    } else {
      SumZero(IsWaiting, s.workers);
      var w := s.workers[0];
      assert IsWaiting(w) == 0;
    }
  }

  /** Nothing can happen any more but spurious wakeups. */
  ghost predicate Stuck(s: System) {
    forall e :: Enabled(s, e) ==> e.Spurious?
  }

  function Answered(w: Worker): nat { w.ok + w.errors }

  lemma {:induction false} AllAnswered(ws: seq<Worker>)
    requires forall i :: 0 <= i < |ws| ==> ws[i].place != Serving
    ensures Sum(Answered, ws) == Sum(Tally, ws)
  {
    if ws != [] { AllAnswered(ws[1..]); }
  }

  /** There is no deadlock: a run that cannot go on has joined every worker. */
  lemma StuckIsFinished(s: System)
    requires Inv(s) && Stuck(s)
    ensures s.scheduler == Joining && s.emitted == |s.plan|
    ensures forall i :: 0 <= i < |s.workers| ==> s.workers[i].place == Gone
  {
    assert !Enabled(s, Emit) && !Enabled(s, CloseQueue) && !Enabled(s, NotifyAll);
    if s.scheduler == Notifying {
      var i := if Sum(IsWaiting, s.workers) > 0 then SomeWaiting(s.workers) else 0;
      assert Enabled(s, NotifyOne(i));
      assert false;
    }
    SumZero(IsWaiting, s.workers);
    forall i | 0 <= i < |s.workers| ensures s.workers[i].place == Gone {
      assert IsWaiting(s.workers[i]) == 0;
      assert !Enabled(s, Attempt(i)) && !Enabled(s, Finish(i, true));
    }
  }

  /** How the requests that worker `i` served ended, in order. */
  function Results(i: nat, steps: seq<Step>): seq<bool> {
    if steps == [] then []
    else (if steps[0].Finish? && steps[0].i == i then [steps[0].good] else []) + Results(i, steps[1..])
  }

  /** How many there are before the first failure. */
  function BeforeFailure(results: seq<bool>): (n: nat)
    ensures n <= |results| && (forall k :: 0 <= k < n ==> results[k]) && (n < |results| ==> !results[n])
  {
    if results == [] || !results[0] then 0 else 1 + BeforeFailure(results[1..])
  }

  /** What worker `i` should count as ok: nothing without a usable connection, else what came before its first failure. */
  function OkCount(s: System, steps: seq<Step>, i: nat): nat
    requires i < |s.workers|
  {
    if s.workers[i].broken then 0 else BeforeFailure(Results(i, steps))
  }

  /** A worker counts as ok what it served well before it first failed; everything else it took is an error. */
  lemma {:induction false} OkBeforeFirstFailure(s: System, steps: seq<Step>, i: nat)
    requires CanRun(s, steps) && i < |s.workers|
    ensures var results, t := Results(i, steps), After(s, steps);
            && i < |t.workers|
            && t.workers[i].ok == s.workers[i].ok + OkCount(s, steps, i)
            && t.workers[i].ok + t.workers[i].errors == s.workers[i].ok + s.workers[i].errors + |results|
            && (t.workers[i].broken <==> s.workers[i].broken || false in results)
    decreases |steps|
  {
    hide Next, Enabled;
    if steps != [] {
      var e, rest := steps[0], steps[1..];
      WorkerAfterStep(s, e, i);
      OkBeforeFirstFailure(Next(s, e), rest, i);
      if e.Finish? && e.i == i {
        FirstResult(e.good, Results(i, rest));
      } else {
        assert Results(i, steps) == Results(i, rest);
      }
    }
  }

  lemma FirstResult(good: bool, rest: seq<bool>)
    ensures BeforeFailure([good] + rest) == if good then 1 + BeforeFailure(rest) else 0
    ensures false in [good] + rest <==> !good || false in rest
  {
    assert ([good] + rest)[1..] == rest;
  }

  lemma WorkerAfterStep(s: System, e: Step, i: nat)
    requires Enabled(s, e) && i < |s.workers|
    ensures |Next(s, e).workers| == |s.workers|
    ensures var w, t := s.workers[i], Next(s, e).workers[i];
            if e.Finish? && e.i == i then
              && (t.broken <==> w.broken || !e.good)
              && t.ok == w.ok + (if e.good && !w.broken then 1 else 0) && t.ok + t.errors == w.ok + w.errors + 1
            else t.ok == w.ok && t.errors == w.errors && t.broken == w.broken
  {
    WakingAll(s.workers);
  }

  /** At the end each scheduled request is counted once, as ok or as an error, unless there was nobody to serve it. */
  lemma EveryRequestCounted(s: System, steps: seq<Step>)
    requires Initial(s) && CanRun(s, steps) && Stuck(After(s, steps))
    ensures var t := After(s, steps);
            (Sum(Answered, t.workers) == |s.plan| <==> s.workers != [] || s.plan == [])
            && (s.workers != [] ==> t.popped == s.plan)
            && |t.workers| == |s.workers|
            && forall i :: 0 <= i < |s.workers| ==> OkCount(s, steps, i) == t.workers[i].ok
  {
    forall i | 0 <= i < |s.workers| ensures i < |After(s, steps).workers| && OkCount(s, steps, i) == After(s, steps).workers[i].ok {
      OkBeforeFirstFailure(s, steps, i);
    }
    InitialInv(s);
    RunKeepsInv(s, steps);
    var t := After(s, steps);
    StuckIsFinished(t);
    AllAnswered(t.workers);
    assert t.plan[..t.emitted] == t.plan;
    if s.workers != [] { assert t.workers[0].place == Gone; assert t.popped + [] == t.popped; }
  }
}
