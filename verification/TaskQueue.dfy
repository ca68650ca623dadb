/**
 `TaskQueue` and the worker loop of `ThreadPool`: a mutex, a condition variable with
 spurious wake-ups, producers that notify after releasing the lock, and a stopper. The
 critical sections are methods of a class; every interleaving of them with the other
 steps of the threads is a run of the machine below.
 */
module TaskQueue {
  datatype Queue<T> = Queue(tasks: seq<T>, shutdown: bool, highWater: nat)

  /** The critical section of `push`; false when the queue has been shut down and what was pushed is dropped. */
  function Pushed<T>(q: Queue<T>, t: T): (Queue<T>, bool) {
    if q.shutdown then (q, false)
    else
      var n := |q.tasks| + 1;
      (q.(tasks := q.tasks + [t], highWater := if n > q.highWater then n else q.highWater), true)
  }

  /** What a worker finds when it holds the lock in `pop`. */
  datatype Found<T> = Nothing | Finished | Task(task: T)

  function Popped<T>(q: Queue<T>): (Queue<T>, Found<T>) {
    if q.tasks == [] then (q, if q.shutdown then Finished else Nothing)
    else (q.(tasks := q.tasks[1..]), Task(q.tasks[0]))
  }

  /** The object: its critical sections act as the functions above. */
  class TaskQueue<T> {
    var tasks: seq<T>
    var shutdown: bool
    var highWater: nat

    function State(): Queue<T>
      reads this
    {
      Queue(tasks, shutdown, highWater)
    }

    constructor ()
      ensures State() == Queue([], false, 0)
    {
      tasks, shutdown, highWater := [], false, 0;
    }

    method Push(t: T) returns (accepted: bool)
      modifies this
      ensures (State(), accepted) == Pushed(old(State()), t)
      ensures accepted == !old(shutdown) && tasks == old(tasks) + if accepted then [t] else []
    {
      if shutdown { return false; }
      tasks := tasks + [t];
      if |tasks| > highWater { highWater := |tasks|; }
      accepted := true;
    }

    method TryPop() returns (f: Found<T>)
      modifies this
      ensures (State(), f) == Popped(old(State()))
      ensures f.Task? ==> old(tasks) == [f.task] + tasks
      ensures !f.Task? ==> old(tasks) == [] == tasks && (f.Finished? <==> shutdown)
    {
      if tasks == [] && !shutdown { return Nothing; }
      if tasks == [] { return Finished; }
      f := Task(tasks[0]);
      tasks := tasks[1..];
    }

    method Stop()
      modifies this
      ensures State() == old(State()).(shutdown := true)
    {
      shutdown := true;
    }
  }

  // ------------------------------------------------------------- the machine

  datatype Holder = Free | ByWorker(w: nat) | ByProducer(p: nat) | ByStopper

  /** `Holding(true)`: holds the lock after having been woken. */
  datatype Worker<T> = Entering | Holding(woken: bool) | Asleep | Woken | Running(task: T) | Exited

  datatype Producer<T> = Idle | Locking(t: T) | HasLock(t: T) | Notifying

  datatype Stopper = NotYet | StopHasLock | StopNotifying | Stopped

  /** `accepted` and `handed` are the history: tasks accepted, and tasks popped, in order. */
  datatype State<T> = State(
    q: Queue<T>,
    lock: Holder,
    workers: seq<Worker<T>>,
    producers: seq<Producer<T>>,
    stopper: Stopper,
    accepted: seq<T>,
    handed: seq<T>
  )

  datatype Step<T> =
    | Submit(p: nat, t: T)
    | ProducerLock(p: nat)
    | ProducerPush(p: nat)
    | NotifyOne(p: nat, w: nat)
    | NotifyNobody(p: nat)
    | WorkerLock(w: nat)
    | WorkerCheck(w: nat)
    | Spurious(w: nat)
    | FinishTask(w: nat)
    | StopLock
    | StopSet
    | NotifyAll

  predicate Enabled<T>(s: State<T>, a: Step<T>) {
    match a
    case Submit(p, _) => p < |s.producers| && s.producers[p].Idle?
    case ProducerLock(p) => p < |s.producers| && s.producers[p].Locking? && s.lock.Free?
    case ProducerPush(p) => p < |s.producers| && s.producers[p].HasLock?
    case NotifyOne(p, w) => p < |s.producers| && s.producers[p].Notifying? && w < |s.workers| && s.workers[w].Asleep?
    case NotifyNobody(p) => p < |s.producers| && s.producers[p].Notifying? && NobodyAsleep(s.workers)
    case WorkerLock(w) => w < |s.workers| && (s.workers[w].Entering? || s.workers[w].Woken?) && s.lock.Free?
    case WorkerCheck(w) => w < |s.workers| && s.workers[w].Holding?
    case Spurious(w) => w < |s.workers| && s.workers[w].Asleep?
    case FinishTask(w) => w < |s.workers| && s.workers[w].Running?
    case StopLock => s.stopper.NotYet? && s.lock.Free?
    case StopSet => s.stopper.StopHasLock?
    case NotifyAll => s.stopper.StopNotifying?
  }

  predicate NobodyAsleep<T>(ws: seq<Worker<T>>) { forall i :: 0 <= i < |ws| ==> !ws[i].Asleep? }

  function WakeAll<T>(ws: seq<Worker<T>>): (r: seq<Worker<T>>)
    ensures |r| == |ws|
    ensures forall i :: 0 <= i < |ws| ==> r[i] == if ws[i].Asleep? then Woken else ws[i]
  {
    seq(|ws|, i requires 0 <= i < |ws| => if ws[i].Asleep? then Woken else ws[i])
  }

  function Apply<T>(s: State<T>, a: Step<T>): State<T>
    requires Enabled(s, a)
  {
    match a
    case Submit(p, t) => s.(producers := s.producers[p := Locking(t)])
    case ProducerLock(p) => s.(producers := s.producers[p := HasLock(s.producers[p].t)], lock := ByProducer(p))
    case ProducerPush(p) =>
      var t := s.producers[p].t;
      var (q, ok) := Pushed(s.q, t);
      s.(q := q, lock := Free, accepted := if ok then s.accepted + [t] else s.accepted,
      producers := s.producers[p := if ok then Notifying else Idle])
    case NotifyOne(p, w) => s.(producers := s.producers[p := Idle], workers := s.workers[w := Woken])
    case NotifyNobody(p) => s.(producers := s.producers[p := Idle])
    case WorkerLock(w) => s.(workers := s.workers[w := Holding(s.workers[w].Woken?)], lock := ByWorker(w))
    case WorkerCheck(w) => (
      // waiting releases the lock and falls asleep in one step
      match Popped(s.q)
      case (_, Nothing) => s.(lock := Free, workers := s.workers[w := Asleep])
      case (_, Finished) => s.(lock := Free, workers := s.workers[w := Exited])
      case (q, Task(t)) => s.(q := q, lock := Free, workers := s.workers[w := Running(t)], handed := s.handed + [t]))
    case Spurious(w) => s.(workers := s.workers[w := Woken])
    case FinishTask(w) => s.(workers := s.workers[w := Entering])
    case StopLock => s.(stopper := StopHasLock, lock := ByStopper)
    case StopSet => s.(q := s.q.(shutdown := true), stopper := StopNotifying, lock := Free)
    case NotifyAll => s.(stopper := Stopped, workers := WakeAll(s.workers))
  }

  function Start<T>(workers: nat, producers: nat): State<T> {
    State(Queue([], false, 0), Free, seq(workers, i => Entering), seq(producers, i => Idle), NotYet, [], [])
  }

  // ------------------------------------------------------------ what is kept

  /** Notifications still to be delivered. */
  function Pending<T>(ps: seq<Producer<T>>): nat {
    if ps == [] then 0 else Pending(ps[..|ps| - 1]) + if ps[|ps| - 1].Notifying? then 1 else 0
  }

  /** Workers that have been woken and have not looked at the queue since. */
  function WokenCount<T>(ws: seq<Worker<T>>): nat {
    if ws == [] then 0 else WokenCount(ws[..|ws| - 1]) + if IsWoken(ws[|ws| - 1]) then 1 else 0
  }

  predicate IsWoken<T>(w: Worker<T>) { w.Woken? || w == Holding(true) }

  lemma {:induction false} PendingUpdate<T>(ps: seq<Producer<T>>, i: nat, p: Producer<T>)
    requires i < |ps|
    ensures Pending(ps[i := p]) == Pending(ps) - (if ps[i].Notifying? then 1 else 0) + if p.Notifying? then 1 else 0
  {
    var n := |ps| - 1;
    if i == n {
      assert ps[i := p][..n] == ps[..n];
    } else {
      PendingUpdate(ps[..n], i, p);
      assert ps[i := p][..n] == ps[..n][i := p];
    }
  }

  lemma {:induction false} WokenUpdate<T>(ws: seq<Worker<T>>, i: nat, w: Worker<T>)
    requires i < |ws|
    ensures WokenCount(ws[i := w]) == WokenCount(ws) - (if IsWoken(ws[i]) then 1 else 0) + if IsWoken(w) then 1 else 0
  {
    var n := |ws| - 1;
    if i == n {
      assert ws[i := w][..n] == ws[..n];
    } else {
      WokenUpdate(ws[..n], i, w);
      assert ws[i := w][..n] == ws[..n][i := w];
    }
  }

  /** The lock is held by exactly the thread that thinks so. */
  predicate Exclusive<T>(s: State<T>) {
    && (forall i: nat :: i < |s.workers| ==> (s.workers[i].Holding? <==> s.lock == ByWorker(i)))
    && (forall i: nat :: i < |s.producers| ==> (s.producers[i].HasLock? <==> s.lock == ByProducer(i)))
    && (s.stopper.StopHasLock? <==> s.lock == ByStopper)
    && (s.lock.ByWorker? ==> s.lock.w < |s.workers|)
    && (s.lock.ByProducer? ==> s.lock.p < |s.producers|)
  }

  /** If anybody sleeps, the queued tasks are covered by notifications on their way and workers just woken. */
  predicate NoLostWakeup<T>(s: State<T>) {
    !NobodyAsleep(s.workers) ==> |s.q.tasks| <= Pending(s.producers) + WokenCount(s.workers)
  }

  predicate ShutdownOrder<T>(s: State<T>) {
    && (s.q.shutdown <==> s.stopper.StopNotifying? || s.stopper.Stopped?)
    && (s.stopper.Stopped? ==> NobodyAsleep(s.workers))
    && (forall i :: 0 <= i < |s.workers| && s.workers[i].Exited? ==> s.q.shutdown && s.q.tasks == [])
  }

  /** Tasks leave in the order they were accepted, none lost, none twice. */
  predicate Fifo<T(==)>(s: State<T>) {
    s.accepted == s.handed + s.q.tasks && |s.q.tasks| <= s.q.highWater
  }

  predicate Inv<T(==)>(s: State<T>) { Exclusive(s) && NoLostWakeup(s) && ShutdownOrder(s) && Fifo(s) }

  lemma StartInv<T>(workers: nat, producers: nat)
    ensures Inv(Start<T>(workers, producers))
  {
  }

  lemma ApplyExclusive<T>(s: State<T>, a: Step<T>)
    requires Exclusive(s) && Enabled(s, a)
    ensures Exclusive(Apply(s, a))
  {
  }

  lemma ApplyShutdownOrder<T>(s: State<T>, a: Step<T>)
    requires ShutdownOrder(s) && Enabled(s, a)
    ensures ShutdownOrder(Apply(s, a))
  {
  }

  lemma ApplyFifo<T>(s: State<T>, a: Step<T>)
    requires Fifo(s) && Enabled(s, a)
    ensures Fifo(Apply(s, a))
  {
    if a.WorkerCheck? && s.q.tasks != [] {
      assert s.handed + s.q.tasks == (s.handed + [s.q.tasks[0]]) + s.q.tasks[1..];
    }
  }

  lemma ApplyNoLostWakeup<T>(s: State<T>, a: Step<T>)
    requires NoLostWakeup(s) && ShutdownOrder(s) && Enabled(s, a)
    ensures NoLostWakeup(Apply(s, a))
  {
    var s' := Apply(s, a);
    hide Pending, WokenCount;
    match a
    case Submit(p, t) => PendingUpdate(s.producers, p, s'.producers[p]);
    case ProducerLock(p) => PendingUpdate(s.producers, p, s'.producers[p]);
    case ProducerPush(p) => PendingUpdate(s.producers, p, s'.producers[p]);
    case NotifyOne(p, w) => PendingUpdate(s.producers, p, Idle); WokenUpdate(s.workers, w, Woken);
    case NotifyNobody(p) =>
    case WorkerLock(w) => WokenUpdate(s.workers, w, s'.workers[w]);
    case WorkerCheck(w) => WokenUpdate(s.workers, w, s'.workers[w]);
    case Spurious(w) => WokenUpdate(s.workers, w, Woken);
    case FinishTask(w) => WokenUpdate(s.workers, w, Entering);
    case StopLock =>
    case StopSet =>
    case NotifyAll =>
  }

  // -------------------------------------------------------------------- runs

  predicate ValidRun<T>(s: State<T>, run: seq<Step<T>>)
    decreases |run|
  {
    run == [] || (Enabled(s, run[0]) && ValidRun(Apply(s, run[0]), run[1..]))
  }

  function End<T>(s: State<T>, run: seq<Step<T>>): State<T>
    requires ValidRun(s, run)
    decreases |run|
  {
    if run == [] then s else End(Apply(s, run[0]), run[1..])
  }

  lemma {:induction false} RunInv<T>(s: State<T>, run: seq<Step<T>>)
    requires Inv(s) && ValidRun(s, run)
    ensures Inv(End(s, run))
    decreases |run|
  {
    hide Inv, Exclusive, NoLostWakeup, ShutdownOrder, Fifo;
    if run != [] {
      ApplyInv(s, run[0]);
      RunInv(Apply(s, run[0]), run[1..]);
    }
  }

  lemma ApplyInv<T>(s: State<T>, a: Step<T>)
    requires Inv(s) && Enabled(s, a)
    ensures Inv(Apply(s, a))
  {
    hide Exclusive, NoLostWakeup, ShutdownOrder, Fifo, Apply;
    ApplyExclusive(s, a);
    ApplyNoLostWakeup(s, a);
    ApplyShutdownOrder(s, a);
    ApplyFifo(s, a);
  }

  /**
   In every reachable state: a sleeping worker never coexists with more tasks than wake-ups under way; once the
   stopper is done nobody sleeps; tasks are handed out in order without loss; and when a worker has exited, every
   accepted task has been handed out.
   */
  lemma QueueSafety<T>(workers: nat, producers: nat, run: seq<Step<T>>)
    requires ValidRun(Start<T>(workers, producers), run)
    ensures var s := End(Start<T>(workers, producers), run);
            && NoLostWakeup(s)
            && (s.stopper.Stopped? ==> NobodyAsleep(s.workers))
            && s.accepted == s.handed + s.q.tasks
            && (forall i :: 0 <= i < |s.workers| && s.workers[i].Exited? ==> s.handed == s.accepted)
  {
    StartInv<T>(workers, producers);
    RunInv(Start<T>(workers, producers), run);
    var s := End(Start<T>(workers, producers), run);
    assert s.q.tasks == [] ==> s.handed + s.q.tasks == s.handed;
  }

  /** Tasks and nobody about to look at them: then a notification is on its way. */
  lemma {:induction false} NothingWoken<T>(ws: seq<Worker<T>>)
    requires forall i :: 0 <= i < |ws| ==> !IsWoken(ws[i])
    ensures WokenCount(ws) == 0
  {
    if ws != [] { NothingWoken(ws[..|ws| - 1]); }
  }

  lemma StuckNever<T>(s: State<T>)
    requires Inv(s) && s.q.tasks != [] && s.workers != []
    requires forall i :: 0 <= i < |s.workers| ==> s.workers[i].Asleep? || s.workers[i].Running? || s.workers[i].Exited?
    requires !NobodyAsleep(s.workers)
    ensures Pending(s.producers) >= |s.q.tasks|
    ensures !s.stopper.Stopped?
  {
    NothingWoken(s.workers);
  }

  // ---------------------------------------------------------------- draining

  /** How many more steps a worker takes, beyond those for tasks still queued. */
  function WorkerLeft<T>(w: Worker<T>): nat {
    match w
    case Running(_) => 3
    case Entering => 2
    case Woken => 2
    case Holding(_) => 1
    case Asleep => 0
    case Exited => 0
  }

  function ProducerLeft<T>(p: Producer<T>): nat {
    match p
    case Idle => 0
    case Locking(_) => 2
    case HasLock(_) => 1
    case Notifying => 1
  }

  function WorkersLeft<T>(ws: seq<Worker<T>>): nat {
    if ws == [] then 0 else WorkersLeft(ws[..|ws| - 1]) + WorkerLeft(ws[|ws| - 1])
  }

  function ProducersLeft<T>(ps: seq<Producer<T>>): nat {
    if ps == [] then 0 else ProducersLeft(ps[..|ps| - 1]) + ProducerLeft(ps[|ps| - 1])
  }

  /** The steps left after the stop: three for every queued task, and what every thread is in the middle of. */
  function Left<T>(s: State<T>): nat { 3 * |s.q.tasks| + WorkersLeft(s.workers) + ProducersLeft(s.producers) }

  lemma {:induction false} WorkersLeftUpdate<T>(ws: seq<Worker<T>>, i: nat, w: Worker<T>)
    requires i < |ws|
    ensures WorkersLeft(ws[i := w]) == WorkersLeft(ws) - WorkerLeft(ws[i]) + WorkerLeft(w)
  {
    hide WorkerLeft;
    var n := |ws| - 1;
    if i == n {
      assert ws[i := w][..n] == ws[..n];
    } else {
      WorkersLeftUpdate(ws[..n], i, w);
      assert ws[i := w][..n] == ws[..n][i := w];
    }
  }

  lemma {:induction false} ProducersLeftUpdate<T>(ps: seq<Producer<T>>, i: nat, p: Producer<T>)
    requires i < |ps|
    ensures ProducersLeft(ps[i := p]) == ProducersLeft(ps) - ProducerLeft(ps[i]) + ProducerLeft(p)
  {
    hide ProducerLeft;
    var n := |ps| - 1;
    if i == n {
      assert ps[i := p][..n] == ps[..n];
    } else {
      ProducersLeftUpdate(ps[..n], i, p);
      assert ps[i := p][..n] == ps[..n][i := p];
    }
  }

  /** After the stop every step but a new submission uses up one of the steps left. */
  lemma StepDrains<T>(s: State<T>, a: Step<T>)
    requires ShutdownOrder(s) && s.stopper.Stopped? && Enabled(s, a) && !a.Submit?
    ensures Apply(s, a).stopper.Stopped? && Left(Apply(s, a)) < Left(s)
  {
    hide WorkersLeft, ProducersLeft;
    var s' := Apply(s, a);
    match a
    case ProducerLock(p) => ProducersLeftUpdate(s.producers, p, s'.producers[p]);
    case ProducerPush(p) => ProducersLeftUpdate(s.producers, p, s'.producers[p]);
    case NotifyNobody(p) => ProducersLeftUpdate(s.producers, p, Idle);
    case WorkerLock(w) => WorkersLeftUpdate(s.workers, w, s'.workers[w]);
    case WorkerCheck(w) => WorkersLeftUpdate(s.workers, w, s'.workers[w]);
    case FinishTask(w) => WorkersLeftUpdate(s.workers, w, Entering);
    case _ =>
  }

  predicate NoSubmit<T>(run: seq<Step<T>>) { forall i :: 0 <= i < |run| ==> !run[i].Submit? }

  /** So the drain ends: no run from a stopped state is longer than the steps left, new submissions aside. */
  lemma {:induction false} DrainIsBounded<T>(s: State<T>, run: seq<Step<T>>)
    requires Inv(s) && s.stopper.Stopped? && ValidRun(s, run) && NoSubmit(run)
    ensures |run| + Left(End(s, run)) <= Left(s) && End(s, run).stopper.Stopped?
    decreases |run|
  {
    hide Exclusive, NoLostWakeup, Fifo, Enabled, Apply, Left;
    if run != [] {
      assert !run[0].Submit?;
      StepDrains(s, run[0]);
      ApplyInv(s, run[0]);
      DrainIsBounded(Apply(s, run[0]), run[1..]);
    }
  }

  /** No thread can take a step, new submissions aside. */
  ghost predicate Quiescent<T(!new)>(s: State<T>) { forall a: Step<T> :: Enabled(s, a) ==> a.Submit? }

  lemma HolderMoves<T(!new)>(s: State<T>)
    requires Exclusive(s) && Quiescent(s)
    ensures s.lock.Free?
  {
    assert s.lock.ByWorker? ==> !Enabled(s, Step<T>.WorkerCheck(s.lock.w));
    assert s.lock.ByProducer? ==> !Enabled(s, Step<T>.ProducerPush(s.lock.p));
    assert !Enabled(s, Step<T>.StopSet);
  }

  /** And it ends well: when no step is left every worker has exited, so that joining returns, and every accepted task has been handed out. */
  lemma DrainIsComplete<T(!new)>(s: State<T>)
    requires Inv(s) && s.stopper.Stopped? && Quiescent(s) && s.workers != []
    ensures (forall i :: 0 <= i < |s.workers| ==> s.workers[i].Exited?) && s.handed == s.accepted && s.q.tasks == []
  {
    HolderMoves(s);
    forall i | 0 <= i < |s.workers| ensures s.workers[i].Exited? {
      assert !Enabled(s, Step<T>.WorkerLock(i)) && !Enabled(s, Step<T>.FinishTask(i)) && !Enabled(s, Step<T>.WorkerCheck(i));
    }
    assert s.workers[0].Exited?;
    assert s.handed + [] == s.handed;
  }

  /**
   Shutdown, over every run: from any state reached in which the stopper is done, every continuation without new
   submissions is bounded, and where it can go no further all workers have exited and every accepted task was handed out.
   */
  lemma ShutdownDrains<T(!new)>(workers: nat, producers: nat, run: seq<Step<T>>, drain: seq<Step<T>>)
    requires ValidRun(Start<T>(workers, producers), run)
    requires var s := End(Start<T>(workers, producers), run); s.stopper.Stopped? && ValidRun(s, drain) && NoSubmit(drain)
    ensures var s := End(Start<T>(workers, producers), run);
            var t := End(s, drain);
            && |drain| <= Left(s)
            && (Quiescent(t) && t.workers != [] ==>
                  (forall i :: 0 <= i < |t.workers| ==> t.workers[i].Exited?) && t.handed == t.accepted && t.q.tasks == [])
  {
    hide Inv, Quiescent, NoSubmit, ValidRun, End, Start, Left;
    StartInv<T>(workers, producers);
    RunInv(Start<T>(workers, producers), run);
    var s := End(Start<T>(workers, producers), run);
    DrainIsBounded(s, drain);
    RunInv(s, drain);
    if Quiescent(End(s, drain)) && End(s, drain).workers != [] { DrainIsComplete(End(s, drain)); }
  }

  // ------------------------------------------------------- what is accepted

  /** The tasks carried by the pushes taken before the stop, in order, read off the steps of a run alone; `held` is what producers carry. */
  function PushedTasks<T>(run: seq<Step<T>>, held: map<nat, T>, stopped: bool): seq<T>
    decreases |run|
  {
    if run == [] then []
    else
      match run[0]
      case Submit(p, t) => PushedTasks(run[1..], held[p := t], stopped)
      case ProducerPush(p) =>
        (if !stopped && p in held then [held[p]] else []) + PushedTasks(run[1..], held, stopped)
      case StopSet => PushedTasks(run[1..], held, true)
      case _ => PushedTasks(run[1..], held, stopped)
  }

  /** The largest length the queue has along a run. */
  function Longest<T>(s: State<T>, run: seq<Step<T>>): nat
    requires ValidRun(s, run)
    decreases |run|
  {
    if run == [] then |s.q.tasks| else Max(|s.q.tasks|, Longest(Apply(s, run[0]), run[1..]))
  }

  function Max(a: nat, b: nat): nat { if a >= b then a else b }

  /** Producers carry what they submitted last. */
  predicate Carried<T(==)>(s: State<T>, held: map<nat, T>) {
    forall p: nat :: p < |s.producers| && (s.producers[p].Locking? || s.producers[p].HasLock?) ==>
      p in held && held[p] == s.producers[p].t
  }

  /** What one step adds to the tasks accepted, and to what producers carry. */
  lemma StepAccepts<T>(s: State<T>, a: Step<T>, held: map<nat, T>)
    requires Enabled(s, a) && Carried(s, held)
    ensures var s' := Apply(s, a);
            && Carried(s', if a.Submit? then held[a.p := a.t] else held)
            && s'.q.shutdown == (s.q.shutdown || a.StopSet?)
            && (a.ProducerPush? ==> a.p in held && s'.accepted == s.accepted + if s.q.shutdown then [] else [held[a.p]])
            && (!a.ProducerPush? ==> s'.accepted == s.accepted)
  {
  }

  lemma {:induction false} AcceptedFrom<T>(s: State<T>, run: seq<Step<T>>, held: map<nat, T>)
    requires ValidRun(s, run) && Carried(s, held)
    ensures End(s, run).accepted == s.accepted + PushedTasks(run, held, s.q.shutdown)
    decreases |run|
  {
    hide Enabled, Apply, Carried;
    if run != [] {
      var a := run[0];
      StepAccepts(s, a, held);
      AcceptedFrom(Apply(s, a), run[1..], if a.Submit? then held[a.p := a.t] else held);
    }
  }

  lemma StepHighWater<T>(s: State<T>, a: Step<T>)
    requires Enabled(s, a) && |s.q.tasks| <= s.q.highWater
    ensures var s' := Apply(s, a); s'.q.highWater == Max(s.q.highWater, |s'.q.tasks|)
  {
  }

  lemma {:induction false} HighWaterFrom<T>(s: State<T>, run: seq<Step<T>>)
    requires ValidRun(s, run) && |s.q.tasks| <= s.q.highWater
    ensures End(s, run).q.highWater == Max(s.q.highWater, Longest(s, run))
    decreases |run|
  {
    hide Enabled, Apply;
    if run != [] {
      StepHighWater(s, run[0]);
      HighWaterFrom(Apply(s, run[0]), run[1..]);
    }
  }

  /**
   Over every run the tasks accepted are those carried by the pushes taken before the stop, all of them, in order; and
   the high-water mark is the largest length the queue has had.
   */
  lemma AcceptedArePushed<T>(workers: nat, producers: nat, run: seq<Step<T>>)
    requires ValidRun(Start<T>(workers, producers), run)
    ensures var s := End(Start<T>(workers, producers), run);
            && s.handed + s.q.tasks == PushedTasks(run, map[], false)
            && s.q.highWater == Longest(Start<T>(workers, producers), run)
  {
    hide ValidRun, End, PushedTasks, Longest;
    var start := Start<T>(workers, producers);
    AcceptedFrom(start, run, map[]);
    HighWaterFrom(start, run);
    hide Start;
    QueueSafety<T>(workers, producers, run);
    assert [] + PushedTasks(run, map[], false) == PushedTasks(run, map[], false);
  }
}
