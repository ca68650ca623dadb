/**
 What every run leaves behind: descriptors are given back, connections end exactly when that was decided,
 events are served in the order they were reported, and unread bytes are forgotten by reading alone.
 */
module ConnHistory {
  import opened ConnMachine
  import ConnProgress

  // ------------------------------------------------- descriptors are given back

  /** The connection is live, but its socket has been closed already. */
  ghost predicate Shut(s: State, c: ConnId) {
    || ((s.acceptor.FailUncounting? || s.acceptor.FailDeleting?) && s.acceptor.conn == c)
    || exists w :: 0 <= w < |s.workers| && (s.workers[w] == Uncounting(c) || s.workers[w] == Deleting(c))
  }

  /** Somebody will close the descriptor: the epoll thread that has just accepted it, or the connection made for it. */
  ghost predicate Held(s: State, fd: Fd) {
    s.acceptor == GotFd(fd) || exists c :: c in s.conns && s.conns[c].fd == fd && !Shut(s, c)
  }

  /** The same by stages. */
  predicate HasFd(s: State, c: ConnId, fd: Fd) {
    c in s.conns && c in s.stage && s.conns[c].fd == fd && IsOpen(s.stage[c])
  }

  ghost predicate Kept(s: State, fd: Fd) { s.acceptor == GotFd(fd) || exists c :: HasFd(s, c, fd) }

  ghost predicate NoneLost(s: State) { forall fd :: fd in s.open ==> Kept(s, fd) }

  lemma ShutStage(s: State, c: ConnId)
    requires AcceptorOk(s.acceptor, s.stage) && WorkersOk(s.workers, s.stage) && c in s.stage
    ensures Shut(s, c) <==> !IsOpen(s.stage[c])
  {
    if s.stage[c].Closed? || s.stage[c].Uncounted? {
      assert s.workers[s.stage[c].w] == Uncounting(c) || s.workers[s.stage[c].w] == Deleting(c);
    }
    if w :| 0 <= w < |s.workers| && (s.workers[w] == Uncounting(c) || s.workers[w] == Deleting(c)) {
      assert s.stage[s.workers[w].conn] == WorkerStage(s.workers[w], w);
    }
  }

  lemma KeptIsHeld(s: State, fd: Fd)
    requires Inv(s)
    ensures Kept(s, fd) <==> Held(s, fd)
  {
    hide SeqOk, KernelOk, ReadyOk, CountOk, PeakOk, Shut, IsOpen, AcceptorOk, WorkersOk;
    assert s.conns.Keys == s.stage.Keys;
    if c :| HasFd(s, c, fd) { ShutStage(s, c); }
    if c :| c in s.conns && s.conns[c].fd == fd && !Shut(s, c) {
      ShutStage(s, c);
      assert HasFd(s, c, fd);
    }
  }

  lemma WorkerLeavesFd(s: State, w: nat, k: WorkerStep, c: ConnId, fd: Fd)
    requires Inv(s) && w < |s.workers| && WorkerEnabled(s, w, k) && WorkerSound(s, w, k) && HasFd(s, c, fd)
    ensures var t := WorkerDone(s, w, k); fd in t.open ==> HasFd(t, c, fd)
  {
    hide Inv, WorkerEnabled, WorkerSound, WorkerDone, HasFd;
    match k
    case Pop => ServingLeavesFd(s, w, k, c, fd);
    case Drain => ServingLeavesFd(s, w, k, c, fd);
    case DecideArm => ServingLeavesFd(s, w, k, c, fd);
    case DecideClose => ServingLeavesFd(s, w, k, c, fd);
    case ModOk => ServingLeavesFd(s, w, k, c, fd);
    case ModFails => ServingLeavesFd(s, w, k, c, fd);
    case _ => ClosingLeavesFd(s, w, k, c, fd);
  }

  lemma ServingLeavesFd(s: State, w: nat, k: WorkerStep, c: ConnId, fd: Fd)
    requires w < |s.workers| && WorkerEnabled(s, w, k) && WorkerSound(s, w, k) && HasFd(s, c, fd)
    requires k.Pop? || k.Drain? || k.DecideArm? || k.DecideClose? || k.ModOk? || k.ModFails?
    ensures HasFd(WorkerDone(s, w, k), c, fd)
  {
  }

  lemma ClosingLeavesFd(s: State, w: nat, k: WorkerStep, c: ConnId, fd: Fd)
    requires Inv(s) && w < |s.workers| && WorkerEnabled(s, w, k) && WorkerSound(s, w, k) && HasFd(s, c, fd)
    requires k.Unregister? || k.CloseFd? || k.Uncount? || k.Delete?
    ensures var t := WorkerDone(s, w, k); fd in t.open ==> HasFd(t, c, fd)
  {
    hide AcceptorOk, SeqOk, KernelOk, ReadyOk, FdOk, CountOk, PeakOk, WorkersOk;
    HeldByWorker(s.workers, s.stage, w);
  }

  lemma AcceptingLeavesFd(s: State, e: EpollStep, c: ConnId, fd: Fd)
    requires Inv(s) && EpollEnabled(s, e) && EpollSound(s, e) && !e.Deliver? && !e.Dispatch? && HasFd(s, c, fd)
    ensures var t := EpollDone(s, e); fd in t.open ==> HasFd(t, c, fd)
  {
    hide SeqOk, WorkersOk, KernelOk, ReadyOk, FdOk, CountOk, PeakOk;
  }

  lemma HandlingLeavesFd(s: State, e: EpollStep, c: ConnId, fd: Fd)
    requires Inv(s) && EpollEnabled(s, e) && EpollSound(s, e) && (e.Deliver? || e.Dispatch?) && HasFd(s, c, fd)
    ensures var t := EpollDone(s, e); fd in t.open ==> HasFd(t, c, fd)
  {
    hide AcceptorOk, WorkersOk, ReadyOk, FdOk, CountOk, PeakOk, SeqOk, KernelOk;
  }

  /** The descriptor the epoll thread has just accepted. */
  lemma AcceptedKept(s: State, e: EpollStep, fd: Fd)
    requires EpollEnabled(s, e) && EpollSound(s, e)
    requires s.acceptor == GotFd(fd) || (e.AcceptFd? && e.fd == fd) || (e.AcceptFd? && fd !in s.open)
    ensures var t := EpollDone(s, e); fd in t.open && (s.acceptor == GotFd(fd) ==> !e.NonblockFails?) ==> Kept(t, fd)
    ensures e.NonblockFails? && s.acceptor == GotFd(fd) ==> fd !in EpollDone(s, e).open
  {
    var t := EpollDone(s, e);
    if e.MakeConn? { assert HasFd(t, e.conn, fd); }
  }

  lemma EpollLosesNone(s: State, e: EpollStep)
    requires Inv(s) && NoneLost(s) && EpollEnabled(s, e) && EpollSound(s, e)
    ensures NoneLost(EpollDone(s, e))
  {
    hide Inv, EpollEnabled, EpollSound, EpollDone, HasFd;
    var t := EpollDone(s, e);
    forall fd | fd in t.open ensures Kept(t, fd) {
      OpensOne(s, e, fd);
      if s.acceptor == GotFd(fd) || fd !in s.open {
        AcceptedKept(s, e, fd);
      } else {
        var c :| HasFd(s, c, fd);
        if e.Deliver? || e.Dispatch? { HandlingLeavesFd(s, e, c, fd); } else { AcceptingLeavesFd(s, e, c, fd); }
      }
    }
  }

  lemma OpensOne(s: State, e: EpollStep, fd: Fd)
    requires EpollEnabled(s, e) && EpollSound(s, e)
    ensures fd in EpollDone(s, e).open && fd !in s.open ==> e.AcceptFd? && e.fd == fd
  {
    hide EpollEnabled, EpollSound, EpollDone;
    if e.CompareExchange? {
      ExchangeDone(s, e);
    } else if Accepting(e) {
      AcceptingOpens(s, e, fd);
    } else {
      HandlingOpens(s, e, fd);
    }
  }

  lemma AcceptingOpens(s: State, e: EpollStep, fd: Fd)
    requires EpollEnabled(s, e) && EpollSound(s, e) && Accepting(e)
    ensures fd in EpollDone(s, e).open && fd !in s.open ==> e.AcceptFd? && e.fd == fd
  {
  }

  lemma HandlingOpens(s: State, e: EpollStep, fd: Fd)
    requires EpollEnabled(s, e) && EpollSound(s, e) && !Accepting(e) && !e.CompareExchange?
    ensures fd in EpollDone(s, e).open ==> fd in s.open
  {
  }

  lemma WorkerLosesNone(s: State, w: nat, k: WorkerStep)
    requires Inv(s) && NoneLost(s) && w < |s.workers| && WorkerEnabled(s, w, k) && WorkerSound(s, w, k)
    ensures NoneLost(WorkerDone(s, w, k))
  {
    hide Inv, WorkerEnabled, WorkerSound, HasFd;
    var t := WorkerDone(s, w, k);
    OpensNone(s, w, k);
    hide WorkerDone;
    forall fd | fd in t.open ensures Kept(t, fd) {
      if s.acceptor != GotFd(fd) {
        var c :| HasFd(s, c, fd);
        WorkerLeavesFd(s, w, k, c, fd);
      }
    }
  }

  lemma OpensNone(s: State, w: nat, k: WorkerStep)
    requires w < |s.workers| && WorkerEnabled(s, w, k) && WorkerSound(s, w, k)
    ensures WorkerDone(s, w, k).open.Keys <= s.open.Keys && WorkerDone(s, w, k).acceptor == s.acceptor
  {
  }

  lemma StepLosesNone(s: State, a: Step)
    requires Inv(s) && NoneLost(s) && Enabled(s, a)
    ensures NoneLost(Apply(s, a))
  {
    hide Inv, EpollEnabled, EpollSound, EpollDone, WorkerEnabled, WorkerSound, WorkerDone;
    StepKeeps(s, a);
    match a
    case Outside(o) =>
      forall fd | fd in Apply(s, a).open ensures Kept(Apply(s, a), fd) {
        assert Kept(s, fd);
        if c :| HasFd(s, c, fd) { assert HasFd(Apply(s, a), c, fd); }
      }
    case Epoll(e) => EpollLosesNone(s, e);
    case OnWorker(w, k) => WorkerLosesNone(s, w, k);
  }

  lemma {:induction false} RunLosesNone(s: State, run: seq<Step>)
    requires Inv(s) && NoneLost(s) && ValidRun(s, run)
    ensures NoneLost(End(s, run))
    decreases |run|
  {
    hide Inv, Enabled, Apply, NoneLost;
    if run != [] {
      StepKeeps(s, run[0]);
      StepLosesNone(s, run[0]);
      RunLosesNone(Apply(s, run[0]), run[1..]);
    }
  }

  /**
   Over every run the open descriptors are exactly those of the connections not closed yet and the one just accepted;
   so none is ever lost, and once no connection is live and none is being accepted, none is open.
   */
  lemma DescriptorsReturned(workers: nat, run: seq<Step>)
    requires ValidRun(Start(workers), run)
    ensures var s := End(Start(workers), run);
      && (forall fd :: fd in s.open <==> Held(s, fd))
      && (s.conns.Keys == {} && !s.acceptor.GotFd? ==> s.open.Keys == {})
  {
    hide Inv, Held, Kept;
    StartInv(workers);
    RunKeeps(Start(workers), run);
    RunLosesNone(Start(workers), run);
    var s := End(Start(workers), run);
    forall fd ensures fd in s.open <==> Held(s, fd) {
      KeptIsHeld(s, fd);
      if Held(s, fd) { KeptIsOpen(s, fd); }
    }
    forall fd | fd in s.open && s.conns.Keys == {} ensures s.acceptor == GotFd(fd) { NoConns(s, fd); }
  }

  lemma KeptIsOpen(s: State, fd: Fd)
    requires Inv(s) && Kept(s, fd)
    ensures fd in s.open
  {
    hide AcceptorOk, SeqOk, WorkersOk, KernelOk, ReadyOk, CountOk, PeakOk;
    if c :| HasFd(s, c, fd) { OwnSocket(s, c); }
  }

  lemma NoConns(s: State, fd: Fd)
    requires Held(s, fd) && s.conns.Keys == {}
    ensures s.acceptor == GotFd(fd)
  {
  }

  // --------------------------------------------- connections end when decided

  /** The connection is freed, or whoever holds it is on the way to free it. */
  ghost predicate Ending(s: State, c: ConnId) {
    || c in s.freed
    || ((s.acceptor.FailClosing? || s.acceptor.FailUncounting? || s.acceptor.FailDeleting?) && s.acceptor.conn == c)
    || exists w :: 0 <= w < |s.workers| && Leaves(s.workers[w], c)
  }

  predicate Leaves(p: Worker, c: ConnId) {
    p == Unregistering(c) || p == Closing(c) || p == Uncounting(c) || p == Deleting(c)
  }

  /** The step decides to end the connection: the handler says so, or the kernel refuses to watch it. */
  predicate Decides(s: State, a: Step, c: ConnId) {
    || (a == Epoll(AddFails) && s.acceptor == Adding(c))
    || (a.OnWorker? && a.w < |s.workers| && a.k.DecideClose? && s.workers[a.w].Busy? && s.workers[a.w].conn == c)
    || (a.OnWorker? && a.w < |s.workers| && a.k.ModFails? && s.workers[a.w] == Arming(c))
  }

  predicate DecidedIn(s: State, run: seq<Step>, c: ConnId)
    requires ValidRun(s, run)
    decreases |run|
  {
    run != [] && (Decides(s, run[0], c) || DecidedIn(Apply(s, run[0]), run[1..], c))
  }

  /** The same by stages. */
  predicate EndStage(st: Stage) {
    st.AddFailed? || st.FailedClosed? || st.FailedUncounted? || st.BeforeDel? || st.BeforeClose? || st.Closed? || st.Uncounted?
  }

  predicate Doomed(s: State, c: ConnId) { c in s.freed || (c in s.stage && EndStage(s.stage[c])) }

  lemma EndingStage(s: State, c: ConnId)
    requires Inv(s)
    ensures Ending(s, c) <==> Doomed(s, c)
  {
    hide SeqOk, KernelOk, ReadyOk, FdOk, CountOk, PeakOk;
    if c in s.stage && OfWorker(s.stage[c]) && EndStage(s.stage[c]) {
      assert Leaves(s.workers[s.stage[c].w], c);
    }
    if w :| 0 <= w < |s.workers| && Leaves(s.workers[w], c) {
      assert s.stage[s.workers[w].conn] == WorkerStage(s.workers[w], w);
    }
  }

  lemma ServingDooms(s: State, w: nat, k: WorkerStep, c: ConnId)
    requires Inv(s) && w < |s.workers| && WorkerEnabled(s, w, k) && WorkerSound(s, w, k)
    requires k.Drain? || k.DecideArm? || k.DecideClose? || k.ModOk? || k.ModFails?
    ensures Doomed(WorkerDone(s, w, k), c) <==> Doomed(s, c) || Decides(s, OnWorker(w, k), c)
  {
    hide Inv;
    WorkerAt(s, w);
  }

  lemma WorkerAt(s: State, w: nat)
    requires Inv(s) && w < |s.workers| && !s.workers[w].Resting?
    ensures s.workers[w].conn in s.stage && s.stage[s.workers[w].conn] == WorkerStage(s.workers[w], w)
  {
    hide AcceptorOk, SeqOk, KernelOk, ReadyOk, FdOk, CountOk, PeakOk, WorkersOk;
    HeldByWorker(s.workers, s.stage, w);
  }

  lemma PopDooms(s: State, w: nat, c: ConnId)
    requires Inv(s) && w < |s.workers| && WorkerEnabled(s, w, Pop) && WorkerSound(s, w, Pop)
    ensures Doomed(WorkerDone(s, w, Pop), c) <==> Doomed(s, c)
  {
    hide AcceptorOk, SeqOk, KernelOk, ReadyOk, FdOk, CountOk, PeakOk, WorkersOk;
    HeldInSeq(s.queue, s.stage, InQueue, 0);
  }

  lemma ClosingDooms(s: State, w: nat, k: WorkerStep, c: ConnId)
    requires Inv(s) && w < |s.workers| && WorkerEnabled(s, w, k) && WorkerSound(s, w, k)
    requires k.Unregister? || k.CloseFd? || k.Uncount? || k.Delete?
    ensures Doomed(WorkerDone(s, w, k), c) <==> Doomed(s, c)
  {
    hide AcceptorOk, SeqOk, KernelOk, ReadyOk, FdOk, CountOk, PeakOk, WorkersOk;
    HeldByWorker(s.workers, s.stage, w);
  }

  lemma AcceptingDooms(s: State, e: EpollStep, c: ConnId)
    requires Inv(s) && EpollEnabled(s, e) && EpollSound(s, e) && Accepting(e)
    ensures Doomed(EpollDone(s, e), c) <==> Doomed(s, c) || Decides(s, Epoll(e), c)
  {
    hide AcceptorOk, SeqOk, WorkersOk, KernelOk, ReadyOk, FdOk, CountOk, PeakOk;
    if e.MakeConn? { NotBorn(s, e.conn); }
    if !s.acceptor.Idle? && !s.acceptor.GotFd? { AcceptorAt(s); }
  }

  lemma AcceptorAt(s: State)
    requires Inv(s) && !s.acceptor.Idle? && !s.acceptor.GotFd?
    ensures s.acceptor.conn in s.stage && s.stage[s.acceptor.conn] == AcceptorStage(s.acceptor)
  {
    hide SeqOk, WorkersOk, KernelOk, ReadyOk, FdOk, CountOk, PeakOk;
  }

  lemma CountingDooms(s: State, e: EpollStep, c: ConnId)
    requires Inv(s) && EpollEnabled(s, e) && EpollSound(s, e)
    requires e.CountUp? || e.CompareExchange? || e.FailClose? || e.FailUncount? || e.FailDelete?
    ensures Doomed(EpollDone(s, e), c) <==> Doomed(s, c)
  {
    hide Inv;
    AcceptorAt(s);
    if e.CompareExchange? {
      ExchangeDone(s, e);
      hide EpollDone;
    }
  }

  lemma EventDooms(s: State, e: EpollStep, c: ConnId)
    requires Inv(s) && EpollEnabled(s, e) && EpollSound(s, e) && (e.Deliver? || e.WakeUp? || e.Dispatch? || e.BeginWait?)
    ensures Doomed(EpollDone(s, e), c) <==> Doomed(s, c)
  {
    hide AcceptorOk, WorkersOk, ReadyOk, FdOk, CountOk, PeakOk, KernelOk, SeqOk;
    if e.Deliver? { EntryOwner(s, e.fd); }
    if e.Dispatch? { HeldInSeq(s.batch, s.stage, InBatch, 0); }
  }

  /** One step: whoever was ending goes on ending, and only a decision makes another end. */
  lemma StepDooms(s: State, a: Step, c: ConnId)
    requires Inv(s) && Enabled(s, a)
    ensures Doomed(Apply(s, a), c) <==> Doomed(s, c) || Decides(s, a, c)
  {
    hide Inv, OutsideEnabled, EpollEnabled, EpollSound, EpollDone, WorkerEnabled, WorkerSound, WorkerDone, Doomed;
    StepKeeps(s, a);
    match a
    case Outside(o) => OutsideDooms(s, o, c);
    case Epoll(e) =>
      if Accepting(e) {
        AcceptingDooms(s, e, c);
      } else if e.Deliver? || e.WakeUp? || e.Dispatch? || e.BeginWait? {
        EventDooms(s, e, c);
      } else {
        CountingDooms(s, e, c);
      }
    case OnWorker(w, k) =>
      if k.Unregister? || k.CloseFd? || k.Uncount? || k.Delete? {
        ClosingDooms(s, w, k, c);
      } else if k.Pop? {
        PopDooms(s, w, c);
      } else {
        ServingDooms(s, w, k, c);
      }
  }

  lemma OutsideDooms(s: State, o: OutsideStep, c: ConnId)
    requires OutsideEnabled(s, o)
    ensures Doomed(OutsideDone(s, o), c) <==> Doomed(s, c)
  {
  }

  lemma {:induction false} RunDooms(s: State, run: seq<Step>, c: ConnId)
    requires Inv(s) && ValidRun(s, run)
    ensures Doomed(End(s, run), c) <==> Doomed(s, c) || DecidedIn(s, run, c)
    decreases |run|
  {
    hide Inv, Enabled, Apply, Doomed, Decides;
    if run != [] {
      StepKeeps(s, run[0]);
      StepDooms(s, run[0], c);
      RunDooms(Apply(s, run[0]), run[1..], c);
    }
  }

  /**
   Over every run a connection is freed, or on its way there, exactly when its end was decided; and wherever the
   program has come to rest, exactly those are freed.
   */
  lemma EndedIffDecided(workers: nat, run: seq<Step>, c: ConnId)
    requires ValidRun(Start(workers), run)
    ensures var s := End(Start(workers), run);
      && (Ending(s, c) <==> DecidedIn(Start(workers), run, c))
      && (ConnProgress.AtRest(s) ==> (c in s.freed <==> DecidedIn(Start(workers), run, c)))
  {
    hide Inv, Ending, Doomed, DecidedIn, ConnProgress.AtRest;
    StartInv(workers);
    RunKeeps(Start(workers), run);
    RunDooms(Start(workers), run, c);
    var s := End(Start(workers), run);
    NobodyDoomed(workers, c);
    EndingStage(s, c);
    if ConnProgress.AtRest(s) { RestFreed(s, c); }
  }

  lemma NobodyDoomed(workers: nat, c: ConnId)
    ensures !Doomed(Start(workers), c)
  {
  }

  lemma RestFreed(s: State, c: ConnId)
    requires Inv(s) && ConnProgress.AtRest(s)
    ensures Doomed(s, c) <==> c in s.freed
  {
    hide Inv, ConnProgress.AtRest;
    if c in s.stage { ConnProgress.AllArmed(s, c); }
  }

  // ----------------------------------------------------- events in their order

  /** The connections reported along a run, and those taken by workers, in order. */
  function Reported(s: State, run: seq<Step>): seq<ConnId>
    requires ValidRun(s, run)
    decreases |run|
  {
    if run == [] then [] else Reports(s, run[0]) + Reported(Apply(s, run[0]), run[1..])
  }

  function Reports(s: State, a: Step): seq<ConnId>
    requires Enabled(s, a)
  {
    if a.Epoll? && a.e.Deliver? then [s.interest[a.e.fd].conn] else []
  }

  function Taken(s: State, run: seq<Step>): seq<ConnId>
    requires ValidRun(s, run)
    decreases |run|
  {
    if run == [] then [] else Takes(s, run[0]) + Taken(Apply(s, run[0]), run[1..])
  }

  /** What a worker holds after it has taken a task. */
  function Takes(s: State, a: Step): seq<ConnId>
    requires Enabled(s, a)
  {
    if a.OnWorker? && a.k.Pop? then
      var t := Apply(s, a);
      if a.w < |t.workers| && t.workers[a.w].Busy? then [t.workers[a.w].conn] else []
    else []
  }

  lemma StepInOrder(s: State, a: Step)
    requires Inv(s) && Enabled(s, a)
    ensures var t := Apply(s, a); Takes(s, a) + (t.queue + t.batch) == (s.queue + s.batch) + Reports(s, a)
  {
    hide Inv, OutsideEnabled, EpollEnabled, EpollSound, EpollDone, WorkerEnabled, WorkerSound, WorkerDone;
    StepKeeps(s, a);
    match a
    case Outside(_) =>
    case Epoll(e) => EpollInOrder(s, e);
    case OnWorker(w, k) => WorkerInOrder(s, w, k);
  }

  lemma EpollInOrder(s: State, e: EpollStep)
    requires EpollEnabled(s, e) && EpollSound(s, e)
    ensures var t := EpollDone(s, e); t.queue + t.batch == (s.queue + s.batch) + if e.Deliver? then [s.interest[e.fd].conn] else []
  {
    hide EpollEnabled, EpollSound, EpollDone;
    if e.CompareExchange? {
      ExchangeDone(s, e);
    } else if Accepting(e) {
      AcceptingInOrder(s, e);
    } else {
      HandlingInOrder(s, e);
    }
  }

  lemma AcceptingInOrder(s: State, e: EpollStep)
    requires EpollEnabled(s, e) && EpollSound(s, e) && Accepting(e)
    ensures EpollDone(s, e).queue == s.queue && EpollDone(s, e).batch == s.batch
  {
  }

  lemma HandlingInOrder(s: State, e: EpollStep)
    requires EpollEnabled(s, e) && EpollSound(s, e) && !Accepting(e) && !e.CompareExchange?
    ensures var t := EpollDone(s, e); t.queue + t.batch == (s.queue + s.batch) + if e.Deliver? then [s.interest[e.fd].conn] else []
  {
    if e.Dispatch? { assert s.batch == [s.batch[0]] + s.batch[1..]; }
  }

  lemma WorkerInOrder(s: State, w: nat, k: WorkerStep)
    requires w < |s.workers| && WorkerEnabled(s, w, k) && WorkerSound(s, w, k)
    ensures var t := WorkerDone(s, w, k);
            && t.batch == s.batch
            && (if k.Pop? then w < |t.workers| && t.workers[w].Busy? && s.queue == [t.workers[w].conn] + t.queue else t.queue == s.queue)
  {
  }

  lemma {:induction false} RunInOrder(s: State, run: seq<Step>)
    requires Inv(s) && ValidRun(s, run)
    ensures Taken(s, run) + (End(s, run).queue + End(s, run).batch) == (s.queue + s.batch) + Reported(s, run)
    decreases |run|
  {
    hide Inv, Enabled, Apply, Takes, Reports;
    if run != [] {
      var t := Apply(s, run[0]);
      StepKeeps(s, run[0]);
      StepInOrder(s, run[0]);
      RunInOrder(t, run[1..]);
      var e := End(t, run[1..]);
      assert Takes(s, run[0]) + Taken(t, run[1..]) + (e.queue + e.batch) ==
             Takes(s, run[0]) + ((t.queue + t.batch) + Reported(t, run[1..]));
      assert Takes(s, run[0]) + ((t.queue + t.batch) + Reported(t, run[1..])) ==
             (Takes(s, run[0]) + (t.queue + t.batch)) + Reported(t, run[1..]);
    }
  }

  /** Over every run workers take connections in the order in which the kernel reported them, none lost and none twice. */
  lemma ServedInOrder(workers: nat, run: seq<Step>)
    requires ValidRun(Start(workers), run)
    ensures var s := End(Start(workers), run);
            Taken(Start(workers), run) + s.queue + s.batch == Reported(Start(workers), run)
  {
    hide Inv, Taken, Reported;
    StartInv(workers);
    RunInOrder(Start(workers), run);
    var s := End(Start(workers), run);
    assert Taken(Start(workers), run) + s.queue + s.batch == Taken(Start(workers), run) + (s.queue + s.batch);
    assert ([] + []) + Reported(Start(workers), run) == Reported(Start(workers), run);
  }

  // ---------------------------------------------------------------- unread bytes

  /** The step reads the socket of the descriptor dry. */
  predicate Empties(s: State, a: Step, fd: Fd) {
    && a.OnWorker? && a.k.Drain? && a.w < |s.workers| && s.workers[a.w].Busy?
    && s.workers[a.w].conn in s.conns && s.conns[s.workers[a.w].conn].fd == fd
  }

  /** Bytes become unread when they arrive, or come with the connection, and stop being so only by being read. */
  lemma UnreadUntilRead(s: State, a: Step, fd: Fd)
    requires Inv(s) && Enabled(s, a) && fd in Apply(s, a).open
    ensures Apply(s, a).open[fd].unread <==>
            || a == Outside(Arrive(fd))
            || a == Epoll(AcceptFd(fd, true))
            || (fd in s.open && s.open[fd].unread && !Empties(s, a, fd))
  {
    hide Inv, OutsideEnabled, OutsideDone, EpollEnabled, EpollSound, EpollDone, WorkerEnabled, WorkerSound, WorkerDone;
    StepKeeps(s, a);
    match a
    case Outside(o) => OutsideUnread(s, o, fd);
    case Epoll(e) => EpollUnread(s, e, fd);
    case OnWorker(w, k) => WorkerUnread(s, w, k, fd);
  }

  lemma OutsideUnread(s: State, o: OutsideStep, fd: Fd)
    requires OutsideEnabled(s, o) && fd in OutsideDone(s, o).open
    ensures fd in s.open && (OutsideDone(s, o).open[fd].unread <==> o == Arrive(fd) || s.open[fd].unread)
  {
  }

  lemma EpollUnread(s: State, e: EpollStep, fd: Fd)
    requires EpollEnabled(s, e) && EpollSound(s, e) && fd in EpollDone(s, e).open
    ensures EpollDone(s, e).open[fd].unread <==> e == AcceptFd(fd, true) || (fd in s.open && s.open[fd].unread)
  {
    hide EpollEnabled, EpollSound, EpollDone;
    if e.CompareExchange? {
      ExchangeDone(s, e);
    } else if Accepting(e) {
      AcceptingUnread(s, e, fd);
    } else {
      HandlingUnread(s, e, fd);
    }
  }

  lemma AcceptingUnread(s: State, e: EpollStep, fd: Fd)
    requires EpollEnabled(s, e) && EpollSound(s, e) && Accepting(e) && fd in EpollDone(s, e).open
    ensures EpollDone(s, e).open[fd].unread <==> e == AcceptFd(fd, true) || (fd in s.open && s.open[fd].unread)
  {
  }

  lemma HandlingUnread(s: State, e: EpollStep, fd: Fd)
    requires EpollEnabled(s, e) && EpollSound(s, e) && !Accepting(e) && !e.CompareExchange? && fd in EpollDone(s, e).open
    ensures fd in s.open && EpollDone(s, e).open[fd] == s.open[fd]
  {
  }

  lemma WorkerUnread(s: State, w: nat, k: WorkerStep, fd: Fd)
    requires w < |s.workers| && WorkerEnabled(s, w, k) && WorkerSound(s, w, k) && fd in WorkerDone(s, w, k).open
    ensures WorkerDone(s, w, k).open[fd].unread <==> fd in s.open && s.open[fd].unread && !Empties(s, OnWorker(w, k), fd)
  {
  }
}
