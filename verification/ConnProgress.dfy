/**
 No connection is forgotten: left to itself the program runs out of steps, whatever the schedule and whatever the
 kernel answers, and it does so exactly when it waits for events and every live connection waits for the network.
 */
module ConnProgress {
  import opened ConnMachine

  /**
   The program's own steps: nothing clients or the rest of the process do, no new connection, and no return from
   `epoll_wait` without an event of a connection, which only the listener and the clock bring about.
   */
  predicate Internal(s: State, a: Step) {
    || a.OnWorker?
    || (a.Epoll? && !a.e.AcceptFd? && (a.e.WakeUp? ==> s.batch != []))
  }

  /** One of them that changes something: not a failed retry of the compare-and-swap, nor a read that finds nothing. */
  predicate Moves(s: State, a: Step) { Internal(s, a) && Enabled(s, a) && Apply(s, a) != s }

  /** Nothing of the program can move. */
  ghost predicate Stuck(s: State) { forall a :: !Moves(s, a) }

  /** A run of moves only. */
  predicate AllMove(s: State, run: seq<Step>)
    decreases |run|
  {
    run == [] || (Moves(s, run[0]) && AllMove(Apply(s, run[0]), run[1..]))
  }

  /** The epoll thread waits for events, and every live connection waits for the network. */
  predicate AtRest(s: State) { s.waiting && forall c :: c in s.conns ==> Waits(s, c) }

  // ------------------------------------------------------------ work to be done

  /** The descriptors the kernel has to report. */
  function Reportable(interest: map<Fd, Interest>): set<Fd> {
    set fd | fd in interest && interest[fd].armed && interest[fd].ready
  }

  predicate HasUnread(conns: map<ConnId, Conn>, open: map<Fd, Socket>, c: ConnId) {
    c in conns && conns[c].fd in open && open[conns[c].fd].unread
  }

  function WorkerWork(p: Worker, conns: map<ConnId, Conn>, open: map<Fd, Socket>): nat {
    match p
    case Resting => 0
    case Busy(c, drained) => if !drained then 7 else if HasUnread(conns, open, c) then 14 else 6
    case Arming(c) => if HasUnread(conns, open, c) then 13 else 5
    case Unregistering(_) => 4
    case Closing(_) => 3
    case Uncounting(_) => 2
    case Deleting(_) => 1
  }

  function WorkersWork(ws: seq<Worker>, conns: map<ConnId, Conn>, open: map<Fd, Socket>): nat {
    if ws == [] then 0
    else WorkersWork(ws[..|ws| - 1], conns, open) + WorkerWork(ws[|ws| - 1], conns, open)
  }

  function AcceptorWork(a: Acceptor, peak: nat): nat {
    match a
    case Idle => 0
    case GotFd(_) => 18
    case Made(_) => 17
    case Counted(_, _) => 16
    case Raising(_, mine, prev) => if mine <= prev || peak == prev then 14 else 15
    case Adding(_) => 13
    case FailClosing(_) => 3
    case FailUncounting(_) => 2
    case FailDeleting(_) => 1
  }

  function LoopWork(s: State): nat { if !s.waiting then 1 else if s.batch == [] then 0 else 2 }

  /** A bound on the steps the program can still take by itself. */
  function Work(s: State): nat {
    12 * |Reportable(s.interest)| + 9 * |s.batch| + 8 * |s.queue| + WorkersWork(s.workers, s.conns, s.open)
    + AcceptorWork(s.acceptor, s.peak) + LoopWork(s)
  }

  lemma {:induction false} WorkersBound(ws: seq<Worker>, conns: map<ConnId, Conn>, open: map<Fd, Socket>)
    ensures WorkersWork(ws, conns, open) <= 14 * |ws|
  {
    if ws != [] { WorkersBound(ws[..|ws| - 1], conns, open); }
  }

  // ------------------------------------------------------------------ frames

  /** A worker that may still read its connection. */
  predicate Reading(p: Worker) { p.Busy? || p.Arming? }

  /** All other workers that read find what they found before. */
  predicate OthersSame(ws: seq<Worker>, w: nat, conns: map<ConnId, Conn>, open: map<Fd, Socket>,
                       conns': map<ConnId, Conn>, open': map<Fd, Socket>)
  {
    forall j :: 0 <= j < |ws| && j != w && Reading(ws[j]) ==> HasUnread(conns, open, ws[j].conn) == HasUnread(conns', open', ws[j].conn)
  }

  lemma {:induction false} WorkSame(ws: seq<Worker>, conns: map<ConnId, Conn>, open: map<Fd, Socket>,
                                    conns': map<ConnId, Conn>, open': map<Fd, Socket>)
    requires OthersSame(ws, |ws|, conns, open, conns', open')
    ensures WorkersWork(ws, conns', open') == WorkersWork(ws, conns, open)
  {
    hide HasUnread;
    if ws != [] {
      var n := |ws| - 1;
      assert ws[n] == ws[|ws| - 1];
      WorkSame(ws[..n], conns, open, conns', open');
    }
  }

  lemma {:induction false} WorkChange(ws: seq<Worker>, w: nat, p: Worker, conns: map<ConnId, Conn>, open: map<Fd, Socket>,
                                      conns': map<ConnId, Conn>, open': map<Fd, Socket>)
    requires w < |ws| && OthersSame(ws, w, conns, open, conns', open')
    ensures WorkersWork(ws[w := p], conns', open') ==
            WorkersWork(ws, conns, open) - WorkerWork(ws[w], conns, open) + WorkerWork(p, conns', open')
  {
    hide HasUnread, WorkerWork, WorkersWork, OthersSame;
    var n := |ws| - 1;
    LastWork(ws, conns, open);
    LastWork(ws[w := p], conns', open');
    OthersBefore(ws, w, conns, open, conns', open');
    if w == n {
      assert ws[w := p][..n] == ws[..n];
      WorkSame(ws[..n], conns, open, conns', open');
    } else {
      assert ws[w := p][..n] == ws[..n][w := p];
      WorkChange(ws[..n], w, p, conns, open, conns', open');
      SameWork(ws[n], conns, open, conns', open');
    }
  }

  lemma LastWork(ws: seq<Worker>, conns: map<ConnId, Conn>, open: map<Fd, Socket>)
    requires ws != []
    ensures WorkersWork(ws, conns, open) == WorkersWork(ws[..|ws| - 1], conns, open) + WorkerWork(ws[|ws| - 1], conns, open)
  {
    hide WorkerWork;
  }

  lemma OthersBefore(ws: seq<Worker>, w: nat, conns: map<ConnId, Conn>, open: map<Fd, Socket>,
                     conns': map<ConnId, Conn>, open': map<Fd, Socket>)
    requires w < |ws| && OthersSame(ws, w, conns, open, conns', open')
    ensures var n := |ws| - 1;
            && OthersSame(ws[..n], w, conns, open, conns', open')
            && (w < n && Reading(ws[n]) ==> HasUnread(conns, open, ws[n].conn) == HasUnread(conns', open', ws[n].conn))
  {
    hide HasUnread;
  }

  lemma SameWork(p: Worker, conns: map<ConnId, Conn>, open: map<Fd, Socket>, conns': map<ConnId, Conn>, open': map<Fd, Socket>)
    requires Reading(p) ==> HasUnread(conns, open, p.conn) == HasUnread(conns', open', p.conn)
    ensures WorkerWork(p, conns', open') == WorkerWork(p, conns, open)
  {
    hide HasUnread;
  }

  /** What a reading worker holds is live and has its own open socket. */
  lemma Reads(s: State, j: nat)
    requires Inv(s) && j < |s.workers| && Reading(s.workers[j])
    ensures var d := s.workers[j].conn; FdGood(s, d) && d in s.stage && OfWorker(s.stage[d]) && s.stage[d].w == j
  {
    hide AcceptorOk, SeqOk, KernelOk, ReadyOk, FdOk, CountOk, PeakOk;
    HeldByWorker(s.workers, s.stage, j);
    OwnSocket(s, s.workers[j].conn);
  }

  /** Another connection's socket is closed or read: the others are not touched. */
  lemma OtherSocket(s: State, w: nat, c: ConnId, open': map<Fd, Socket>)
    requires Inv(s) && FdGood(s, c) && (w < |s.workers| ==> !s.workers[w].Resting? && s.workers[w].conn == c)
    requires w >= |s.workers| ==> c in s.stage && OfAcceptor(s.stage[c])
    requires forall fd :: fd != s.conns[c].fd ==> (fd in open' <==> fd in s.open) && (fd in open' ==> open'[fd] == s.open[fd])
    ensures OthersSame(s.workers, w, s.conns, s.open, s.conns, open')
  {
    hide AcceptorOk, SeqOk, KernelOk, ReadyOk, CountOk, PeakOk;
    if w < |s.workers| { HeldByWorker(s.workers, s.stage, w); }
    forall j | 0 <= j < |s.workers| && j != w && Reading(s.workers[j])
      ensures HasUnread(s.conns, s.open, s.workers[j].conn) == HasUnread(s.conns, open', s.workers[j].conn)
    {
      Reads(s, j);
    }
  }

  /** A connection no reading worker holds is born or freed. */
  lemma OtherConn(s: State, w: nat, c: ConnId, conns': map<ConnId, Conn>)
    requires Inv(s)
    requires c in s.stage ==> !OfWorker(s.stage[c]) || s.stage[c].w == w
    requires forall d :: d != c ==> (d in conns' <==> d in s.conns) && (d in conns' ==> conns'[d] == s.conns[d])
    ensures OthersSame(s.workers, w, s.conns, s.open, conns', s.open)
  {
    hide Inv;
    forall j | 0 <= j < |s.workers| && j != w && Reading(s.workers[j])
      ensures HasUnread(s.conns, s.open, s.workers[j].conn) == HasUnread(conns', s.open, s.workers[j].conn)
    {
      Reads(s, j);
    }
  }

  lemma ReportableSet(interest: map<Fd, Interest>, fd: Fd, i: Interest)
    ensures var n, m := |Reportable(interest)|, |Reportable(interest[fd := i])|;
            && m <= n + (if i.armed && i.ready then 1 else 0)
            && (fd in Reportable(interest) && !i.armed ==> m + 1 == n)
  {
    var a, b := Reportable(interest), Reportable(interest[fd := i]);
    assert b == if i.armed && i.ready then a + {fd} else a - {fd};
  }

  lemma ReportableDrop(interest: map<Fd, Interest>, fd: Fd)
    ensures |Reportable(interest - {fd})| <= |Reportable(interest)|
  {
    assert Reportable(interest - {fd}) == Reportable(interest) - {fd};
  }

  // ---------------------------------------------------------- the epoll thread

  /** A failed retry that finds the peak as it was. */
  predicate Retries(s: State, e: EpollStep) {
    e.CompareExchange? && e.spurious && s.acceptor.Raising? && s.acceptor.mine > s.acceptor.prev && s.peak == s.acceptor.prev
  }

  /** Only the connection being accepted is touched. */
  predicate Aside(s: State, t: State) {
    && t.interest == s.interest && t.batch == s.batch && t.queue == s.queue && t.workers == s.workers
    && t.conns == s.conns && t.open == s.open && t.waiting == s.waiting
  }

  lemma StraightSinks(s: State, e: EpollStep)
    requires EpollEnabled(s, e) && EpollSound(s, e) && (e.CountUp? || e.LoadPeak? || e.AddFails? || e.FailUncount?)
    ensures var t := EpollDone(s, e); Aside(s, t) && AcceptorWork(t.acceptor, t.peak) < AcceptorWork(s.acceptor, s.peak)
  {
  }

  lemma ExchangeSinks(s: State, e: EpollStep)
    requires EpollEnabled(s, e) && EpollSound(s, e) && e.CompareExchange?
    ensures var t := EpollDone(s, e);
            && Aside(s, t)
            && (if Retries(s, e) then t == s else AcceptorWork(t.acceptor, t.peak) < AcceptorWork(s.acceptor, s.peak))
  {
    ExchangeDone(s, e);
    hide EpollDone, EpollEnabled, EpollSound;
    var Raising(c, mine, prev) := s.acceptor;
    if mine > prev && (s.peak != prev || e.spurious) {
      assert Retries(s, e) ==> s.acceptor == Raising(c, mine, s.peak);
    }
  }

  lemma CountingWork(s: State, e: EpollStep)
    requires EpollEnabled(s, e) && EpollSound(s, e) && (e.CountUp? || e.LoadPeak? || e.CompareExchange? || e.AddFails? || e.FailUncount?)
    ensures if Retries(s, e) then EpollDone(s, e) == s else Work(EpollDone(s, e)) < Work(s)
  {
    hide EpollEnabled, EpollSound, EpollDone, AcceptorWork, Reportable, WorkersWork;
    if e.CompareExchange? { ExchangeSinks(s, e); } else { StraightSinks(s, e); }
  }

  lemma AddOkWork(s: State)
    requires EpollEnabled(s, AddOk) && EpollSound(s, AddOk)
    ensures Work(EpollDone(s, AddOk)) < Work(s)
  {
    hide Reportable, WorkersWork;
    var c := s.acceptor.conn;
    ReportableSet(s.interest, s.conns[c].fd, Interest(c, true, s.open[s.conns[c].fd].unread));
  }

  lemma NonblockFailsWork(s: State)
    requires Inv(s) && EpollEnabled(s, NonblockFails)
    ensures Work(EpollDone(s, NonblockFails)) < Work(s)
  {
    hide AcceptorOk, SeqOk, KernelOk, ReadyOk, CountOk, PeakOk, Reportable, WorkersWork;
    forall j | 0 <= j < |s.workers| && Reading(s.workers[j])
      ensures HasUnread(s.conns, s.open, s.workers[j].conn) == HasUnread(s.conns, s.open - {s.acceptor.fd}, s.workers[j].conn)
    {
      Reads(s, j);
    }
    WorkSame(s.workers, s.conns, s.open, s.conns, s.open - {s.acceptor.fd});
  }

  lemma MakeConnWork(s: State, c: ConnId)
    requires Inv(s) && EpollEnabled(s, MakeConn(c)) && EpollSound(s, MakeConn(c))
    ensures Work(EpollDone(s, MakeConn(c))) < Work(s)
  {
    hide AcceptorOk, SeqOk, WorkersOk, KernelOk, ReadyOk, FdOk, CountOk, PeakOk, Reportable, WorkersWork, OthersSame;
    NotBorn(s, c);
    var t := EpollDone(s, MakeConn(c));
    OtherConn(s, |s.workers|, c, t.conns);
    WorkSame(s.workers, s.conns, s.open, t.conns, s.open);
  }

  lemma AcceptorHolds(s: State)
    requires Inv(s) && !s.acceptor.Idle? && !s.acceptor.GotFd?
    ensures s.acceptor.conn in s.stage && OfAcceptor(s.stage[s.acceptor.conn])
  {
    hide SeqOk, WorkersOk, KernelOk, ReadyOk, FdOk, CountOk, PeakOk;
    HeldByAcceptor(s.acceptor, s.stage);
  }

  lemma FailCloseWork(s: State)
    requires Inv(s) && EpollEnabled(s, FailClose) && EpollSound(s, FailClose)
    ensures Work(EpollDone(s, FailClose)) < Work(s)
  {
    hide Inv, Reportable, WorkersWork, OthersSame;
    AcceptorHolds(s);
    var t := EpollDone(s, FailClose);
    OtherSocket(s, |s.workers|, s.acceptor.conn, t.open);
    WorkSame(s.workers, s.conns, s.open, s.conns, t.open);
  }

  lemma FailDeleteWork(s: State)
    requires Inv(s) && EpollEnabled(s, FailDelete) && EpollSound(s, FailDelete)
    ensures Work(EpollDone(s, FailDelete)) < Work(s)
  {
    hide Inv, Reportable, WorkersWork, OthersSame;
    AcceptorHolds(s);
    var t := EpollDone(s, FailDelete);
    OtherConn(s, |s.workers|, s.acceptor.conn, t.conns);
    WorkSame(s.workers, s.conns, s.open, t.conns, s.open);
  }

  lemma EventsWork(s: State, e: EpollStep)
    requires EpollEnabled(s, e) && EpollSound(s, e) && (e.Deliver? || e.Dispatch? || e.BeginWait? || (e.WakeUp? && s.batch != []))
    ensures Work(EpollDone(s, e)) < Work(s)
  {
    hide WorkersWork, AcceptorWork;
    if e.Deliver? {
      ReportableSet(s.interest, e.fd, Interest(s.interest[e.fd].conn, false, false));
      assert e.fd in Reportable(s.interest);
    }
    hide Reportable;
  }

  lemma EpollWork(s: State, e: EpollStep)
    requires Inv(s) && EpollEnabled(s, e) && EpollSound(s, e) && !e.AcceptFd? && (e.WakeUp? ==> s.batch != [])
    ensures if Retries(s, e) then EpollDone(s, e) == s else Work(EpollDone(s, e)) < Work(s)
  {
    hide Inv, EpollEnabled, EpollSound, EpollDone, Work;
    match e
    case AddOk => AddOkWork(s);
    case NonblockFails => NonblockFailsWork(s);
    case MakeConn(c) => MakeConnWork(s, c);
    case FailClose => FailCloseWork(s);
    case FailDelete => FailDeleteWork(s);
    case Deliver(_) => EventsWork(s, e);
    case Dispatch => EventsWork(s, e);
    case BeginWait => EventsWork(s, e);
    case WakeUp => EventsWork(s, e);
    case _ => CountingWork(s, e);
  }

  // --------------------------------------------------------------- the workers

  /** Another read, after the first, that finds nothing. */
  predicate Rereads(s: State, w: nat, k: WorkerStep) {
    w < |s.workers| && k.Drain? && s.workers[w].Busy? && s.workers[w].drained && !HasUnread(s.conns, s.open, s.workers[w].conn)
  }

  lemma WorkerHolds(s: State, w: nat)
    requires Inv(s) && w < |s.workers| && !s.workers[w].Resting?
    ensures var c := s.workers[w].conn; c in s.stage && OfWorker(s.stage[c]) && s.stage[c].w == w
  {
    hide AcceptorOk, SeqOk, KernelOk, ReadyOk, FdOk, CountOk, PeakOk;
    HeldByWorker(s.workers, s.stage, w);
  }

  lemma PopWork(s: State, w: nat)
    requires w < |s.workers| && WorkerEnabled(s, w, Pop) && WorkerSound(s, w, Pop)
    ensures Work(WorkerDone(s, w, Pop)) < Work(s)
  {
    hide WorkersWork, AcceptorWork, Reportable, HasUnread;
    WorkChange(s.workers, w, Busy(s.queue[0], false), s.conns, s.open, s.conns, s.open);
  }

  lemma DrainWork(s: State, w: nat)
    requires Inv(s) && w < |s.workers| && WorkerEnabled(s, w, Drain) && WorkerSound(s, w, Drain)
    ensures if Rereads(s, w, Drain) then WorkerDone(s, w, Drain) == s else Work(WorkerDone(s, w, Drain)) < Work(s)
  {
    hide Inv, WorkersWork, AcceptorWork, Reportable, OthersSame;
    var c, t := s.workers[w].conn, WorkerDone(s, w, Drain);
    OtherSocket(s, w, c, t.open);
    WorkChange(s.workers, w, Busy(c, true), s.conns, s.open, s.conns, t.open);
    assert !HasUnread(s.conns, t.open, c);
    if Rereads(s, w, Drain) {
      assert t.open == s.open && t.workers == s.workers;
    }
  }

  lemma DecideWork(s: State, w: nat, k: WorkerStep)
    requires w < |s.workers| && WorkerEnabled(s, w, k) && WorkerSound(s, w, k)
    requires k.DecideArm? || k.DecideClose? || k.ModFails? || k.Uncount?
    ensures Work(WorkerDone(s, w, k)) < Work(s)
  {
    hide WorkersWork, AcceptorWork, Reportable, HasUnread;
    WorkChange(s.workers, w, WorkerDone(s, w, k).workers[w], s.conns, s.open, s.conns, s.open);
  }

  lemma ModOkWork(s: State, w: nat)
    requires w < |s.workers| && WorkerEnabled(s, w, ModOk) && WorkerSound(s, w, ModOk)
    ensures Work(WorkerDone(s, w, ModOk)) < Work(s)
  {
    hide WorkersWork, AcceptorWork, Reportable;
    var c := s.workers[w].conn;
    WorkChange(s.workers, w, Resting, s.conns, s.open, s.conns, s.open);
    ReportableSet(s.interest, s.conns[c].fd, Interest(c, true, s.open[s.conns[c].fd].unread));
  }

  lemma UnregisterWork(s: State, w: nat)
    requires w < |s.workers| && WorkerEnabled(s, w, Unregister) && WorkerSound(s, w, Unregister)
    ensures Work(WorkerDone(s, w, Unregister)) < Work(s)
  {
    hide WorkersWork, AcceptorWork, Reportable, HasUnread;
    var c := s.workers[w].conn;
    WorkChange(s.workers, w, Closing(c), s.conns, s.open, s.conns, s.open);
    ReportableDrop(s.interest, s.conns[c].fd);
  }

  lemma CloseFdWork(s: State, w: nat)
    requires Inv(s) && w < |s.workers| && WorkerEnabled(s, w, CloseFd) && WorkerSound(s, w, CloseFd)
    ensures Work(WorkerDone(s, w, CloseFd)) < Work(s)
  {
    hide Inv, WorkersWork, AcceptorWork, Reportable, HasUnread, OthersSame;
    var c, t := s.workers[w].conn, WorkerDone(s, w, CloseFd);
    OtherSocket(s, w, c, t.open);
    WorkChange(s.workers, w, Uncounting(c), s.conns, s.open, s.conns, t.open);
  }

  lemma DeleteWork(s: State, w: nat)
    requires Inv(s) && w < |s.workers| && WorkerEnabled(s, w, Delete) && WorkerSound(s, w, Delete)
    ensures Work(WorkerDone(s, w, Delete)) < Work(s)
  {
    hide Inv, WorkersWork, AcceptorWork, Reportable, HasUnread, OthersSame;
    var c, t := s.workers[w].conn, WorkerDone(s, w, Delete);
    WorkerHolds(s, w);
    OtherConn(s, w, c, t.conns);
    WorkChange(s.workers, w, Resting, s.conns, s.open, t.conns, s.open);
  }

  lemma WorkerStepWork(s: State, w: nat, k: WorkerStep)
    requires Inv(s) && w < |s.workers| && WorkerEnabled(s, w, k) && WorkerSound(s, w, k)
    ensures if Rereads(s, w, k) then WorkerDone(s, w, k) == s else Work(WorkerDone(s, w, k)) < Work(s)
  {
    hide Inv, WorkerEnabled, WorkerSound, WorkerDone, Work;
    match k
    case Pop => PopWork(s, w);
    case Drain => DrainWork(s, w);
    case ModOk => ModOkWork(s, w);
    case Unregister => UnregisterWork(s, w);
    case CloseFd => CloseFdWork(s, w);
    case Delete => DeleteWork(s, w);
    case _ => DecideWork(s, w, k);
  }

  // ------------------------------------------------------------ bounded by work

  predicate Idles(s: State, a: Step) {
    match a
    case Outside(_) => false
    case Epoll(e) => Retries(s, e)
    case OnWorker(w, k) => Rereads(s, w, k)
  }

  /** A step of the program changes nothing, or leaves less to do. */
  lemma StepWork(s: State, a: Step)
    requires Inv(s) && Internal(s, a) && Enabled(s, a)
    ensures if Idles(s, a) then Apply(s, a) == s else Work(Apply(s, a)) < Work(s)
  {
    hide Inv, EpollEnabled, EpollSound, EpollDone, WorkerEnabled, WorkerSound, WorkerDone, Work, Retries, Rereads;
    StepKeeps(s, a);
    match a
    case Epoll(e) => EpollWork(s, e);
    case OnWorker(w, k) => WorkerStepWork(s, w, k);
  }

  lemma {:induction false} MovesBounded(s: State, run: seq<Step>)
    requires Inv(s) && AllMove(s, run)
    ensures ValidRun(s, run) && Inv(End(s, run)) && |run| + Work(End(s, run)) <= Work(s)
    decreases |run|
  {
    hide Inv, Enabled, Apply, Work, Internal;
    if run != [] {
      StepKeeps(s, run[0]);
      StepWork(s, run[0]);
      MovesBounded(Apply(s, run[0]), run[1..]);
    }
  }

  // ---------------------------------------------------------- where it comes to rest

  /** A step that leaves less to do is a move. */
  lemma IsMove(s: State, a: Step)
    requires Inv(s) && Internal(s, a) && Enabled(s, a) && !Idles(s, a)
    ensures Moves(s, a)
  {
    hide Inv, Apply, Enabled, Internal, Idles, Work;
    StepWork(s, a);
  }

  function AcceptorNext(a: Acceptor): EpollStep
    requires !a.Idle?
  {
    match a
    case GotFd(_) => NonblockFails
    case Made(_) => CountUp
    case Counted(_, _) => LoadPeak
    case Raising(_, _, _) => CompareExchange(false)
    case Adding(_) => AddOk
    case FailClosing(_) => FailClose
    case FailUncounting(_) => FailUncount
    case FailDeleting(_) => FailDelete
  }

  function WorkerNext(p: Worker): WorkerStep
    requires !p.Resting?
  {
    match p
    case Busy(_, drained) => if drained then DecideArm else Drain
    case Arming(_) => ModOk
    case Unregistering(_) => Unregister
    case Closing(_) => CloseFd
    case Uncounting(_) => Uncount
    case Deleting(_) => Delete
  }

  /** The epoll thread, outside `epoll_wait`, always has something to do. */
  lemma LoopGoesOn(s: State) returns (a: Step)
    requires Inv(s) && (!s.waiting || s.batch != [])
    ensures Moves(s, a)
  {
    hide Inv;
    a := if s.waiting then Epoll(WakeUp)
         else if !s.acceptor.Idle? then Epoll(AcceptorNext(s.acceptor))
         else if s.batch != [] then Epoll(Dispatch)
         else Epoll(BeginWait);
    hide Moves;
    IsMove(s, a);
  }

  lemma WorkerGoesOn(s: State, w: nat) returns (a: Step)
    requires Inv(s) && w < |s.workers| && (s.workers[w].Resting? ==> s.queue != [])
    ensures Moves(s, a)
  {
    hide Inv;
    a := OnWorker(w, if s.workers[w].Resting? then Pop else WorkerNext(s.workers[w]));
    hide Moves;
    IsMove(s, a);
  }

  /** An armed connection that does not wait can be reported. */
  lemma ReportGoesOn(s: State, c: ConnId) returns (a: Step)
    requires Inv(s) && s.waiting && c in s.stage && s.stage[c].Armed? && !Waits(s, c)
    ensures Moves(s, a)
  {
    hide AcceptorOk, SeqOk, WorkersOk, KernelOk, FdOk, CountOk, PeakOk, Moves;
    OwnEntry(s, c);
    EntryOwner(s, s.conns[c].fd);
    a := Epoll(Deliver(s.conns[c].fd));
    assert Enabled(s, a);
    hide Inv;
    IsMove(s, a);
  }

  /** Where something is not at rest, something can move. */
  lemma GoesOn(s: State) returns (a: Step)
    requires Inv(s) && s.workers != [] && !AtRest(s)
    ensures Moves(s, a)
  {
    hide Moves, Waits, Inv;
    if !s.waiting || s.batch != [] {
      a := LoopGoesOn(s);
    } else {
      var c :| c in s.conns && !Waits(s, c);
      Staged(s, c);
      var st := s.stage[c];
      if st.Armed? {
        a := ReportGoesOn(s, c);
      } else if st.InQueue? {
        a := WorkerGoesOn(s, 0);
      } else {
        a := WorkerGoesOn(s, st.w);
      }
    }
  }

  /** While the epoll thread waits with no events, a live connection is armed, queued or held by a worker. */
  lemma Staged(s: State, c: ConnId)
    requires Inv(s) && s.waiting && s.batch == [] && c in s.conns
    ensures c in s.stage
    ensures var st := s.stage[c];
            st.Armed? || (st.InQueue? && s.queue != []) || (OfWorker(st) && st.w < |s.workers| && !s.workers[st.w].Resting?)
  {
    hide KernelOk, ReadyOk, CountOk, PeakOk;
    assert s.conns.Keys == s.stage.Keys;
  }

  /** Connections that wait are armed. */
  lemma WaitingIsArmed(s: State, c: ConnId)
    requires Inv(s) && c in s.conns && Waits(s, c)
    ensures c in s.stage && s.stage[c].Armed? && !s.interest[s.conns[c].fd].ready
  {
    hide AcceptorOk, SeqOk, WorkersOk, FdOk, CountOk, PeakOk;
    EntryOwner(s, s.conns[c].fd);
  }

  lemma RestIsStuck(s: State, a: Step)
    requires Inv(s) && AtRest(s)
    ensures !Moves(s, a)
  {
    hide Moves, Waits, AtRest, Inv, EpollEnabled, WorkerEnabled, OutsideEnabled;
    match a {
      case Outside(_) =>
      case OnWorker(w, k) => if w < |s.workers| { WorkerRests(s, w, k); }
      case Epoll(e) => EpollRests(s, e);
    }
    NotEnabled(s, a);
  }

  lemma NotEnabled(s: State, a: Step)
    requires !Internal(s, a) || !Enabled(s, a)
    ensures !Moves(s, a)
  {
    hide Internal, Enabled, Apply;
  }

  lemma AllArmed(s: State, c: ConnId)
    requires Inv(s) && AtRest(s) && c in s.stage
    ensures c in s.conns && s.stage[c].Armed? && !s.interest[s.conns[c].fd].ready
  {
    hide Waits, AcceptorOk, SeqOk, WorkersOk, KernelOk, ReadyOk, CountOk, PeakOk;
    IsLive(s, c);
    WaitingIsArmed(s, c);
  }

  lemma WorkerRests(s: State, w: nat, k: WorkerStep)
    requires Inv(s) && AtRest(s) && w < |s.workers|
    ensures !WorkerEnabled(s, w, k)
  {
    hide AtRest, Inv;
    if s.queue != [] {
      QueueHolds(s);
      AllArmed(s, s.queue[0]);
    } else if !s.workers[w].Resting? {
      WorkerHolds(s, w);
      AllArmed(s, s.workers[w].conn);
    }
  }

  lemma QueueHolds(s: State)
    requires Inv(s)
    ensures s.queue != [] ==> s.queue[0] in s.stage && s.stage[s.queue[0]].InQueue?
    ensures s.batch != [] ==> s.batch[0] in s.stage && s.stage[s.batch[0]].InBatch?
    ensures s.waiting ==> s.acceptor.Idle?
  {
    hide AcceptorOk, WorkersOk, KernelOk, ReadyOk, FdOk, CountOk, PeakOk;
  }

  lemma EpollRests(s: State, e: EpollStep)
    requires Inv(s) && AtRest(s)
    ensures !EpollEnabled(s, e) || !Internal(s, Epoll(e))
  {
    hide Inv;
    QueueHolds(s);
    if s.batch != [] {
      AllArmed(s, s.batch[0]);
    } else if e.Deliver? && e.fd in s.interest {
      ReportedHolds(s, e.fd);
      AllArmed(s, s.interest[e.fd].conn);
    }
  }

  lemma ReportedHolds(s: State, fd: Fd)
    requires Inv(s) && fd in s.interest
    ensures var c := s.interest[fd].conn; c in s.conns && c in s.stage && s.conns[c].fd == fd
  {
    hide AcceptorOk, SeqOk, WorkersOk, KernelOk, ReadyOk, FdOk, CountOk, PeakOk;
    EntryOwner(s, fd);
  }

  /** The program can no longer move exactly when everything is at rest. */
  lemma StuckIff(s: State)
    requires Inv(s) && s.workers != []
    ensures Stuck(s) <==> AtRest(s)
  {
    hide Inv, AtRest, Moves;
    if AtRest(s) {
      forall a ensures !Moves(s, a) { RestIsStuck(s, a); }
    } else {
      var a := GoesOn(s);
    }
  }

  // -------------------------------------------------------------- the result

  lemma {:induction false} SameWorkers(s: State, run: seq<Step>)
    requires Inv(s) && ValidRun(s, run)
    ensures |End(s, run).workers| == |s.workers|
    decreases |run|
  {
    hide Inv, Enabled, Apply;
    if run != [] {
      StepKeeps(s, run[0]);
      StepSameWorkers(s, run[0]);
      SameWorkers(Apply(s, run[0]), run[1..]);
    }
  }

  lemma StepSameWorkers(s: State, a: Step)
    requires Enabled(s, a)
    ensures |Apply(s, a).workers| == |s.workers|
  {
    hide EpollEnabled, EpollSound, EpollDone, WorkerEnabled, WorkerSound, WorkerDone;
    if Sound(s, a) {
      match a
      case Outside(_) =>
      case Epoll(e) => EpollSameWorkers(s, e);
      case OnWorker(w, k) => WorkerSameWorkers(s, w, k);
    }
  }

  lemma EpollSameWorkers(s: State, e: EpollStep)
    requires EpollEnabled(s, e) && EpollSound(s, e)
    ensures EpollDone(s, e).workers == s.workers
  {
    hide EpollEnabled, EpollSound, EpollDone;
    if e.CompareExchange? {
      ExchangeSinks(s, e);
    } else if Accepting(e) {
      AcceptingSameWorkers(s, e);
    } else {
      HandlingSameWorkers(s, e);
    }
  }

  lemma AcceptingSameWorkers(s: State, e: EpollStep)
    requires EpollEnabled(s, e) && EpollSound(s, e) && Accepting(e)
    ensures EpollDone(s, e).workers == s.workers
  {
  }

  lemma HandlingSameWorkers(s: State, e: EpollStep)
    requires EpollEnabled(s, e) && EpollSound(s, e) && !Accepting(e) && !e.CompareExchange?
    ensures EpollDone(s, e).workers == s.workers
  {
  }

  lemma WorkerSameWorkers(s: State, w: nat, k: WorkerStep)
    requires w < |s.workers| && WorkerEnabled(s, w, k) && WorkerSound(s, w, k)
    ensures |WorkerDone(s, w, k).workers| == |s.workers|
  {
  }

  /**
   Over every run: from where it leads the program can take only so many steps of its own, whatever the schedule and
   whatever the kernel answers, and it can take no more exactly when the epoll thread waits for events and every live
   connection is armed with nothing unread.
   */
  lemma NeverForgotten(workers: nat, run: seq<Step>, more: seq<Step>)
    requires workers >= 1 && ValidRun(Start(workers), run) && AllMove(End(Start(workers), run), more)
    ensures var s := End(Start(workers), run);
            && ValidRun(s, more)
            && |more| <= Work(s) <= 12 * |Reportable(s.interest)| + 9 * |s.batch| + 8 * |s.queue| + 14 * workers + 20
            && (Stuck(End(s, more)) <==> AtRest(End(s, more)))
  {
    hide Inv, ValidRun, End, Start, AllMove, Stuck, AtRest, Work, Reportable;
    StartInv(workers);
    RunKeeps(Start(workers), run);
    SameWorkers(Start(workers), run);
    var s := End(Start(workers), run);
    AsMany(workers);
    MovesBounded(s, more);
    SameWorkers(s, more);
    StuckIff(End(s, more));
    WorkBound(s);
  }

  lemma AsMany(workers: nat)
    ensures |Start(workers).workers| == workers
  {
  }

  lemma WorkBound(s: State)
    ensures Work(s) <= 12 * |Reportable(s.interest)| + 9 * |s.batch| + 8 * |s.queue| + 14 * |s.workers| + 20
  {
    hide WorkersWork, Reportable;
    WorkersBound(s.workers, s.conns, s.open);
  }

  /** And it gets there: from every reachable state some run of moves leads to rest. */
  lemma {:induction false} ComesToRest(s: State) returns (more: seq<Step>)
    requires Inv(s) && s.workers != []
    ensures AllMove(s, more) && ValidRun(s, more) && AtRest(End(s, more))
    decreases Work(s)
  {
    hide Inv, Enabled, Apply, Work, Internal, AtRest, Idles;
    if AtRest(s) {
      more := [];
    } else {
      var a := GoesOn(s);
      StepKeeps(s, a);
      StepWork(s, a);
      StepSameWorkers(s, a);
      var rest := ComesToRest(Apply(s, a));
      more := [a] + rest;
      assert more[0] == a && more[1..] == rest;
    }
  }
}
