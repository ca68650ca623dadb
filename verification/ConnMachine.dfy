/**
 The life of connections: one epoll thread that accepts and dispatches, a pool of workers,
 the kernel's interest set with one-shot delivery, and a table of file descriptors whose
 numbers are reused as soon as they are closed. Each step is one kernel call or one access
 to shared memory; a run is any interleaving. A step whose pointer is dangling or whose
 descriptor is no longer the one meant makes the machine crash.

 Kernel axioms: delivery disarms; ADD and MOD poll readiness afresh; nothing is reported
 after DEL. A heap object is an identity that is never reused. `epoll_wait` collects events while the
 epoll thread waits in it; the thread accepts and dispatches only once it has returned.
 */
module ConnMachine {

  type Fd = nat
  type ConnId = nat

  /** An open client socket: has it unread bytes or end of file; `gen` tells apart sockets that share a number over time. */
  datatype Socket = Socket(unread: bool, gen: nat)

  /** A `Conn` on the heap; `gen`, known to the model only, says which socket it was made for. */
  datatype Conn = Conn(fd: Fd, gen: nat)

  /** An entry of the epoll interest set. */
  datatype Interest = Interest(conn: ConnId, armed: bool, ready: bool)

  /** Where the epoll thread is; `Idle` is waiting or between events. */
  datatype Acceptor =
    | Idle
    | GotFd(fd: Fd)
    | Made(conn: ConnId)
    | Counted(conn: ConnId, mine: nat)
    | Raising(conn: ConnId, mine: nat, prev: nat)
    | Adding(conn: ConnId)
    | FailClosing(conn: ConnId)
    | FailUncounting(conn: ConnId)
    | FailDeleting(conn: ConnId)

  /** Where a worker is; `Busy` is inside `handle_ready`, which drains at least once before it re-arms or closes. */
  datatype Worker =
    | Resting
    | Busy(conn: ConnId, drained: bool)
    | Arming(conn: ConnId)
    | Unregistering(conn: ConnId)
    | Closing(conn: ConnId)
    | Uncounting(conn: ConnId)
    | Deleting(conn: ConnId)

  /** Who owns a connection. */
  datatype Owner = ByAcceptor | ByKernel(fd: Fd) | ByBatch(i: nat) | ByQueue(i: nat) | ByWorker(w: nat)

  /** History: how far a connection has got in its life. The owner that must be found at each stage is checked, not assumed. */
  datatype Stage =
    | New | InCount | InPeak | BeforeAdd | AddFailed | FailedClosed | FailedUncounted
    | Armed
    | InBatch
    | InQueue
    | Served(w: nat) | BeforeMod(w: nat) | BeforeDel(w: nat) | BeforeClose(w: nat) | Closed(w: nat) | Uncounted(w: nat)

  datatype State = State(
    conns: map<ConnId, Conn>,
    freed: set<ConnId>,
    open: map<Fd, Socket>,
    others: set<Fd>,
    nextGen: nat,
    interest: map<Fd, Interest>,
    batch: seq<ConnId>,
    queue: seq<ConnId>,
    workers: seq<Worker>,
    acceptor: Acceptor,
    /** the epoll thread is inside `epoll_wait` */
    waiting: bool,
    active: nat,
    peak: nat,
    /** the largest value `active` has ever had */
    highest: nat,
    /** history: the stage of each live connection */
    stage: map<ConnId, Stage>,
    crashed: bool
  )

  /** What clients and the rest of the process do. */
  datatype OutsideStep = Arrive(fd: Fd) | OtherOpen(fd: Fd) | OtherClose(fd: Fd)

  /** What the epoll thread does, one kernel call or one access to shared memory at a time. */
  datatype EpollStep =
    | AcceptFd(fd: Fd, unread: bool)
    | NonblockFails
    | MakeConn(conn: ConnId)
    | CountUp
    | LoadPeak
    | CompareExchange(spurious: bool)
    | AddOk
    | AddFails
    | FailClose
    | FailUncount
    | FailDelete
    | Deliver(fd: Fd)
    | WakeUp
    | Dispatch
    | BeginWait

  /** What a worker does. */
  datatype WorkerStep =
    | Pop | Drain | DecideArm | DecideClose | ModOk | ModFails | Unregister | CloseFd | Uncount | Delete

  datatype Step = Outside(o: OutsideStep) | Epoll(e: EpollStep) | OnWorker(w: nat, k: WorkerStep)

  predicate FreeFd(s: State, fd: Fd) { fd !in s.open && fd !in s.others }

  /** When the kernel or the rest of the process can take a step. */
  predicate OutsideEnabled(s: State, o: OutsideStep) {
    match o
    case Arrive(fd) => fd in s.open
    case OtherOpen(fd) => FreeFd(s, fd)
    case OtherClose(fd) => fd in s.others
  }

  /** When the program text or the kernel lets the epoll thread take a step; nothing is said about pointers being good. */
  predicate EpollEnabled(s: State, e: EpollStep) {
    match e
    case AcceptFd(fd, _) => !s.waiting && s.acceptor.Idle? && FreeFd(s, fd)
    case NonblockFails => s.acceptor.GotFd?
    case MakeConn(c) => s.acceptor.GotFd? && c !in s.conns && c !in s.freed
    case CountUp => s.acceptor.Made?
    case LoadPeak => s.acceptor.Counted?
    case CompareExchange(_) => s.acceptor.Raising?
    case AddOk => s.acceptor.Adding?
    case AddFails => s.acceptor.Adding?
    case FailClose => s.acceptor.FailClosing?
    case FailUncount => s.acceptor.FailUncounting?
    case FailDelete => s.acceptor.FailDeleting?
    case Deliver(fd) => s.waiting && fd in s.interest && s.interest[fd].armed && s.interest[fd].ready
    case WakeUp => s.waiting
    case Dispatch => !s.waiting && s.acceptor.Idle? && s.batch != []
    case BeginWait => !s.waiting && s.acceptor.Idle? && s.batch == []
  }

  /** When the program text lets worker `w` take a step. */
  predicate WorkerEnabled(s: State, w: nat, k: WorkerStep)
    requires w < |s.workers|
  {
    match k
    case Pop => s.workers[w].Resting? && s.queue != []
    case Drain => s.workers[w].Busy?
    case DecideArm => s.workers[w].Busy? && s.workers[w].drained
    case DecideClose => s.workers[w].Busy? && s.workers[w].drained
    case ModOk => s.workers[w].Arming?
    case ModFails => s.workers[w].Arming?
    case Unregister => s.workers[w].Unregistering?
    case CloseFd => s.workers[w].Closing?
    case Uncount => s.workers[w].Uncounting?
    case Delete => s.workers[w].Deleting?
  }

  predicate Enabled(s: State, a: Step) {
    match a
    case Outside(o) => OutsideEnabled(s, o)
    case Epoll(e) => EpollEnabled(s, e)
    case OnWorker(w, k) => w < |s.workers| && WorkerEnabled(s, w, k)
  }

  /** The connection is live and its descriptor number still denotes the socket it was made for. */
  predicate FdGood(s: State, c: ConnId) {
    c in s.conns && s.conns[c].fd in s.open && s.open[s.conns[c].fd].gen == s.conns[c].gen
  }

  /** The kernel's entry for the descriptor of `c` is the entry of `c`. */
  predicate Registered(s: State, c: ConnId) {
    FdGood(s, c) && s.conns[c].fd in s.interest && s.interest[s.conns[c].fd].conn == c
  }

  /** What must hold for a step not to be an error: live pointers, descriptors that mean what they should, no counter underflow. */
  predicate EpollSound(s: State, e: EpollStep)
    requires EpollEnabled(s, e)
  {
    match e
    case MakeConn(_) => s.acceptor.fd in s.open
    case CountUp => s.acceptor.conn in s.conns
    case AddOk => FdGood(s, s.acceptor.conn) && s.conns[s.acceptor.conn].fd !in s.interest
    case AddFails => FdGood(s, s.acceptor.conn)
    case FailClose => FdGood(s, s.acceptor.conn)
    case FailUncount => s.active > 0
    case FailDelete => s.acceptor.conn in s.conns
    case Deliver(fd) => s.interest[fd].conn in s.conns
    case Dispatch => s.batch[0] in s.conns
    case _ => true
  }

  predicate WorkerSound(s: State, w: nat, k: WorkerStep)
    requires w < |s.workers| && WorkerEnabled(s, w, k)
  {
    match k
    case Pop => s.queue[0] in s.conns
    case Drain => FdGood(s, s.workers[w].conn)
    case ModOk => Registered(s, s.workers[w].conn)
    case ModFails => FdGood(s, s.workers[w].conn)
    case Unregister => Registered(s, s.workers[w].conn)
    case CloseFd => FdGood(s, s.workers[w].conn)
    case Uncount => s.active > 0 && s.workers[w].conn in s.conns
    case Delete => s.workers[w].conn in s.conns
    case _ => true
  }

  predicate Sound(s: State, a: Step)
    requires Enabled(s, a)
  {
    match a
    case Outside(_) => true
    case Epoll(e) => EpollSound(s, e)
    case OnWorker(w, k) => WorkerSound(s, w, k)
  }

  function Apply(s: State, a: Step): State
    requires Enabled(s, a)
  {
    if !Sound(s, a) then s.(crashed := true) else Perform(s, a)
  }

  /** The connection `c`, now at stage `st`. */
  function At(s: State, c: ConnId, st: Stage): State { s.(stage := s.stage[c := st]) }

  /** Worker `w`, holding `c`, moves on. */
  function Work(s: State, w: nat, c: ConnId, p: Worker, st: Stage): State
    requires w < |s.workers|
  {
    At(s, c, st).(workers := s.workers[w := p])
  }

  /** The heap without `c`. */
  function Free(s: State, c: ConnId): State {
    s.(conns := s.conns - {c}, stage := s.stage - {c}, freed := s.freed + {c})
  }

  function OutsideDone(s: State, o: OutsideStep): State
    requires OutsideEnabled(s, o)
  {
    match o
    case Arrive(fd) =>
      s.(open := s.open[fd := s.open[fd].(unread := true)],
      interest := if fd in s.interest && s.interest[fd].armed
      then s.interest[fd := s.interest[fd].(ready := true)] else s.interest)
    case OtherOpen(fd) => s.(others := s.others + {fd})
    case OtherClose(fd) => s.(others := s.others - {fd})
  }

  function EpollDone(s: State, e: EpollStep): State
    requires EpollEnabled(s, e) && EpollSound(s, e)
  {
    match e
    case AcceptFd(fd, unread) =>
      s.(open := s.open[fd := Socket(unread, s.nextGen)], nextGen := s.nextGen + 1, acceptor := GotFd(fd))
    case NonblockFails => s.(open := s.open - {s.acceptor.fd}, acceptor := Idle)
    case MakeConn(c) =>
      var fd := s.acceptor.fd;
      At(s, c, New).(conns := s.conns[c := Conn(fd, s.open[fd].gen)], acceptor := Made(c))
    case CountUp =>
      var c, n := s.acceptor.conn, s.active + 1;
      At(s, c, InCount).(active := n, highest := if n > s.highest then n else s.highest, acceptor := Counted(c, n))
    case LoadPeak =>
      At(s, s.acceptor.conn, InPeak).(acceptor := Raising(s.acceptor.conn, s.acceptor.mine, s.peak))
    case CompareExchange(spurious) =>
      var Raising(c, mine, prev) := s.acceptor;
      if mine <= prev then At(s, c, BeforeAdd).(acceptor := Adding(c))
      else if s.peak == prev && !spurious then At(s, c, BeforeAdd).(peak := mine, acceptor := Adding(c))
      else s.(acceptor := Raising(c, mine, s.peak))
    case AddOk =>
      var c := s.acceptor.conn;
      var fd := s.conns[c].fd;
      At(s, c, Armed).(interest := s.interest[fd := Interest(c, true, s.open[fd].unread)], acceptor := Idle)
    case AddFails => At(s, s.acceptor.conn, AddFailed).(acceptor := FailClosing(s.acceptor.conn))
    case FailClose =>
      var c := s.acceptor.conn;
      At(s, c, FailedClosed).(open := s.open - {s.conns[c].fd}, acceptor := FailUncounting(c))
    case FailUncount =>
      var c := s.acceptor.conn;
      At(s, c, FailedUncounted).(active := s.active - 1, acceptor := FailDeleting(c))
    case FailDelete => Free(s, s.acceptor.conn).(acceptor := Idle)
    case Deliver(fd) =>
      var c := s.interest[fd].conn;
      At(s, c, InBatch).(interest := s.interest[fd := Interest(c, false, false)], batch := s.batch + [c])
    case WakeUp => s.(waiting := false)
    case Dispatch =>
      var c := s.batch[0];
      At(s, c, InQueue).(batch := s.batch[1..], queue := s.queue + [c])
    case BeginWait => s.(waiting := true)
  }

  function WorkerDone(s: State, w: nat, k: WorkerStep): State
    requires w < |s.workers| && WorkerEnabled(s, w, k) && WorkerSound(s, w, k)
  {
    match k
    case Pop =>
      var c := s.queue[0];
      Work(s, w, c, Busy(c, false), Served(w)).(queue := s.queue[1..])
    case Drain =>
      var c := s.workers[w].conn;
      var fd := s.conns[c].fd;
      s.(open := s.open[fd := s.open[fd].(unread := false)], workers := s.workers[w := Busy(c, true)])
    case DecideArm => var c := s.workers[w].conn; Work(s, w, c, Arming(c), BeforeMod(w))
    case DecideClose => var c := s.workers[w].conn; Work(s, w, c, Unregistering(c), BeforeDel(w))
    case ModOk =>
      var c := s.workers[w].conn;
      var fd := s.conns[c].fd;
      Work(s, w, c, Resting, Armed).(interest := s.interest[fd := Interest(c, true, s.open[fd].unread)])
    case ModFails => var c := s.workers[w].conn; Work(s, w, c, Unregistering(c), BeforeDel(w))
    case Unregister =>
      var c := s.workers[w].conn;
      Work(s, w, c, Closing(c), BeforeClose(w)).(interest := s.interest - {s.conns[c].fd})
    case CloseFd =>
      var c := s.workers[w].conn;
      Work(s, w, c, Uncounting(c), Closed(w)).(open := s.open - {s.conns[c].fd})
    case Uncount =>
      var c := s.workers[w].conn;
      Work(s, w, c, Deleting(c), Uncounted(w)).(active := s.active - 1)
    case Delete => Free(s, s.workers[w].conn).(workers := s.workers[w := Resting])
  }

  function Perform(s: State, a: Step): State
    requires Enabled(s, a) && Sound(s, a)
  {
    match a
    case Outside(o) => OutsideDone(s, o)
    case Epoll(e) => EpollDone(s, e)
    case OnWorker(w, k) => WorkerDone(s, w, k)
  }

  function Start(workers: nat): State {
    State(map[], {}, map[], {}, 0, map[], [], [], seq(workers, i => Resting), Idle, false, 0, 0, 0, map[], false)
  }

  // -------------------------------------------------------------- invariants

  /** What each stage means: socket open, counted as active, registered with the kernel. */
  predicate IsOpen(st: Stage) { !st.FailedClosed? && !st.FailedUncounted? && !st.Closed? && !st.Uncounted? }

  predicate IsCounted(st: Stage) { !st.New? && !st.FailedUncounted? && !st.Uncounted? }

  predicate IsRegistered(st: Stage) {
    st.Armed? || st.InBatch? || st.InQueue? || st.Served? || st.BeforeMod? || st.BeforeDel?
  }

  predicate OfAcceptor(st: Stage) {
    st.New? || st.InCount? || st.InPeak? || st.BeforeAdd? || st.AddFailed? || st.FailedClosed? || st.FailedUncounted?
  }

  predicate OfWorker(st: Stage) {
    st.Served? || st.BeforeMod? || st.BeforeDel? || st.BeforeClose? || st.Closed? || st.Uncounted?
  }

  /** The stage of the connection an acceptor or a worker is holding. */
  function AcceptorStage(a: Acceptor): Stage
    requires !a.Idle? && !a.GotFd?
  {
    match a
    case Made(_) => New
    case Counted(_, _) => InCount
    case Raising(_, _, _) => InPeak
    case Adding(_) => BeforeAdd
    case FailClosing(_) => AddFailed
    case FailUncounting(_) => FailedClosed
    case FailDeleting(_) => FailedUncounted
  }

  function WorkerStage(p: Worker, w: nat): Stage
    requires !p.Resting?
  {
    match p
    case Busy(_, _) => Served(w)
    case Arming(_) => BeforeMod(w)
    case Unregistering(_) => BeforeDel(w)
    case Closing(_) => BeforeClose(w)
    case Uncounting(_) => Closed(w)
    case Deleting(_) => Uncounted(w)
  }

  /** The acceptor holds exactly the connection at an acceptor's stage. */
  predicate AcceptorOk(a: Acceptor, stage: map<ConnId, Stage>) {
    if a.Idle? || a.GotFd? then forall c :: c in stage ==> !OfAcceptor(stage[c])
    else
      && a.conn in stage && stage[a.conn] == AcceptorStage(a)
      && forall c :: c in stage && OfAcceptor(stage[c]) ==> c == a.conn
  }

  /** A sequence holds exactly the connections of one stage, each once. */
  predicate SeqOk(cs: seq<ConnId>, stage: map<ConnId, Stage>, st: Stage) {
    && (forall i, j :: 0 <= i < j < |cs| ==> cs[i] != cs[j])
    && (forall i :: 0 <= i < |cs| ==> cs[i] in stage && stage[cs[i]] == st)
    && (forall c :: c in stage && stage[c] == st ==> c in cs)
  }

  /** The workers hold exactly the connections at a worker's stage. */
  predicate WorkersOk(ws: seq<Worker>, stage: map<ConnId, Stage>) {
    && (forall w :: 0 <= w < |ws| && !ws[w].Resting? ==>
          ws[w].conn in stage && stage[ws[w].conn] == WorkerStage(ws[w], w))
    && (forall c :: c in stage && OfWorker(stage[c]) ==>
          var w := stage[c].w; w < |ws| && !ws[w].Resting? && ws[w].conn == c)
  }

  /** The interest set holds exactly the registered connections, armed exactly at that stage. */
  predicate KernelOk(interest: map<Fd, Interest>, conns: map<ConnId, Conn>, stage: map<ConnId, Stage>) {
    && (forall fd :: fd in interest ==>
          var c := interest[fd].conn;
          c in conns && c in stage && conns[c].fd == fd && IsRegistered(stage[c])
          && (interest[fd].armed <==> stage[c].Armed?))
    && (forall c :: c in stage && c in conns && IsRegistered(stage[c]) ==>
          conns[c].fd in interest && interest[conns[c].fd].conn == c)
  }

  /** An armed descriptor is marked ready exactly when it has unread bytes or end of file. */
  predicate ReadyOk(interest: map<Fd, Interest>, open: map<Fd, Socket>) {
    forall fd :: fd in interest && fd in open && interest[fd].armed ==> (interest[fd].ready <==> open[fd].unread)
  }

  /** Sockets are told apart by generation; at an open stage the descriptor denotes the connection's own socket. */
  predicate FdOk(conns: map<ConnId, Conn>, open: map<Fd, Socket>, nextGen: nat, stage: map<ConnId, Stage>) {
    && conns.Keys == stage.Keys
    && (forall c :: c in conns ==> conns[c].gen < nextGen)
    && (forall fd :: fd in open ==> open[fd].gen < nextGen)
    && (forall c, d :: c in conns && d in conns && c != d ==> conns[c].gen != conns[d].gen)
    && (forall c :: c in conns && c in stage && IsOpen(stage[c]) ==>
          conns[c].fd in open && open[conns[c].fd].gen == conns[c].gen)
  }

  /** A descriptor just accepted belongs to no connection yet. */
  predicate GotFdOk(a: Acceptor, conns: map<ConnId, Conn>, open: map<Fd, Socket>) {
    a.GotFd? ==> a.fd in open && forall c :: c in conns ==> conns[c].gen != open[a.fd].gen
  }

  function CountedSet(stage: map<ConnId, Stage>): set<ConnId> { set c | c in stage && IsCounted(stage[c]) }

  predicate CountOk(active: nat, stage: map<ConnId, Stage>) { active == |CountedSet(stage)| }

  function Max(a: nat, b: nat): nat { if a >= b then a else b }

  /** The peak is the highest count ever, except inside the compare-and-swap loop, where this connection may be missing. */
  predicate PeakOk(a: Acceptor, active: nat, peak: nat, highest: nat) {
    && active <= highest
    && match a
       case Counted(_, mine) => highest == Max(peak, mine)
       case Raising(_, mine, prev) => highest == Max(peak, mine) && prev <= peak
       case _ => highest == peak
  }

  predicate Inv(s: State) {
    && !s.crashed
    && AcceptorOk(s.acceptor, s.stage)
    && SeqOk(s.batch, s.stage, InBatch) && SeqOk(s.queue, s.stage, InQueue)
    && WorkersOk(s.workers, s.stage)
    && KernelOk(s.interest, s.conns, s.stage)
    && ReadyOk(s.interest, s.open)
    && FdOk(s.conns, s.open, s.nextGen, s.stage)
    && GotFdOk(s.acceptor, s.conns, s.open)
    && CountOk(s.active, s.stage)
    && PeakOk(s.acceptor, s.active, s.peak, s.highest)
    && (s.waiting ==> s.acceptor.Idle?)
    && s.stage.Keys !! s.freed
    && s.open.Keys !! s.others
  }

  lemma StartInv(workers: nat)
    ensures Inv(Start(workers))
  {
  }

  // ------------------------------------------- what a change of stage leaves

  lemma SeqFrame(cs: seq<ConnId>, stage: map<ConnId, Stage>, st: Stage, c: ConnId, next: Stage)
    requires SeqOk(cs, stage, st) && (c in stage ==> stage[c] != st) && next != st
    ensures SeqOk(cs, stage[c := next], st)
  {
  }

  lemma SeqFrameFree(cs: seq<ConnId>, stage: map<ConnId, Stage>, st: Stage, c: ConnId)
    requires SeqOk(cs, stage, st) && c in stage && stage[c] != st
    ensures SeqOk(cs, stage - {c}, st)
  {
  }

  lemma AcceptorFrame(a: Acceptor, stage: map<ConnId, Stage>, c: ConnId, next: Stage)
    requires AcceptorOk(a, stage) && c in stage && !OfAcceptor(stage[c]) && !OfAcceptor(next)
    ensures AcceptorOk(a, stage[c := next]) && AcceptorOk(a, stage - {c})
  {
  }

  lemma WorkersFrame(ws: seq<Worker>, stage: map<ConnId, Stage>, c: ConnId, next: Stage)
    requires WorkersOk(ws, stage) && (c in stage ==> !OfWorker(stage[c])) && !OfWorker(next)
    ensures WorkersOk(ws, stage[c := next]) && WorkersOk(ws, stage - {c})
  {
  }

  lemma KernelFrame(interest: map<Fd, Interest>, conns: map<ConnId, Conn>, stage: map<ConnId, Stage>, c: ConnId, next: Stage)
    requires KernelOk(interest, conns, stage) && c in stage
    requires IsRegistered(stage[c]) == IsRegistered(next) && stage[c].Armed? == next.Armed?
    ensures KernelOk(interest, conns, stage[c := next])
  {
  }

  lemma FdFrame(conns: map<ConnId, Conn>, open: map<Fd, Socket>, nextGen: nat, stage: map<ConnId, Stage>, c: ConnId, next: Stage)
    requires FdOk(conns, open, nextGen, stage) && c in stage && (IsOpen(next) ==> IsOpen(stage[c]))
    ensures FdOk(conns, open, nextGen, stage[c := next])
  {
  }

  lemma CountFrame(active: nat, stage: map<ConnId, Stage>, c: ConnId, next: Stage)
    requires CountOk(active, stage) && c in stage
    ensures IsCounted(stage[c]) == IsCounted(next) ==> CountOk(active, stage[c := next])
    ensures !IsCounted(stage[c]) && IsCounted(next) ==> CountOk(active + 1, stage[c := next])
    ensures IsCounted(stage[c]) ==> active > 0
    ensures IsCounted(stage[c]) && !IsCounted(next) ==> active > 0 && CountOk(active - 1, stage[c := next])
    ensures !IsCounted(stage[c]) ==> CountOk(active, stage - {c})
  {
    var before, after := CountedSet(stage), CountedSet(stage[c := next]);
    assert after == if IsCounted(next) then before + {c} else before - {c};
    assert !IsCounted(stage[c]) ==> CountedSet(stage - {c}) == before;
  }

  // ------------------------------------------------ what each holder's move does

  lemma AcceptorEmpty(a: Acceptor, b: Acceptor, stage: map<ConnId, Stage>)
    requires AcceptorOk(a, stage) && (a.Idle? || a.GotFd?) && (b.Idle? || b.GotFd?)
    ensures AcceptorOk(b, stage)
  {
  }

  lemma AcceptorTakes(a: Acceptor, stage: map<ConnId, Stage>, c: ConnId)
    requires AcceptorOk(a, stage) && (a.Idle? || a.GotFd?)
    ensures AcceptorOk(Made(c), stage[c := New])
  {
  }

  lemma AcceptorMoves(a: Acceptor, b: Acceptor, stage: map<ConnId, Stage>)
    requires AcceptorOk(a, stage) && !a.Idle? && !a.GotFd? && !b.Idle? && !b.GotFd? && a.conn == b.conn
    ensures AcceptorOk(b, stage[b.conn := AcceptorStage(b)])
    ensures a.conn in stage && stage[a.conn] == AcceptorStage(a)
  {
  }

  lemma AcceptorLetsGo(a: Acceptor, stage: map<ConnId, Stage>, next: Stage)
    requires AcceptorOk(a, stage) && !a.Idle? && !a.GotFd? && !OfAcceptor(next)
    ensures AcceptorOk(Idle, stage[a.conn := next]) && AcceptorOk(Idle, stage - {a.conn})
    ensures a.conn in stage && stage[a.conn] == AcceptorStage(a)
  {
  }

  lemma WorkersMove(ws: seq<Worker>, stage: map<ConnId, Stage>, w: nat, p: Worker)
    requires WorkersOk(ws, stage) && w < |ws| && !ws[w].Resting? && !p.Resting? && p.conn == ws[w].conn
    ensures WorkersOk(ws[w := p], stage[p.conn := WorkerStage(p, w)])
    ensures p.conn in stage && stage[p.conn] == WorkerStage(ws[w], w)
  {
  }

  lemma WorkersTake(ws: seq<Worker>, stage: map<ConnId, Stage>, w: nat, p: Worker)
    requires WorkersOk(ws, stage) && w < |ws| && ws[w].Resting? && !p.Resting?
    requires p.conn in stage && !OfWorker(stage[p.conn])
    ensures WorkersOk(ws[w := p], stage[p.conn := WorkerStage(p, w)])
  {
  }

  lemma WorkersLetGo(ws: seq<Worker>, stage: map<ConnId, Stage>, w: nat, next: Stage)
    requires WorkersOk(ws, stage) && w < |ws| && !ws[w].Resting? && !OfWorker(next)
    ensures WorkersOk(ws[w := Resting], stage[ws[w].conn := next])
    ensures WorkersOk(ws[w := Resting], stage - {ws[w].conn})
    ensures ws[w].conn in stage && stage[ws[w].conn] == WorkerStage(ws[w], w)
  {
  }

  lemma SeqPush(cs: seq<ConnId>, stage: map<ConnId, Stage>, st: Stage, c: ConnId)
    requires SeqOk(cs, stage, st) && c in stage && stage[c] != st
    ensures SeqOk(cs + [c], stage[c := st], st)
  {
    assert c !in cs;
    forall d | d in stage[c := st] && stage[c := st][d] == st ensures d in cs + [c] {}
  }

  lemma SeqPop(cs: seq<ConnId>, stage: map<ConnId, Stage>, st: Stage, next: Stage)
    requires SeqOk(cs, stage, st) && cs != [] && next != st
    ensures SeqOk(cs[1..], stage[cs[0] := next], st)
    ensures cs[0] in stage && stage[cs[0]] == st
  {
    forall d | d in stage && d != cs[0] && stage[d] == st ensures d in cs[1..] {
      assert d in cs;
    }
  }

  /** A live connection at an open stage, seen from its own descriptor. */
  lemma OwnSocket(s: State, c: ConnId)
    requires FdOk(s.conns, s.open, s.nextGen, s.stage) && c in s.stage && IsOpen(s.stage[c])
    ensures FdGood(s, c)
  {
  }

  /** At a registered stage the kernel's entry is the connection's own. */
  lemma OwnEntry(s: State, c: ConnId)
    requires KernelOk(s.interest, s.conns, s.stage) && FdOk(s.conns, s.open, s.nextGen, s.stage)
    requires c in s.stage && IsRegistered(s.stage[c])
    ensures Registered(s, c)
  {
  }

  /** Two open connections never share a descriptor, so a descriptor of an unregistered one has no entry. */
  lemma NoEntry(s: State, c: ConnId)
    requires KernelOk(s.interest, s.conns, s.stage) && FdOk(s.conns, s.open, s.nextGen, s.stage)
    requires c in s.stage && IsOpen(s.stage[c]) && !IsRegistered(s.stage[c])
    ensures FdGood(s, c) && s.conns[c].fd !in s.interest
  {
  }

  /** The kernel knows no descriptor that is not open. */
  lemma ClosedHasNoEntry(s: State, fd: Fd)
    requires KernelOk(s.interest, s.conns, s.stage) && FdOk(s.conns, s.open, s.nextGen, s.stage)
    requires fd !in s.open
    ensures fd !in s.interest
  {
  }

  lemma NotBorn(s: State, c: ConnId)
    requires FdOk(s.conns, s.open, s.nextGen, s.stage) && c !in s.conns
    ensures c !in s.stage
  {
  }

  lemma IsLive(s: State, c: ConnId)
    requires FdOk(s.conns, s.open, s.nextGen, s.stage) && c in s.stage
    ensures c in s.conns
  {
  }

  lemma KernelReady(interest: map<Fd, Interest>, conns: map<ConnId, Conn>, stage: map<ConnId, Stage>, fd: Fd)
    requires KernelOk(interest, conns, stage)
    ensures fd in interest ==> KernelOk(interest[fd := interest[fd].(ready := true)], conns, stage)
  {
  }

  lemma KernelSet(interest: map<Fd, Interest>, conns: map<ConnId, Conn>, stage: map<ConnId, Stage>, c: ConnId, next: Stage, ready: bool)
    requires KernelOk(interest, conns, stage) && c in stage && c in conns && IsRegistered(next)
    requires if IsRegistered(stage[c]) then conns[c].fd in interest && interest[conns[c].fd].conn == c else conns[c].fd !in interest
    ensures KernelOk(interest[conns[c].fd := Interest(c, next.Armed?, ready)], conns, stage[c := next])
  {
  }

  lemma KernelDel(interest: map<Fd, Interest>, conns: map<ConnId, Conn>, stage: map<ConnId, Stage>, c: ConnId, next: Stage)
    requires KernelOk(interest, conns, stage) && c in stage && c in conns && IsRegistered(stage[c]) && !IsRegistered(next)
    ensures KernelOk(interest - {conns[c].fd}, conns, stage[c := next])
  {
  }

  lemma KernelBirth(interest: map<Fd, Interest>, conns: map<ConnId, Conn>, stage: map<ConnId, Stage>, c: ConnId, k: Conn)
    requires KernelOk(interest, conns, stage) && c !in conns
    ensures KernelOk(interest, conns[c := k], stage[c := New])
  {
  }

  lemma KernelDeath(interest: map<Fd, Interest>, conns: map<ConnId, Conn>, stage: map<ConnId, Stage>, c: ConnId)
    requires KernelOk(interest, conns, stage) && c in stage && !IsRegistered(stage[c])
    ensures KernelOk(interest, conns - {c}, stage - {c})
  {
  }

  /** Closing the socket of `c` leaves every other connection's socket alone: two open ones never share a number. */
  lemma FdClose(conns: map<ConnId, Conn>, open: map<Fd, Socket>, nextGen: nat, stage: map<ConnId, Stage>, c: ConnId, next: Stage)
    requires FdOk(conns, open, nextGen, stage) && c in stage && IsOpen(stage[c]) && !IsOpen(next)
    ensures FdOk(conns, open - {conns[c].fd}, nextGen, stage[c := next])
  {
  }

  lemma FdBirth(conns: map<ConnId, Conn>, open: map<Fd, Socket>, nextGen: nat, stage: map<ConnId, Stage>, c: ConnId, fd: Fd)
    requires FdOk(conns, open, nextGen, stage) && c !in conns && fd in open
    requires forall d :: d in conns ==> conns[d].gen != open[fd].gen
    ensures FdOk(conns[c := Conn(fd, open[fd].gen)], open, nextGen, stage[c := New])
  {
  }

  lemma FdDeath(conns: map<ConnId, Conn>, open: map<Fd, Socket>, nextGen: nat, stage: map<ConnId, Stage>, c: ConnId)
    requires FdOk(conns, open, nextGen, stage) && c in stage
    ensures FdOk(conns - {c}, open, nextGen, stage - {c})
  {
    assert (conns - {c}).Keys == (stage - {c}).Keys;
  }

  /** Reading, or more bytes arriving, does not change which socket a descriptor denotes. */
  lemma FdSameSockets(conns: map<ConnId, Conn>, open: map<Fd, Socket>, open': map<Fd, Socket>, nextGen: nat, stage: map<ConnId, Stage>)
    requires FdOk(conns, open, nextGen, stage)
    requires open'.Keys == open.Keys && forall fd :: fd in open ==> open'[fd].gen == open[fd].gen
    ensures FdOk(conns, open', nextGen, stage)
  {
  }

  lemma CountBirth(active: nat, stage: map<ConnId, Stage>, c: ConnId)
    requires CountOk(active, stage) && c !in stage
    ensures CountOk(active, stage[c := New])
  {
    assert CountedSet(stage[c := New]) == CountedSet(stage);
  }

  lemma FdAccepted(conns: map<ConnId, Conn>, open: map<Fd, Socket>, nextGen: nat, stage: map<ConnId, Stage>, fd: Fd, unread: bool)
    requires FdOk(conns, open, nextGen, stage) && fd !in open
    ensures FdOk(conns, open[fd := Socket(unread, nextGen)], nextGen + 1, stage)
    ensures forall c :: c in conns ==> conns[c].gen != nextGen
  {
  }

  lemma FdRefused(conns: map<ConnId, Conn>, open: map<Fd, Socket>, nextGen: nat, stage: map<ConnId, Stage>, fd: Fd)
    requires FdOk(conns, open, nextGen, stage) && fd in open
    requires forall c :: c in conns ==> conns[c].gen != open[fd].gen
    ensures FdOk(conns, open - {fd}, nextGen, stage)
  {
  }

  lemma EntryOwner(s: State, fd: Fd)
    requires KernelOk(s.interest, s.conns, s.stage) && fd in s.interest
    ensures var c := s.interest[fd].conn; c in s.conns && c in s.stage && s.conns[c].fd == fd && IsRegistered(s.stage[c])
    ensures s.interest[fd].armed <==> s.stage[s.interest[fd].conn].Armed?
  {
  }


  // ---------------------------------------------------- every step, one by one

  lemma ArriveKeeps(s: State, fd: Fd)
    requires Inv(s) && OutsideEnabled(s, Arrive(fd))
    ensures Inv(OutsideDone(s, Arrive(fd)))
  {
    hide AcceptorOk, SeqOk, WorkersOk, KernelOk, FdOk, CountOk;
    var t := OutsideDone(s, Arrive(fd));
    FdSameSockets(s.conns, s.open, t.open, s.nextGen, s.stage);
    KernelReady(s.interest, s.conns, s.stage, fd);
  }

  lemma OtherOpenKeeps(s: State, fd: Fd)
    requires Inv(s) && OutsideEnabled(s, OtherOpen(fd))
    ensures Inv(OutsideDone(s, OtherOpen(fd)))
  {
    hide AcceptorOk, SeqOk, WorkersOk, KernelOk, FdOk, CountOk;
  }

  lemma OtherCloseKeeps(s: State, fd: Fd)
    requires Inv(s) && OutsideEnabled(s, OtherClose(fd))
    ensures Inv(OutsideDone(s, OtherClose(fd)))
  {
    hide AcceptorOk, SeqOk, WorkersOk, KernelOk, FdOk, CountOk;
  }

  lemma AcceptFdKeeps(s: State, fd: Fd, unread: bool)
    requires Inv(s) && EpollEnabled(s, AcceptFd(fd, unread))
    ensures EpollSound(s, AcceptFd(fd, unread)) && Inv(EpollDone(s, AcceptFd(fd, unread)))
  {
    hide AcceptorOk, SeqOk, WorkersOk, KernelOk, FdOk, CountOk;
    ClosedHasNoEntry(s, fd);
    AcceptorEmpty(s.acceptor, GotFd(fd), s.stage);
    FdAccepted(s.conns, s.open, s.nextGen, s.stage, fd, unread);
  }

  lemma NonblockFailsKeeps(s: State)
    requires Inv(s) && EpollEnabled(s, NonblockFails)
    ensures EpollSound(s, NonblockFails) && Inv(EpollDone(s, NonblockFails))
  {
    hide AcceptorOk, SeqOk, WorkersOk, KernelOk, FdOk, CountOk;
    AcceptorEmpty(s.acceptor, Idle, s.stage);
    FdRefused(s.conns, s.open, s.nextGen, s.stage, s.acceptor.fd);
  }

  lemma MakeConnKeeps(s: State, c: ConnId)
    requires Inv(s) && EpollEnabled(s, MakeConn(c))
    ensures EpollSound(s, MakeConn(c)) && Inv(EpollDone(s, MakeConn(c)))
  {
    hide AcceptorOk, SeqOk, WorkersOk, KernelOk, FdOk, CountOk;
    NotBorn(s, c);
    SeqFrame(s.batch, s.stage, InBatch, c, New);
    SeqFrame(s.queue, s.stage, InQueue, c, New);
    AcceptorTakes(s.acceptor, s.stage, c);
    WorkersFrame(s.workers, s.stage, c, New);
    FdBirth(s.conns, s.open, s.nextGen, s.stage, c, s.acceptor.fd);
    KernelBirth(s.interest, s.conns, s.stage, c, Conn(s.acceptor.fd, s.open[s.acceptor.fd].gen));
    CountBirth(s.active, s.stage, c);
  }

  lemma CountUpKeeps(s: State)
    requires Inv(s) && EpollEnabled(s, CountUp)
    ensures EpollSound(s, CountUp) && Inv(EpollDone(s, CountUp))
  {
    hide AcceptorOk, SeqOk, WorkersOk, KernelOk, FdOk, CountOk;
    var c := s.acceptor.conn;
    AcceptorMoves(s.acceptor, Counted(s.acceptor.conn, s.active + 1), s.stage);
    IsLive(s, c);
    SeqFrame(s.batch, s.stage, InBatch, c, InCount);
    SeqFrame(s.queue, s.stage, InQueue, c, InCount);
    WorkersFrame(s.workers, s.stage, c, InCount);
    KernelFrame(s.interest, s.conns, s.stage, c, InCount);
    FdFrame(s.conns, s.open, s.nextGen, s.stage, c, InCount);
    CountFrame(s.active, s.stage, c, InCount);
  }

  lemma LoadPeakKeeps(s: State)
    requires Inv(s) && EpollEnabled(s, LoadPeak)
    ensures EpollSound(s, LoadPeak) && Inv(EpollDone(s, LoadPeak))
  {
    hide AcceptorOk, SeqOk, WorkersOk, KernelOk, FdOk, CountOk;
    var c := s.acceptor.conn;
    AcceptorMoves(s.acceptor, Raising(s.acceptor.conn, s.acceptor.mine, s.peak), s.stage);
    IsLive(s, c);
    SeqFrame(s.batch, s.stage, InBatch, c, InPeak);
    SeqFrame(s.queue, s.stage, InQueue, c, InPeak);
    WorkersFrame(s.workers, s.stage, c, InPeak);
    KernelFrame(s.interest, s.conns, s.stage, c, InPeak);
    FdFrame(s.conns, s.open, s.nextGen, s.stage, c, InPeak);
    CountFrame(s.active, s.stage, c, InPeak);
  }

  lemma CompareExchangeKeeps(s: State, spurious: bool)
    requires Inv(s) && EpollEnabled(s, CompareExchange(spurious))
    ensures EpollSound(s, CompareExchange(spurious)) && Inv(EpollDone(s, CompareExchange(spurious)))
  {
    hide AcceptorOk, SeqOk, WorkersOk, KernelOk, FdOk, CountOk;
    var c := s.acceptor.conn;
    AcceptorMoves(s.acceptor, Adding(c), s.stage);
    AcceptorMoves(s.acceptor, Raising(c, s.acceptor.mine, s.peak), s.stage);
    assert s.stage[c := InPeak] == s.stage;
    SeqFrame(s.batch, s.stage, InBatch, c, BeforeAdd);
    SeqFrame(s.queue, s.stage, InQueue, c, BeforeAdd);
    WorkersFrame(s.workers, s.stage, c, BeforeAdd);
    KernelFrame(s.interest, s.conns, s.stage, c, BeforeAdd);
    FdFrame(s.conns, s.open, s.nextGen, s.stage, c, BeforeAdd);
    CountFrame(s.active, s.stage, c, BeforeAdd);
  }

  lemma AddOkKeeps(s: State)
    requires Inv(s) && EpollEnabled(s, AddOk)
    ensures EpollSound(s, AddOk) && Inv(EpollDone(s, AddOk))
  {
    hide AcceptorOk, SeqOk, WorkersOk, KernelOk, FdOk, CountOk;
    var c := s.acceptor.conn;
    AcceptorLetsGo(s.acceptor, s.stage, Armed);
    NoEntry(s, c);
    KernelSet(s.interest, s.conns, s.stage, c, Armed, s.open[s.conns[c].fd].unread);
    SeqFrame(s.batch, s.stage, InBatch, c, Armed);
    SeqFrame(s.queue, s.stage, InQueue, c, Armed);
    WorkersFrame(s.workers, s.stage, c, Armed);
    FdFrame(s.conns, s.open, s.nextGen, s.stage, c, Armed);
    CountFrame(s.active, s.stage, c, Armed);
  }

  lemma AddFailsKeeps(s: State)
    requires Inv(s) && EpollEnabled(s, AddFails)
    ensures EpollSound(s, AddFails) && Inv(EpollDone(s, AddFails))
  {
    hide AcceptorOk, SeqOk, WorkersOk, KernelOk, FdOk, CountOk;
    var c := s.acceptor.conn;
    AcceptorMoves(s.acceptor, FailClosing(c), s.stage);
    OwnSocket(s, c);
    SeqFrame(s.batch, s.stage, InBatch, c, AddFailed);
    SeqFrame(s.queue, s.stage, InQueue, c, AddFailed);
    WorkersFrame(s.workers, s.stage, c, AddFailed);
    KernelFrame(s.interest, s.conns, s.stage, c, AddFailed);
    FdFrame(s.conns, s.open, s.nextGen, s.stage, c, AddFailed);
    CountFrame(s.active, s.stage, c, AddFailed);
  }

  lemma FailCloseKeeps(s: State)
    requires Inv(s) && EpollEnabled(s, FailClose)
    ensures EpollSound(s, FailClose) && Inv(EpollDone(s, FailClose))
  {
    hide AcceptorOk, SeqOk, WorkersOk, KernelOk, FdOk, CountOk;
    var c := s.acceptor.conn;
    AcceptorMoves(s.acceptor, FailUncounting(c), s.stage);
    OwnSocket(s, c);
    FdClose(s.conns, s.open, s.nextGen, s.stage, c, FailedClosed);
    SeqFrame(s.batch, s.stage, InBatch, c, FailedClosed);
    SeqFrame(s.queue, s.stage, InQueue, c, FailedClosed);
    WorkersFrame(s.workers, s.stage, c, FailedClosed);
    KernelFrame(s.interest, s.conns, s.stage, c, FailedClosed);
    CountFrame(s.active, s.stage, c, FailedClosed);
  }

  lemma FailUncountKeeps(s: State)
    requires Inv(s) && EpollEnabled(s, FailUncount)
    ensures EpollSound(s, FailUncount) && Inv(EpollDone(s, FailUncount))
  {
    hide AcceptorOk, SeqOk, WorkersOk, KernelOk, FdOk, CountOk;
    var c := s.acceptor.conn;
    AcceptorMoves(s.acceptor, FailDeleting(c), s.stage);
    SeqFrame(s.batch, s.stage, InBatch, c, FailedUncounted);
    SeqFrame(s.queue, s.stage, InQueue, c, FailedUncounted);
    WorkersFrame(s.workers, s.stage, c, FailedUncounted);
    KernelFrame(s.interest, s.conns, s.stage, c, FailedUncounted);
    FdFrame(s.conns, s.open, s.nextGen, s.stage, c, FailedUncounted);
    CountFrame(s.active, s.stage, c, FailedUncounted);
  }

  lemma FailDeleteKeeps(s: State)
    requires Inv(s) && EpollEnabled(s, FailDelete)
    ensures EpollSound(s, FailDelete) && Inv(EpollDone(s, FailDelete))
  {
    hide AcceptorOk, SeqOk, WorkersOk, KernelOk, FdOk, CountOk;
    var c := s.acceptor.conn;
    AcceptorLetsGo(s.acceptor, s.stage, Armed);
    WorkersFrame(s.workers, s.stage, c, New);
    SeqFrameFree(s.batch, s.stage, InBatch, c);
    SeqFrameFree(s.queue, s.stage, InQueue, c);
    KernelDeath(s.interest, s.conns, s.stage, c);
    FdDeath(s.conns, s.open, s.nextGen, s.stage, c);
    CountFrame(s.active, s.stage, c, New);
    IsLive(s, c);
  }

  lemma DeliverKeeps(s: State, fd: Fd)
    requires Inv(s) && EpollEnabled(s, Deliver(fd))
    ensures EpollSound(s, Deliver(fd)) && Inv(EpollDone(s, Deliver(fd)))
  {
    hide AcceptorOk, SeqOk, WorkersOk, KernelOk, FdOk, CountOk;
    var c := s.interest[fd].conn;
    EntryOwner(s, fd);
    SeqPush(s.batch, s.stage, InBatch, c);
    SeqFrame(s.queue, s.stage, InQueue, c, InBatch);
    KernelSet(s.interest, s.conns, s.stage, c, InBatch, false);
    AcceptorFrame(s.acceptor, s.stage, c, InBatch);
    WorkersFrame(s.workers, s.stage, c, InBatch);
    FdFrame(s.conns, s.open, s.nextGen, s.stage, c, InBatch);
    CountFrame(s.active, s.stage, c, InBatch);
  }

  lemma WaitingKeeps(s: State, e: EpollStep)
    requires Inv(s) && EpollEnabled(s, e) && (e.WakeUp? || e.BeginWait?)
    ensures EpollSound(s, e) && Inv(EpollDone(s, e))
  {
    hide AcceptorOk, SeqOk, WorkersOk, KernelOk, FdOk, CountOk, ReadyOk, GotFdOk, PeakOk;
  }

  lemma DispatchKeeps(s: State)
    requires Inv(s) && EpollEnabled(s, Dispatch)
    ensures EpollSound(s, Dispatch) && Inv(EpollDone(s, Dispatch))
  {
    hide AcceptorOk, SeqOk, WorkersOk, KernelOk, FdOk, CountOk, ReadyOk, GotFdOk, PeakOk;
    var c := s.batch[0];
    SeqPop(s.batch, s.stage, InBatch, InQueue);
    SeqPush(s.queue, s.stage, InQueue, c);
    IsLive(s, c);
    AcceptorFrame(s.acceptor, s.stage, c, InQueue);
    WorkersFrame(s.workers, s.stage, c, InQueue);
    KernelFrame(s.interest, s.conns, s.stage, c, InQueue);
    FdFrame(s.conns, s.open, s.nextGen, s.stage, c, InQueue);
    CountFrame(s.active, s.stage, c, InQueue);
  }

  lemma PopKeeps(s: State, w: nat)
    requires Inv(s) && w < |s.workers| && WorkerEnabled(s, w, Pop)
    ensures WorkerSound(s, w, Pop) && Inv(WorkerDone(s, w, Pop))
  {
    hide AcceptorOk, SeqOk, WorkersOk, KernelOk, FdOk, CountOk, ReadyOk, GotFdOk, PeakOk;
    var c := s.queue[0];
    SeqPop(s.queue, s.stage, InQueue, Served(w));
    SeqFrame(s.batch, s.stage, InBatch, c, Served(w));
    WorkersTake(s.workers, s.stage, w, Busy(c, false));
    IsLive(s, c);
    AcceptorFrame(s.acceptor, s.stage, c, Served(w));
    KernelFrame(s.interest, s.conns, s.stage, c, Served(w));
    FdFrame(s.conns, s.open, s.nextGen, s.stage, c, Served(w));
    CountFrame(s.active, s.stage, c, Served(w));
  }

  lemma DrainKeeps(s: State, w: nat)
    requires Inv(s) && w < |s.workers| && WorkerEnabled(s, w, Drain)
    ensures WorkerSound(s, w, Drain) && Inv(WorkerDone(s, w, Drain))
  {
    hide AcceptorOk, SeqOk, WorkersOk, KernelOk, FdOk, CountOk;
    var c := s.workers[w].conn;
    WorkersMove(s.workers, s.stage, w, Busy(c, true));
    assert s.stage[c := Served(w)] == s.stage;
    OwnEntry(s, c);
    EntryOwner(s, s.conns[c].fd);
    FdSameSockets(s.conns, s.open, WorkerDone(s, w, Drain).open, s.nextGen, s.stage);
  }

  lemma DecideArmKeeps(s: State, w: nat)
    requires Inv(s) && w < |s.workers| && WorkerEnabled(s, w, DecideArm)
    ensures WorkerSound(s, w, DecideArm) && Inv(WorkerDone(s, w, DecideArm))
  {
    hide AcceptorOk, SeqOk, WorkersOk, KernelOk, FdOk, CountOk, ReadyOk, GotFdOk, PeakOk;
    var c := s.workers[w].conn;
    WorkersMove(s.workers, s.stage, w, Arming(c));
    SeqFrame(s.batch, s.stage, InBatch, c, BeforeMod(w));
    SeqFrame(s.queue, s.stage, InQueue, c, BeforeMod(w));
    AcceptorFrame(s.acceptor, s.stage, c, BeforeMod(w));
    KernelFrame(s.interest, s.conns, s.stage, c, BeforeMod(w));
    FdFrame(s.conns, s.open, s.nextGen, s.stage, c, BeforeMod(w));
    CountFrame(s.active, s.stage, c, BeforeMod(w));
  }

  lemma DecideCloseKeeps(s: State, w: nat)
    requires Inv(s) && w < |s.workers| && WorkerEnabled(s, w, DecideClose)
    ensures WorkerSound(s, w, DecideClose) && Inv(WorkerDone(s, w, DecideClose))
  {
    hide AcceptorOk, SeqOk, WorkersOk, KernelOk, FdOk, CountOk, ReadyOk, GotFdOk, PeakOk;
    var c := s.workers[w].conn;
    WorkersMove(s.workers, s.stage, w, Unregistering(c));
    SeqFrame(s.batch, s.stage, InBatch, c, BeforeDel(w));
    SeqFrame(s.queue, s.stage, InQueue, c, BeforeDel(w));
    AcceptorFrame(s.acceptor, s.stage, c, BeforeDel(w));
    KernelFrame(s.interest, s.conns, s.stage, c, BeforeDel(w));
    FdFrame(s.conns, s.open, s.nextGen, s.stage, c, BeforeDel(w));
    CountFrame(s.active, s.stage, c, BeforeDel(w));
  }

  lemma ModOkKeeps(s: State, w: nat)
    requires Inv(s) && w < |s.workers| && WorkerEnabled(s, w, ModOk)
    ensures WorkerSound(s, w, ModOk) && Inv(WorkerDone(s, w, ModOk))
  {
    hide AcceptorOk, SeqOk, WorkersOk, KernelOk, FdOk, CountOk;
    var c := s.workers[w].conn;
    WorkersLetGo(s.workers, s.stage, w, Armed);
    OwnEntry(s, c);
    KernelSet(s.interest, s.conns, s.stage, c, Armed, s.open[s.conns[c].fd].unread);
    SeqFrame(s.batch, s.stage, InBatch, c, Armed);
    SeqFrame(s.queue, s.stage, InQueue, c, Armed);
    AcceptorFrame(s.acceptor, s.stage, c, Armed);
    FdFrame(s.conns, s.open, s.nextGen, s.stage, c, Armed);
    CountFrame(s.active, s.stage, c, Armed);
  }

  lemma ModFailsKeeps(s: State, w: nat)
    requires Inv(s) && w < |s.workers| && WorkerEnabled(s, w, ModFails)
    ensures WorkerSound(s, w, ModFails) && Inv(WorkerDone(s, w, ModFails))
  {
    hide AcceptorOk, SeqOk, WorkersOk, KernelOk, FdOk, CountOk, ReadyOk, GotFdOk, PeakOk;
    var c := s.workers[w].conn;
    WorkersMove(s.workers, s.stage, w, Unregistering(c));
    OwnSocket(s, c);
    SeqFrame(s.batch, s.stage, InBatch, c, BeforeDel(w));
    SeqFrame(s.queue, s.stage, InQueue, c, BeforeDel(w));
    AcceptorFrame(s.acceptor, s.stage, c, BeforeDel(w));
    KernelFrame(s.interest, s.conns, s.stage, c, BeforeDel(w));
    FdFrame(s.conns, s.open, s.nextGen, s.stage, c, BeforeDel(w));
    CountFrame(s.active, s.stage, c, BeforeDel(w));
  }

  lemma UnregisterKeeps(s: State, w: nat)
    requires Inv(s) && w < |s.workers| && WorkerEnabled(s, w, Unregister)
    ensures WorkerSound(s, w, Unregister) && Inv(WorkerDone(s, w, Unregister))
  {
    hide AcceptorOk, SeqOk, WorkersOk, KernelOk, FdOk, CountOk;
    var c := s.workers[w].conn;
    WorkersMove(s.workers, s.stage, w, Closing(c));
    OwnEntry(s, c);
    KernelDel(s.interest, s.conns, s.stage, c, BeforeClose(w));
    SeqFrame(s.batch, s.stage, InBatch, c, BeforeClose(w));
    SeqFrame(s.queue, s.stage, InQueue, c, BeforeClose(w));
    AcceptorFrame(s.acceptor, s.stage, c, BeforeClose(w));
    FdFrame(s.conns, s.open, s.nextGen, s.stage, c, BeforeClose(w));
    CountFrame(s.active, s.stage, c, BeforeClose(w));
  }

  lemma CloseFdKeeps(s: State, w: nat)
    requires Inv(s) && w < |s.workers| && WorkerEnabled(s, w, CloseFd)
    ensures WorkerSound(s, w, CloseFd) && Inv(WorkerDone(s, w, CloseFd))
  {
    hide AcceptorOk, SeqOk, WorkersOk, KernelOk, FdOk, CountOk;
    var c := s.workers[w].conn;
    WorkersMove(s.workers, s.stage, w, Uncounting(c));
    OwnSocket(s, c);
    FdClose(s.conns, s.open, s.nextGen, s.stage, c, Closed(w));
    SeqFrame(s.batch, s.stage, InBatch, c, Closed(w));
    SeqFrame(s.queue, s.stage, InQueue, c, Closed(w));
    AcceptorFrame(s.acceptor, s.stage, c, Closed(w));
    KernelFrame(s.interest, s.conns, s.stage, c, Closed(w));
    CountFrame(s.active, s.stage, c, Closed(w));
  }

  lemma UncountKeeps(s: State, w: nat)
    requires Inv(s) && w < |s.workers| && WorkerEnabled(s, w, Uncount)
    ensures WorkerSound(s, w, Uncount) && Inv(WorkerDone(s, w, Uncount))
  {
    hide AcceptorOk, SeqOk, WorkersOk, KernelOk, FdOk, CountOk, ReadyOk, GotFdOk;
    var c := s.workers[w].conn;
    WorkersMove(s.workers, s.stage, w, Deleting(c));
    IsLive(s, c);
    SeqFrame(s.batch, s.stage, InBatch, c, Uncounted(w));
    SeqFrame(s.queue, s.stage, InQueue, c, Uncounted(w));
    AcceptorFrame(s.acceptor, s.stage, c, Uncounted(w));
    KernelFrame(s.interest, s.conns, s.stage, c, Uncounted(w));
    FdFrame(s.conns, s.open, s.nextGen, s.stage, c, Uncounted(w));
    CountFrame(s.active, s.stage, c, Uncounted(w));
  }

  lemma DeleteKeeps(s: State, w: nat)
    requires Inv(s) && w < |s.workers| && WorkerEnabled(s, w, Delete)
    ensures WorkerSound(s, w, Delete) && Inv(WorkerDone(s, w, Delete))
  {
    hide AcceptorOk, SeqOk, WorkersOk, KernelOk, FdOk, CountOk;
    var c := s.workers[w].conn;
    WorkersLetGo(s.workers, s.stage, w, Armed);
    AcceptorFrame(s.acceptor, s.stage, c, Armed);
    SeqFrameFree(s.batch, s.stage, InBatch, c);
    SeqFrameFree(s.queue, s.stage, InQueue, c);
    KernelDeath(s.interest, s.conns, s.stage, c);
    FdDeath(s.conns, s.open, s.nextGen, s.stage, c);
    CountFrame(s.active, s.stage, c, New);
    IsLive(s, c);
  }

  // ------------------------------------------------------------------- runs

  lemma OutsideKeeps(s: State, o: OutsideStep)
    requires Inv(s) && OutsideEnabled(s, o)
    ensures Inv(OutsideDone(s, o))
  {
    hide Inv, OutsideEnabled, OutsideDone;
    match o
    case Arrive(fd) => ArriveKeeps(s, fd);
    case OtherOpen(fd) => OtherOpenKeeps(s, fd);
    case OtherClose(fd) => OtherCloseKeeps(s, fd);
  }

  lemma EpollKeeps(s: State, e: EpollStep)
    requires Inv(s) && EpollEnabled(s, e)
    ensures EpollSound(s, e) && Inv(EpollDone(s, e))
  {
    hide Inv, EpollEnabled, EpollSound, EpollDone;
    match e
    case AcceptFd(fd, unread) => AcceptFdKeeps(s, fd, unread);
    case NonblockFails => NonblockFailsKeeps(s);
    case MakeConn(c) => MakeConnKeeps(s, c);
    case CountUp => CountUpKeeps(s);
    case LoadPeak => LoadPeakKeeps(s);
    case CompareExchange(spurious) => CompareExchangeKeeps(s, spurious);
    case AddOk => AddOkKeeps(s);
    case AddFails => AddFailsKeeps(s);
    case FailClose => FailCloseKeeps(s);
    case FailUncount => FailUncountKeeps(s);
    case FailDelete => FailDeleteKeeps(s);
    case Deliver(fd) => DeliverKeeps(s, fd);
    case WakeUp => WaitingKeeps(s, e);
    case Dispatch => DispatchKeeps(s);
    case BeginWait => WaitingKeeps(s, e);
  }

  lemma WorkerKeeps(s: State, w: nat, k: WorkerStep)
    requires Inv(s) && w < |s.workers| && WorkerEnabled(s, w, k)
    ensures WorkerSound(s, w, k) && Inv(WorkerDone(s, w, k))
  {
    hide Inv, WorkerEnabled, WorkerSound, WorkerDone;
    match k
    case Pop => PopKeeps(s, w);
    case Drain => DrainKeeps(s, w);
    case DecideArm => DecideArmKeeps(s, w);
    case DecideClose => DecideCloseKeeps(s, w);
    case ModOk => ModOkKeeps(s, w);
    case ModFails => ModFailsKeeps(s, w);
    case Unregister => UnregisterKeeps(s, w);
    case CloseFd => CloseFdKeeps(s, w);
    case Uncount => UncountKeeps(s, w);
    case Delete => DeleteKeeps(s, w);
  }

  /** Every step any thread can take from a good state is sound and leads to a good state. */
  lemma StepKeeps(s: State, a: Step)
    requires Inv(s) && Enabled(s, a)
    ensures Sound(s, a) && Inv(Apply(s, a))
  {
    hide Inv, OutsideEnabled, EpollEnabled, WorkerEnabled, EpollSound, WorkerSound, OutsideDone, EpollDone, WorkerDone;
    match a
    case Outside(o) => OutsideKeeps(s, o);
    case Epoll(e) => EpollKeeps(s, e);
    case OnWorker(w, k) => WorkerKeeps(s, w, k);
  }

  predicate ValidRun(s: State, run: seq<Step>)
    decreases |run|
  {
    run == [] || (Enabled(s, run[0]) && ValidRun(Apply(s, run[0]), run[1..]))
  }

  function End(s: State, run: seq<Step>): State
    requires ValidRun(s, run)
    decreases |run|
  {
    if run == [] then s else End(Apply(s, run[0]), run[1..])
  }

  /** The invariant holds after every run from a good state, whatever the interleaving. */
  lemma {:induction false} RunKeeps(s: State, run: seq<Step>)
    requires Inv(s) && ValidRun(s, run)
    ensures Inv(End(s, run))
    decreases |run|
  {
    hide Inv, Enabled, Apply;
    if run != [] {
      StepKeeps(s, run[0]);
      RunKeeps(Apply(s, run[0]), run[1..]);
    }
  }

  // ----------------------------------------------------------- main results

  /** `o` is a place from which `c` can still be reached. */
  ghost predicate Owns(s: State, o: Owner, c: ConnId) {
    match o
    case ByAcceptor => !s.acceptor.Idle? && !s.acceptor.GotFd? && s.acceptor.conn == c
    case ByKernel(fd) => fd in s.interest && s.interest[fd].armed && s.interest[fd].conn == c
    case ByBatch(i) => i < |s.batch| && s.batch[i] == c
    case ByQueue(i) => i < |s.queue| && s.queue[i] == c
    case ByWorker(w) => w < |s.workers| && !s.workers[w].Resting? && s.workers[w].conn == c
  }

  /** The kind of owner a stage stands for. */
  predicate Suits(o: Owner, st: Stage) {
    match o
    case ByAcceptor => OfAcceptor(st)
    case ByKernel(_) => st.Armed?
    case ByBatch(_) => st.InBatch?
    case ByQueue(_) => st.InQueue?
    case ByWorker(w) => OfWorker(st) && st.w == w
  }

  lemma HeldByAcceptor(a: Acceptor, stage: map<ConnId, Stage>)
    requires AcceptorOk(a, stage) && !a.Idle? && !a.GotFd?
    ensures a.conn in stage && OfAcceptor(stage[a.conn])
  {
  }

  lemma HeldInSeq(cs: seq<ConnId>, stage: map<ConnId, Stage>, st: Stage, i: nat)
    requires SeqOk(cs, stage, st) && i < |cs|
    ensures cs[i] in stage && stage[cs[i]] == st
  {
  }

  lemma HeldByWorker(ws: seq<Worker>, stage: map<ConnId, Stage>, w: nat)
    requires WorkersOk(ws, stage) && w < |ws| && !ws[w].Resting?
    ensures ws[w].conn in stage && stage[ws[w].conn] == WorkerStage(ws[w], w)
  {
  }

  lemma OwnedStage(s: State, o: Owner, c: ConnId)
    requires Inv(s) && Owns(s, o, c)
    ensures c in s.stage && Suits(o, s.stage[c])
  {
    hide AcceptorOk, SeqOk, WorkersOk, KernelOk, FdOk, CountOk, ReadyOk, GotFdOk, PeakOk;
    match o
    case ByAcceptor => HeldByAcceptor(s.acceptor, s.stage);
    case ByKernel(fd) => EntryOwner(s, fd);
    case ByBatch(i) => HeldInSeq(s.batch, s.stage, InBatch, i);
    case ByQueue(i) => HeldInSeq(s.queue, s.stage, InQueue, i);
    case ByWorker(w) => HeldByWorker(s.workers, s.stage, w);
  }

  lemma OwnedIsLive(s: State, o: Owner, c: ConnId)
    requires Inv(s) && Owns(s, o, c)
    ensures c in s.conns && c !in s.freed && c in s.stage && Suits(o, s.stage[c])
  {
    hide Owns, Suits, KernelOk, SeqOk, AcceptorOk, WorkersOk;
    OwnedStage(s, o, c);
  }

  lemma SomeOwner(s: State, c: ConnId) returns (o: Owner)
    requires Inv(s) && c in s.conns
    ensures Owns(s, o, c)
  {
    var st := s.stage[c];
    if OfAcceptor(st) {
      o := ByAcceptor;
    } else if OfWorker(st) {
      o := ByWorker(st.w);
    } else if st.Armed? {
      OwnEntry(s, c);
      o := ByKernel(s.conns[c].fd);
    } else if st.InBatch? {
      assert c in s.batch;
      var i :| 0 <= i < |s.batch| && s.batch[i] == c;
      o := ByBatch(i);
    } else {
      assert c in s.queue;
      var i :| 0 <= i < |s.queue| && s.queue[i] == c;
      o := ByQueue(i);
    }
  }

  lemma OwnersAgree(s: State, o: Owner, o': Owner, c: ConnId)
    requires Inv(s) && Owns(s, o, c) && Owns(s, o', c)
    ensures o == o'
  {
    hide AcceptorOk, WorkersOk, KernelOk, FdOk;
    OwnedStage(s, o, c);
    OwnedStage(s, o', c);
    if o.ByKernel? {
      EntryOwner(s, o.fd);
      EntryOwner(s, o'.fd);
    }
  }

  /** In every interleaving: nothing ever crashes, each live connection has exactly one owner, and owners hold live ones only. */
  lemma OwnershipSafety(workers: nat, run: seq<Step>)
    requires ValidRun(Start(workers), run)
    ensures var s := End(Start(workers), run);
      && !s.crashed
      && (forall c :: c in s.conns ==> exists o :: Owns(s, o, c))
      && (forall o, o', c :: Owns(s, o, c) && Owns(s, o', c) ==> o == o')
      && (forall o, c :: Owns(s, o, c) ==> c in s.conns && c !in s.freed)
  {
    StartInv(workers);
    RunKeeps(Start(workers), run);
    var s := End(Start(workers), run);
    assert !s.crashed;
    hide Inv, Owns;
    forall c | c in s.conns ensures exists o :: Owns(s, o, c) { var o := SomeOwner(s, c); }
    forall o, o', c | Owns(s, o, c) && Owns(s, o', c) ensures o == o' { OwnersAgree(s, o, o', c); }
    forall o, c | Owns(s, o, c) ensures c in s.conns && c !in s.freed { OwnedIsLive(s, o, c); }
  }

  /** The live connections whose socket has not been closed. */
  function HasSocket(s: State): set<ConnId> { set c | c in s.conns && c in s.stage && IsOpen(s.stage[c]) }

  /** In every interleaving, under reuse of numbers, two connections with open sockets have different descriptors, each denoting its own socket. */
  lemma DescriptorsDistinct(workers: nat, run: seq<Step>)
    requires ValidRun(Start(workers), run)
    ensures var s := End(Start(workers), run);
      && (forall c :: c in HasSocket(s) ==> FdGood(s, c))
      && (forall c, d :: c in HasSocket(s) && d in HasSocket(s) && c != d ==> s.conns[c].fd != s.conns[d].fd)
  {
    StartInv(workers);
    RunKeeps(Start(workers), run);
  }

  /** In every interleaving, an armed connection with unread bytes or end of file is marked ready: whenever the epoll thread waits it can be reported at once. */
  lemma NeverStranded(workers: nat, run: seq<Step>, fd: Fd)
    requires ValidRun(Start(workers), run)
    ensures var s := End(Start(workers), run);
      fd in s.interest && fd in s.open && s.interest[fd].armed && s.open[fd].unread ==>
        s.interest[fd].ready && (s.waiting ==> Enabled(s, Epoll(Deliver(fd))))
  {
    StartInv(workers);
    RunKeeps(Start(workers), run);
  }

  /** Waiting for the network: armed at the kernel with nothing unread. */
  predicate Waits(s: State, c: ConnId) {
    Registered(s, c) && s.interest[s.conns[c].fd].armed && !s.open[s.conns[c].fd].unread
  }

  /** Before its increment, or after its decrement, a live connection is not in the counter. */
  ghost predicate OutOfCount(s: State, c: ConnId) {
    || ((s.acceptor.Made? || s.acceptor.FailDeleting?) && s.acceptor.conn == c)
    || exists w :: 0 <= w < |s.workers| && s.workers[w] == Deleting(c)
  }

  lemma OutOfCountStage(s: State, c: ConnId)
    requires AcceptorOk(s.acceptor, s.stage) && WorkersOk(s.workers, s.stage) && c in s.stage
    ensures OutOfCount(s, c) <==> !IsCounted(s.stage[c])
  {
    if s.stage[c].Uncounted? {
      assert s.workers[s.stage[c].w] == Deleting(c);
    }
    if w :| 0 <= w < |s.workers| && s.workers[w] == Deleting(c) {
      assert s.stage[s.workers[w].conn] == WorkerStage(s.workers[w], w);
    }
  }

  /** In every interleaving the active counter is the number of live connections past their increment and before their decrement. */
  lemma ActiveIsExact(workers: nat, run: seq<Step>)
    requires ValidRun(Start(workers), run)
    ensures var s := End(Start(workers), run);
      s.active == |set c | c in s.conns && !OutOfCount(s, c)|
  {
    StartInv(workers);
    RunKeeps(Start(workers), run);
    var s := End(Start(workers), run);
    assert s.conns.Keys == s.stage.Keys;
    hide OutOfCount, IsCounted;
    forall c | c in s.stage ensures OutOfCount(s, c) <==> !IsCounted(s.stage[c]) { OutOfCountStage(s, c); }
    assert (set c | c in s.conns && !OutOfCount(s, c)) == CountedSet(s.stage);
  }

  /** The largest value the active counter has along a run. */
  function Maximum(s: State, run: seq<Step>): nat
    requires ValidRun(s, run)
    decreases |run|
  {
    if run == [] then s.active else Max(s.active, Maximum(Apply(s, run[0]), run[1..]))
  }

  lemma EpollHighest(s: State, e: EpollStep)
    requires EpollEnabled(s, e) && EpollSound(s, e) && s.active <= s.highest
    ensures EpollDone(s, e).highest == Max(s.highest, EpollDone(s, e).active)
  {
    hide EpollEnabled, EpollSound, EpollDone;
    if e.CountUp? {
      CountUpHighest(s);
    } else if e.CompareExchange? {
      ExchangeHighest(s, e);
    } else if Accepting(e) {
      AcceptingHighest(s, e);
    } else {
      HandlingHighest(s, e);
    }
  }

  predicate Accepting(e: EpollStep) { e.AcceptFd? || e.NonblockFails? || e.MakeConn? || e.LoadPeak? || e.AddOk? || e.AddFails? }

  lemma CountUpHighest(s: State)
    requires EpollEnabled(s, CountUp) && EpollSound(s, CountUp) && s.active <= s.highest
    ensures EpollDone(s, CountUp).highest == Max(s.highest, EpollDone(s, CountUp).active)
  {
  }

  lemma ExchangeHighest(s: State, e: EpollStep)
    requires EpollEnabled(s, e) && EpollSound(s, e) && e.CompareExchange?
    ensures EpollDone(s, e).highest == s.highest && EpollDone(s, e).active == s.active
  {
    ExchangeDone(s, e);
    hide EpollEnabled, EpollSound, EpollDone;
  }

  /** The cases of the compare-and-swap. */
  lemma ExchangeDone(s: State, e: EpollStep)
    requires EpollEnabled(s, e) && EpollSound(s, e) && e.CompareExchange?
    ensures var Raising(c, mine, prev) := s.acceptor;
            EpollDone(s, e) == if mine <= prev then At(s, c, BeforeAdd).(acceptor := Adding(c))
                               else if s.peak == prev && !e.spurious then At(s, c, BeforeAdd).(peak := mine, acceptor := Adding(c))
                               else s.(acceptor := Raising(c, mine, s.peak))
  {
  }

  lemma AcceptingHighest(s: State, e: EpollStep)
    requires EpollEnabled(s, e) && EpollSound(s, e) && Accepting(e)
    ensures EpollDone(s, e).highest == s.highest && EpollDone(s, e).active == s.active
  {
  }

  lemma HandlingHighest(s: State, e: EpollStep)
    requires EpollEnabled(s, e) && EpollSound(s, e) && !Accepting(e) && !e.CountUp? && !e.CompareExchange?
    ensures EpollDone(s, e).highest == s.highest && EpollDone(s, e).active <= s.active
  {
  }

  lemma WorkerHighest(s: State, w: nat, k: WorkerStep)
    requires w < |s.workers| && WorkerEnabled(s, w, k) && WorkerSound(s, w, k) && s.active <= s.highest
    ensures WorkerDone(s, w, k).highest == Max(s.highest, WorkerDone(s, w, k).active)
  {
  }

  lemma HighestStep(s: State, a: Step)
    requires Inv(s) && Enabled(s, a)
    ensures Apply(s, a).highest == Max(s.highest, Apply(s, a).active)
  {
    hide Inv, EpollEnabled, EpollSound, EpollDone, WorkerEnabled, WorkerSound, WorkerDone;
    StepKeeps(s, a);
    HighestBounds(s);
    match a
    case Outside(_) =>
    case Epoll(e) => EpollHighest(s, e);
    case OnWorker(w, k) => WorkerHighest(s, w, k);
  }

  lemma HighestBounds(s: State)
    requires Inv(s)
    ensures s.active <= s.highest
  {
  }

  lemma {:induction false} HighestIsMaximum(s: State, run: seq<Step>)
    requires Inv(s) && ValidRun(s, run)
    ensures End(s, run).highest == Max(s.highest, Maximum(s, run))
    decreases |run|
  {
    hide Inv, Enabled, Apply;
    HighestBounds(s);
    if run != [] {
      StepKeeps(s, run[0]);
      HighestStep(s, run[0]);
      HighestIsMaximum(Apply(s, run[0]), run[1..]);
    }
  }

  /** In every interleaving, whenever the compare-and-swap loop is not in progress the peak counter is the historical maximum of the active counter. */
  lemma PeakIsMaximum(workers: nat, run: seq<Step>)
    requires ValidRun(Start(workers), run)
    ensures var s := End(Start(workers), run);
      !s.acceptor.Counted? && !s.acceptor.Raising? ==> s.peak == Maximum(Start(workers), run)
  {
    StartInv(workers);
    RunKeeps(Start(workers), run);
    HighestIsMaximum(Start(workers), run);
  }

  /** The step closes the socket of `c`. */
  predicate Closes(s: State, a: Step, c: ConnId) {
    || (a.Epoll? && a.e.FailClose? && s.acceptor.FailClosing? && s.acceptor.conn == c)
    || (a.OnWorker? && a.k.CloseFd? && a.w < |s.workers| && s.workers[a.w] == Closing(c))
  }

  function Closings(s: State, run: seq<Step>, c: ConnId): nat
    requires ValidRun(s, run)
    decreases |run|
  {
    if run == [] then 0
    else (if Closes(s, run[0], c) then 1 else 0) + Closings(Apply(s, run[0]), run[1..], c)
  }

  /** How many closings a connection still has ahead of it at most. */
  function Ahead(s: State, c: ConnId): nat {
    if c in s.freed || (c in s.stage && !IsOpen(s.stage[c])) then 0 else 1
  }

  lemma AcceptorSpends(s: State, e: EpollStep, c: ConnId)
    requires Inv(s) && EpollEnabled(s, e) && EpollSound(s, e) && !e.Deliver? && !e.Dispatch?
    ensures Ahead(EpollDone(s, e), c) + (if Closes(s, Epoll(e), c) then 1 else 0) <= Ahead(s, c)
  {
    hide SeqOk, WorkersOk, KernelOk, ReadyOk, FdOk, CountOk, PeakOk;
    if e.MakeConn? { NotBorn(s, e.conn); }
  }

  lemma EpollSpends(s: State, e: EpollStep, c: ConnId)
    requires Inv(s) && EpollEnabled(s, e) && EpollSound(s, e)
    ensures Ahead(EpollDone(s, e), c) + (if Closes(s, Epoll(e), c) then 1 else 0) <= Ahead(s, c)
  {
    hide AcceptorOk, WorkersOk, KernelOk, ReadyOk, FdOk, CountOk, PeakOk;
    if e.Deliver? {
      EntryOwner(s, e.fd);
    } else if !e.Dispatch? {
      AcceptorSpends(s, e, c);
    }
  }

  lemma WorkerSpends(s: State, w: nat, k: WorkerStep, c: ConnId)
    requires Inv(s) && w < |s.workers| && WorkerEnabled(s, w, k) && WorkerSound(s, w, k)
    ensures Ahead(WorkerDone(s, w, k), c) + (if Closes(s, OnWorker(w, k), c) then 1 else 0) <= Ahead(s, c)
  {
    hide AcceptorOk, KernelOk, ReadyOk, FdOk, CountOk, PeakOk;
  }

  lemma OutsideSpends(s: State, o: OutsideStep, c: ConnId)
    requires OutsideEnabled(s, o)
    ensures Ahead(OutsideDone(s, o), c) == Ahead(s, c) && !Closes(s, Outside(o), c)
  {
  }

  lemma StepSpends(s: State, a: Step, c: ConnId)
    requires Inv(s) && Enabled(s, a)
    ensures Ahead(Apply(s, a), c) + (if Closes(s, a, c) then 1 else 0) <= Ahead(s, c)
  {
    hide Inv, OutsideEnabled, OutsideDone, EpollEnabled, EpollSound, EpollDone, WorkerEnabled, WorkerSound, WorkerDone, Closes, Ahead;
    StepKeeps(s, a);
    match a
    case Outside(o) => OutsideSpends(s, o, c);
    case Epoll(e) => EpollSpends(s, e, c);
    case OnWorker(w, k) => WorkerSpends(s, w, k, c);
  }

  lemma {:induction false} ClosingsBounded(s: State, run: seq<Step>, c: ConnId)
    requires Inv(s) && ValidRun(s, run)
    ensures Closings(s, run, c) + Ahead(End(s, run), c) <= Ahead(s, c)
    decreases |run|
  {
    hide Inv, Enabled, Apply, Closes, Ahead;
    if run != [] {
      StepKeeps(s, run[0]);
      StepSpends(s, run[0], c);
      ClosingsBounded(Apply(s, run[0]), run[1..], c);
    }
  }

  /** In every interleaving each connection is closed at most once. */
  lemma ClosedAtMostOnce(workers: nat, run: seq<Step>, c: ConnId)
    requires ValidRun(Start(workers), run)
    ensures Closings(Start(workers), run, c) <= 1
  {
    StartInv(workers);
    ClosingsBounded(Start(workers), run, c);
  }
}
