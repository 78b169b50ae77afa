/** What each operation of a Context does to its state, as functions. The class
    in ZigContext is proved against these; ZigInvariant proves what they keep. */
module ZigState {
  import opened Wrappers
  import opened SendQueue
  import opened Bytes
  import opened ZigTypes
  import opened SwitchTable
  import ZigSwitch
  import ZigWire

  /** One message handed to write(2): the descriptor written to, the message,
      whether the switch or the context wrote it, and the bytes. */
  datatype Delivery = Delivery(fd: Fd, m: Packet, switched: bool, packet: seq<Byte>)

  function PlainDelivery(fd: Fd, m: Packet): Delivery {
    Delivery(fd, m, false, ZigWire.ContextPacket(m.payload))
  }

  function SwitchedDelivery(m: Packet): Delivery {
    Delivery(m.fd, m, true, ZigWire.SwitchPacket(m.payload))
  }

  /** What has happened to messages so far. */
  datatype Log = Log(queued: multiset<Packet>, handed: seq<Delivery>, dropped: multiset<Packet>)

  datatype RawState = RawState(
    conns: seq<Connection>,
    polls: seq<PollFd>,
    tx: seq<Packet>,
    db: Table,
    open: set<Fd>,  // the descriptors the process has open
    log: Log)

  /** The two arrays share their indices. Every operation below returns a State,
      so keeping them parallel is checked in each of them. */
  type State = s: RawState | |s.conns| == |s.polls| witness INITIAL

  datatype Outcome<+T> = Done(s: State, value: T) | Failed(s: State, error: Error) | Crash(fault: Fault)

  const INITIAL := RawState([], [], [], map[], {}, Log(multiset{}, [], multiset{}))

  // ----- tracking descriptors -----

  /** add_: one entry in each array. */
  function Track(s: State, c: Connection, fd: Fd): State {
    s.(conns := s.conns + [c], polls := s.polls + [PollFd(fd, true, false)])
  }

  /** A descriptor the operating system has just handed out, then tracked. */
  function Connect(s: State, c: Connection, fd: Fd): State {
    Track(s.(open := s.open + {fd}), c, fd)
  }

  /** fd_to_index, from position i on. */
  function IndexFrom(polls: seq<PollFd>, fd: Fd, i: nat): (r: Option<nat>)
    requires i <= |polls|
    ensures r.Some? ==> i <= r.value < |polls| && polls[r.value].fd == fd
    ensures r.Some? ==> forall k :: i <= k < r.value ==> polls[k].fd != fd
    ensures r.None? ==> forall k :: i <= k < |polls| ==> polls[k].fd != fd
    decreases |polls| - i
  {
    if i == |polls| then None
    else if polls[i].fd == fd then Some(i)
    else IndexFrom(polls, fd, i + 1)
  }

  function IndexOf(polls: seq<PollFd>, fd: Fd): (r: Option<nat>)
    ensures r.Some? ==> r.value < |polls| && polls[r.value].fd == fd
    ensures r.None? ==> forall k :: 0 <= k < |polls| ==> polls[k].fd != fd
  {
    IndexFrom(polls, fd, 0)
  }

  /** close on a valid index whose descriptor is open. */
  function Removed(s: State, i: nat): State
    requires i < |s.polls|
  {
    var fd := s.polls[i].fd;
    var kept := Purge(s.tx, fd);
    s.(conns := SwapRemove(s.conns, i),
       polls := SwapRemove(s.polls, i),
       open := s.open - {fd},
       tx := kept,
       log := s.log.(dropped := s.log.dropped + (multiset(s.tx) - multiset(kept))))
  }

  function Close(s: State, i: nat): Outcome<()>
  {
    if i >= |s.polls| then Failed(s, IndexOutOfBounds)
    else if s.polls[i].fd !in s.open then Crash(CloseOfClosedFd)
    else Done(Removed(s, i), ())
  }

  function CloseFd(s: State, fd: Fd): Outcome<()>
  {
    match IndexOf(s.polls, fd)
    case None => Failed(s, IndexNotFound)
    case Some(i) => Close(s, i)
  }

  function CloseAll(s: State): Outcome<()>
    decreases |s.conns|
  {
    if |s.conns| == 0 then Done(s, ())
    else match Close(s, 0)
      case Done(s', _) => CloseAll(s')
      case other => other
  }

  /** safe_close_fd: errors of close_fd are swallowed, and close_fd is called
      only when fcntl says the descriptor is open, so it cannot crash. */
  function SafeCloseFd(s: State, fd: Fd): State
  {
    if fd !in s.open then s
    else match CloseFd(s, fd)
      case Done(s', _) => s'
      case _ => s
  }

  // ----- queue and switch -----

  function Schedule(s: State, m: Packet): State {
    s.(tx := s.tx + [m], log := s.log.(queued := s.log.queued + multiset{m}))
  }

  function Switched(conns: seq<Connection>, i: nat): seq<Connection>
    requires i < |conns|
  {
    conns[i := conns[i].(t := SWITCHED)]
  }

  function AddSwitch(s: State, a: Fd, b: Fd): Outcome<()>
  {
    match IndexOf(s.polls, a)
    case None => Failed(s, IndexNotFound)
    case Some(i) =>
      match IndexOf(s.polls, b)
      case None => Failed(s, IndexNotFound)
      case Some(j) =>
        Done(s.(conns := Switched(Switched(s.conns, i), j), db := Put(s.db, a, b)), ())
  }

  /** Both ends of a pair go: the entry is looked up, removed from the table and
      both descriptors are closed. */
  function Teardown(s: State, fd: Fd): Outcome<()>
  {
    if fd !in s.db then Crash(NullUnwrap)
    else
      var dest := s.db[fd];
      var s1 := SafeCloseFd(s.(db := Nuke(s.db, fd)), fd);
      Done(SafeCloseFd(s1, dest), ())
  }

  // ----- one wait -----

  /** POLLIN everywhere, POLLOUT where a message waits. */
  function Arm(s: State): (r: State)
    ensures |r.polls| == |s.polls|
  {
    s.(polls := seq(|s.polls|, i requires 0 <= i < |s.polls| =>
        var p := s.polls[i];
        p.(rd := true, wr := p.wr || FirstFor(s.tx, p.fd).Some?)))
  }

  function Wait(s: State, env: Env): Outcome<Event>
    requires env.poll.Some? ==> |env.poll.value| == |s.polls|
  {
    var armed := Arm(s);
    match env.poll
    case None => Failed(armed, PollFailed)
    case Some(revents) =>
      if forall i :: 0 <= i < |revents| ==> Silent(revents[i]) then
        Done(armed, Event(if env.timedOut then TIMER else ERROR, 0, 0, None))
      else Dispatch(armed, revents, 0, env)
  }

  /** The loop over the entries: the first one that reports anything but a lone
      POLLERR is handled, and the call returns. */
  function Dispatch(s: State, revents: seq<Revents>, i: nat, env: Env): Outcome<Event>
    requires |revents| == |s.polls| && i <= |s.polls|
    decreases |s.polls| - i
  {
    if i == |s.polls| then Done(s, Event(ERROR, 0, 0, None))
    else if Handled(revents[i]) then Handle(s, revents[i], i, env)
    else Dispatch(s, revents, i + 1, env)
  }

  predicate Handled(r: Revents) {
    r.rd || r.wr || r.hup || r.nval
  }

  function Handle(s: State, r: Revents, i: nat, env: Env): Outcome<Event>
    requires i < |s.polls| && Handled(r)
  {
    if r.rd then HandleRead(s, i, env)
    else if r.wr then HandleWrite(s, i, env)
    else if r.hup then HandleHangUp(s, i)
    else Done(s, Event(ERROR, i, s.polls[i].fd, None))
  }

  function HandleRead(s: State, i: nat, env: Env): Outcome<Event>
    requires i < |s.polls|
  {
    var fd := s.polls[i].fd;
    match s.conns[i].t
    case SERVER => Accept(s, i, env.accepted)
    case SWITCHED => SwitchedRead(s, i, env.recv)
    case EXTERNAL => Done(s, Event(EXTERNAL_EVENT, i, fd, None))
    case IPC =>
      match Read(s, i, env.recv)
      case Done(_, Some(m)) => Done(s, Event(MESSAGE_RX, i, fd, Some(m)))
      case Done(_, None) => Disconnect(s, i)
      case Failed(_, e) => if env.recv.ConnectionReset? then Disconnect(s, i) else Failed(s, e)
      case Crash(f) => Crash(f)
  }

  /** accept_new_client: the new client is the last entry. */
  function Accept(s: State, i: nat, accepted: Option<Fd>): Outcome<Event>
    requires i < |s.polls|
  {
    if s.conns[i].path.None? then Failed(s, ServerWithNoPath)
    else match accepted
      case None => Failed(s, AcceptFailed)
      case Some(client) =>
        Done(Connect(s, Connection(IPC, None), client),
             Event(CONNECTION, |s.polls|, s.polls[i].fd, None))
  }

  /** Context.read: the state does not change. */
  function Read(s: State, i: nat, recv: Recv): Outcome<Option<Packet>>
  {
    if i >= |s.polls| then Failed(s, IndexOutOfBounds)
    else if s.conns[i].t == SERVER then Failed(s, MessageOnServer)
    else match recv
      case Arrived(bytes) => (
        match ZigWire.ContextRead(bytes)
        case NoMessage => Done(s, None)
        case Got(p) => Done(s, Some(Message(s.polls[i].fd, p)))
        case Refused => Failed(s, WrongMessageLength))
      case _ => Failed(s, ReadFailed)
  }

  /** The event is built after the close, through a pointer to slot i: it names
      whatever descriptor has been moved there, or the closed one when slot i
      was the last. */
  function Disconnect(s: State, i: nat): Outcome<Event>
    requires i < |s.polls|
  {
    match Close(s, i)
    case Done(s', _) =>
      var origin := if i < |s'.polls| then s'.polls[i].fd else s.polls[i].fd;
      Done(s', Event(DISCONNECTION, i, origin, None))
    case Failed(s', e) => Failed(s', e)
    case Crash(f) => Crash(f)
  }

  /** POLLHUP: here the event is built before the close. */
  function HandleHangUp(s: State, i: nat): Outcome<Event>
    requires i < |s.polls|
  {
    match Close(s, i)
    case Done(s', _) => Done(s', Event(DISCONNECTION, i, s.polls[i].fd, None))
    case Failed(s', e) => Failed(s', e)
    case Crash(f) => Crash(f)
  }

  function SwitchedRead(s: State, i: nat, recv: Recv): Outcome<Event>
    requires i < |s.polls|
  {
    var fd := s.polls[i].fd;
    var event := ZigSwitch.HandleEventRead(s.db, i, fd, recv);
    match event.t
    case SWITCH_RX =>
      if event.m.None? then Crash(NullUnwrap)
      else Done(Schedule(s, event.m.value), event)
    case DISCONNECTION => TeardownThen(s, fd, event)
    case ERROR => TeardownThen(s, fd, event)
    case _ => Failed(s, IncoherentSwitch)
  }

  function TeardownThen(s: State, fd: Fd, event: Event): Outcome<Event>
  {
    match Teardown(s, fd)
    case Done(s', _) => Done(s', event)
    case Failed(s', e) => Failed(s', e)
    case Crash(f) => Crash(f)
  }

  /** The message that leaves the queue for slot i, once POLLOUT is cleared. */
  function Dequeued(s: State, i: nat, k: nat): State
    requires i < |s.polls| && k < |s.tx|
  {
    s.(polls := s.polls[i := s.polls[i].(wr := false)], tx := SwapRemove(s.tx, k))
  }

  function HandleWrite(s: State, i: nat, env: Env): Outcome<Event>
    requires i < |s.polls|
  {
    var fd := s.polls[i].fd;
    match FirstFor(s.tx, fd)
    case None => Crash(UndefinedIndex)
    case Some(k) =>
      var s1 := Dequeued(s, i, k);
      if s.conns[i].t == SWITCHED then SwitchedWrite(s1, i, s.tx[k], env.sent)
      else
        var s2 := Hand(s1, PlainDelivery(fd, s.tx[k]));
        if env.sent then Done(s2, Event(MESSAGE_TX, i, fd, None)) else Failed(s2, WriteFailed)
  }

  function Hand(s: State, d: Delivery): State {
    s.(log := s.log.(handed := s.log.handed + [d]))
  }

  /** A message for a descriptor missing from the table is freed unwritten. */
  function SwitchedWrite(s: State, i: nat, m: Packet, sent: bool): Outcome<Event>
    requires i < |s.polls|
  {
    var s1 := if m.fd in s.db
              then Hand(s, SwitchedDelivery(m))
              else s.(log := s.log.(dropped := s.log.dropped + multiset{m}));
    var event := ZigSwitch.HandleEventWrite(s.db, i, m, sent);
    match event.t
    case SWITCH_TX => Done(s1, event)
    case ERROR => TeardownThen(s1, s.polls[i].fd, event)
    case _ => Failed(s1, IncoherentSwitch)
  }
}
