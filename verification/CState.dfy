/** What the operations of the C context do to its state, as functions. */
module CState {
  import opened Wrappers
  import opened SendQueue
  import opened CSwitch

  datatype ConnectionType = IPC | EXTERNAL | SERVER | SWITCHED

  datatype Info = Info(t: ConnectionType, moreToRead: bool)

  datatype PollFd = PollFd(fd: Fd, rd: bool, wr: bool)

  /** A queued message, known by its descriptor and its identity only. */
  type Queued = Message<nat>

  datatype RawState = RawState(
    infos: seq<Info>,
    polls: seq<PollFd>,
    tx: seq<Queued>,
    pairs: seq<Pair>,
    open: set<Fd>)  // the descriptors the process has open

  type State = s: RawState | |s.infos| == |s.polls| witness RawState([], [], [], [], {})

  const EMPTY := RawState([], [], [], [], {})

  datatype Revents = Revents(rd: bool, wr: bool, hup: bool, err: bool, nval: bool)

  /** POSIX.1-2017 poll, as far as reading and writing go. */
  predicate Answers(polls: seq<PollFd>, revents: seq<Revents>) {
    && |revents| == |polls|
    && forall i :: 0 <= i < |polls| ==>
         && (revents[i].rd ==> polls[i].rd)
         && (revents[i].wr ==> polls[i].wr)
  }

  ghost predicate IsTracked(polls: seq<PollFd>, fd: Fd) {
    exists i :: 0 <= i < |polls| && polls[i].fd == fd
  }

  /** Whatever is queued is for a tracked descriptor. */
  ghost predicate QueuedTracked(polls: seq<PollFd>, tx: seq<Queued>) {
    forall k :: 0 <= k < |tx| ==> IsTracked(polls, tx[k].fd)
  }

  // ----- connections -----

  function Add(s: State, info: Info, p: PollFd): State {
    s.(infos := s.infos + [info], polls := s.polls + [p])
  }

  /** ipc_del on a valid index: nothing is closed. The last entry takes everything
      with it: the arrays, the queue and the pairs are freed. */
  function Del(s: State, i: nat): State
    requires i < |s.polls|
  {
    if |s.polls| == 1 then EMPTY.(open := s.open)
    else s.(infos := SwapRemove(s.infos, i), polls := SwapRemove(s.polls, i), tx := Purge(s.tx, s.polls[i].fd))
  }

  function IndexFrom(polls: seq<PollFd>, fd: Fd, i: nat): (r: Option<nat>)
    requires i <= |polls|
    ensures r.Some? ==> i <= r.value < |polls| && polls[r.value].fd == fd
    ensures r.Some? ==> forall k :: i <= k < r.value ==> polls[k].fd != fd
    ensures r.None? ==> forall k :: i <= k < |polls| ==> polls[k].fd != fd
    decreases |polls| - i
  {
    if i == |polls| then None
    else if polls[i].fd == fd then Some(i)
    else IndexFrom(polls, fd, i + 1)
  }

  function DelFd(s: State, fd: Fd): State {
    match IndexFrom(s.polls, fd, 0)
    case None => s
    case Some(i) => Del(s, i)
  }

  // ----- the queue -----

  /** ipc_write: POLLOUT on every entry of the descriptor, then one copy queued;
      a message for an untracked descriptor is refused. */
  function Write(s: State, m: Queued): State {
    if IndexFrom(s.polls, m.fd, 0) == None then s
    else s.(tx := s.tx + [m],
            polls := seq(|s.polls|, i requires 0 <= i < |s.polls| =>
              if s.polls[i].fd == m.fd then s.polls[i].(wr := true) else s.polls[i]))
  }

  /** The requested events are rebuilt from the queue before each poll. */
  function Arm(s: State): (r: State)
    ensures |r.polls| == |s.polls|
  {
    s.(polls := seq(|s.polls|, i requires 0 <= i < |s.polls| =>
        PollFd(s.polls[i].fd, true, FirstFor(s.tx, s.polls[i].fd).Some?)))
  }

  /** The scan whose loop condition is the size of the queue and not the index:
      it ends at a match, does nothing on an empty queue, and otherwise reads
      past the end. */
  datatype Scan = Found(at: nat) | NothingQueued | PastTheEnd

  function ScanFor(tx: seq<Queued>, fd: Fd): (r: Scan)
    ensures r.Found? ==> r.at < |tx| && tx[r.at].fd == fd
    ensures r.PastTheEnd? <==> tx != [] && !HasFor(tx, fd)
  {
    if tx == [] then NothingQueued
    else match FirstFor(tx, fd)
      case Some(k) => Found(k)
      case None => PastTheEnd
  }

  // ----- closing without deleting -----

  /** ipc_close: the messages go, the entry stays until it is deleted. The
      descriptor of an external connection is left open. */
  function Close(s: State, i: nat): State
    requires i < |s.polls|
  {
    var fd := s.polls[i].fd;
    s.(tx := Purge(s.tx, fd), open := if s.infos[i].t == EXTERNAL then s.open else s.open - {fd})
  }

  /** ipc_close_all, from index i on. */
  function CloseFrom(s: State, i: nat): (r: State)
    requires i <= |s.polls|
    ensures r.polls == s.polls && r.infos == s.infos && r.pairs == s.pairs
    decreases |s.polls| - i
  {
    if i == |s.polls| then s else CloseFrom(Close(s, i), i + 1)
  }

  // ----- one wait -----

  datatype Reply =
    | Timeout                      // IPC_EVENT_TYPE_TIMER
    | PollError
    | Connected(i: nat)            // IPC_EVENT_TYPE_CONNECTION, and the new entry
    | AcceptFailed(i: nat)
    | External(i: nat)             // IPC_EVENT_TYPE_EXTRA_SOCKET
    | Received(i: nat)             // IPC_EVENT_TYPE_MESSAGE
    | Disconnected(fd: Fd)         // closed and deleted: end of connection
    | ReadFailed(fd: Fd)           // ... or an error
    | Forwarded(i: nat)            // IPC_EVENT_TYPE_SWITCH
    | SwitchReadClosed(fd: Fd)     // a failed switched read
    | Sent(i: nat)                 // IPC_EVENT_TYPE_TX
    | SwitchWriteClosed(fd: Fd)    // a failed switched write
    | NoFdRecord                   // IPC_ERROR_FD_SWITCHING__NO_FD_RECORD
    | HungUp(i: nat)
    | DescriptorError(i: nat)
    | NothingReady
    | OutOfBounds                  // the scan has left the array

  /** What a read gives: a message, the end of the connection, or an error of
      recv or of the parser. */
  datatype Recv = Arrived(id: nat) | EndOfConnection | Unreadable

  datatype Env = Env(
    poll: Option<seq<Revents>>,
    accepted: Option<Fd>,     // None: accept reports an error
    recv: Recv,
    written: bool)            // whether the write succeeds

  predicate Ready(info: Info, r: Revents) {
    r.rd || info.moreToRead || r.wr || r.hup || r.err || r.nval
  }

  function FirstReady(s: State, revents: seq<Revents>, i: nat): (r: Option<nat>)
    requires |revents| == |s.polls| && i <= |s.polls|
    ensures r.Some? ==> i <= r.value < |s.polls| && Ready(s.infos[r.value], revents[r.value])
    decreases |s.polls| - i
  {
    if i == |s.polls| then None
    else if Ready(s.infos[i], revents[i]) then Some(i)
    else FirstReady(s, revents, i + 1)
  }

  predicate Nothing(revents: seq<Revents>) {
    forall i :: 0 <= i < |revents| ==>
      !revents[i].rd && !revents[i].wr && !revents[i].hup && !revents[i].err && !revents[i].nval
  }

  /** The timeout given to poll: none when some descriptor has more to read. */
  function PollTimeout(s: State, timer: int): int {
    if exists i :: 0 <= i < |s.infos| && s.infos[i].moreToRead then 0 else timer
  }

  function Wait(s: State, timer: int, env: Env): (State, Reply)
    requires env.poll.Some? ==> |env.poll.value| == |s.polls|
  {
    var armed := Arm(s);
    match env.poll
    case None => (armed, PollError)
    case Some(revents) =>
      if Nothing(revents) && PollTimeout(s, timer) != 0 then (armed, Timeout)
      else match FirstReady(armed, revents, 0)
        case None => (armed, NothingReady)
        case Some(i) => Handle(armed, revents[i], i, env)
  }

  function Handle(s: State, r: Revents, i: nat, env: Env): (State, Reply)
    requires i < |s.polls|
  {
    if r.rd || s.infos[i].moreToRead then
      HandleReadable(s.(infos := s.infos[i := s.infos[i].(moreToRead := false)]), i, env)
    else if r.wr then HandleWritable(s.(polls := s.polls[i := s.polls[i].(wr := false)]), i, env.written)
    else if r.hup then (Close(s, i), HungUp(i))
    else if r.err || r.nval then (s, DescriptorError(i))
    else (s, NothingReady)
  }

  function HandleReadable(s: State, i: nat, env: Env): (State, Reply)
    requires i < |s.polls|
  {
    match s.infos[i].t
    case SERVER => Accept(s, i, env.accepted)
    case SWITCHED => SwitchedRead(s, i, env.recv)
    case EXTERNAL => (s, External(i))
    case IPC =>
      match env.recv
      case Arrived(_) => (s, Received(i))
      case EndOfConnection => (Disconnect(s, i), Disconnected(s.polls[i].fd))
      case Unreadable => (Disconnect(s, i), ReadFailed(s.polls[i].fd))
  }

  /** ipc_close, then ipc_del: the second purge finds nothing. */
  function Disconnect(s: State, i: nat): State
    requires i < |s.polls|
  {
    Del(s, i).(open := Close(s, i).open)
  }

  /** ipc_accept_add: the entry is allocated before accept is called, and stays
      when accept fails, with descriptor -1 and nothing requested. */
  function Accept(s: State, i: nat, accepted: Option<Fd>): (State, Reply)
    requires i < |s.polls|
  {
    match accepted
    case Some(client) =>
      (Add(s.(open := s.open + {client}), Info(IPC, false), PollFd(client, true, false)), Connected(|s.polls|))
    case None => (Add(s, Info(IPC, false), PollFd(-1, false, false)), AcceptFailed(i))
  }

  /** fd_switching_read. */
  function SwitchedRead(s: State, i: nat, recv: Recv): (State, Reply)
    requires i < |s.polls|
  {
    var fd := s.polls[i].fd;
    match FirstPair(s.pairs, fd)
    case None => (s, NoFdRecord)
    case Some(k) =>
      match recv
      case Arrived(id) => (Write(s, Message(s.pairs[k].Other(fd), id)), Forwarded(i))
      case _ => (DropReader(s, fd, s.pairs[k].dest), SwitchReadClosed(fd))
  }

  /** After a failed switched read: the second descriptor of the pair, then the
      one that was read, leave the context, then the pair leaves the table. Both
      stay open: closing them is left to the program. */
  function DropReader(s: State, fd: Fd, dest: Fd): State {
    var s1 := DelFd(DelFd(s, dest), fd);
    s1.(pairs := PairsWithout(s1.pairs, fd))
  }

  function HandleWritable(s: State, i: nat, written: bool): (State, Reply)
    requires i < |s.polls|
  {
    var fd := s.polls[i].fd;
    var scan := ScanFor(s.tx, fd);
    if s.infos[i].t == SWITCHED then SwitchedWrite(s, i, written)
    else if scan.PastTheEnd? then (s, OutOfBounds)
    else (Unqueued(s, scan), Sent(i))
  }

  function Unqueued(s: State, scan: Scan): State
    requires scan.Found? ==> scan.at < |s.tx|
  {
    if scan.Found? then s.(tx := SwapRemove(s.tx, scan.at)) else s
  }

  /** fd_switching_write. The message is removed whatever the write gives, but
      only once the pair has been found. */
  function SwitchedWrite(s: State, i: nat, written: bool): (State, Reply)
    requires i < |s.polls|
  {
    var fd := s.polls[i].fd;
    var scan := ScanFor(s.tx, fd);
    if s.pairs == [] then (s, NoFdRecord)
    else if scan.PastTheEnd? then (s, OutOfBounds)
    else if FirstPair(s.pairs, fd) == None then (s, NoFdRecord)
    else if written then (Unqueued(s, scan), Sent(i))
    else (DropPair(Unqueued(s, scan), fd), SwitchWriteClosed(fd))
  }

  /** Both descriptors of the pair are closed and leave the context. */
  function DropPair(s: State, fd: Fd): State {
    var other := PartnerOf(s.pairs, fd);
    var s1 := s.(pairs := PairsWithout(s.pairs, fd));
    var s2 := if other >= 0 then ShutFd(s1, other) else s1;
    ShutFd(s2, fd)
  }

  /** close, then ipc_del_fd. */
  function ShutFd(s: State, fd: Fd): State {
    DelFd(s.(open := s.open - {fd}), fd)
  }
}
