/** Connections, poll records, events and environment answers of the Zig
    implementation. */
module ZigTypes {
  import opened Wrappers
  import opened SendQueue
  import opened Bytes

  type Payload = seq<Byte>
  type Packet = Message<Payload>

  datatype ConnectionType = IPC | EXTERNAL | SERVER | SWITCHED
  datatype Connection = Connection(t: ConnectionType, path: Option<string>)

  /** One entry of the array given to poll: the descriptor, POLLIN and POLLOUT
      of its requested events. */
  datatype PollFd = PollFd(fd: Fd, rd: bool, wr: bool)

  /** The returned events of one entry. */
  datatype Revents = Revents(rd: bool, wr: bool, hup: bool, err: bool, nval: bool)

  datatype EventType =
    | ERROR
    | CONNECTION
    | DISCONNECTION
    | MESSAGE_RX
    | MESSAGE_TX
    | TIMER
    | EXTERNAL_EVENT
    | SWITCH_RX
    | SWITCH_TX

  datatype Event = Event(t: EventType, index: nat, origin: Fd, m: Option<Packet>)

  datatype Error =
    | IndexOutOfBounds
    | IndexNotFound
    | MessageOnServer
    | PollFailed
    | ServerWithNoPath
    | AcceptFailed
    | ConnectFailed
    | ReadFailed
    | WrongMessageLength
    | WriteFailed
    | IncoherentSwitch

  /** The program stops or its behaviour is undefined: a null optional is
      unwrapped, a variable left undefined is used as an index, or a descriptor
      that is not open is closed (std.os.close calls that unreachable). */
  datatype Fault = NullUnwrap | UndefinedIndex | CloseOfClosedFd

  /** What read(2) gives on a descriptor. */
  datatype Recv = Arrived(bytes: seq<Byte>) | ConnectionReset | RecvError

  /** The answers of the operating system during one wait. */
  datatype Env = Env(
    poll: Option<seq<Revents>>,  // None: poll reports an error
    timedOut: bool,              // whether the full wait duration has elapsed
    recv: Recv,
    sent: bool,                  // whether write(2) succeeds
    accepted: Option<Fd>)        // None: accept reports an error

  const IDLE := Revents(false, false, false, false, false)
  const READABLE := IDLE.(rd := true)
  const WRITABLE := IDLE.(wr := true)
  const HUNG_UP := IDLE.(hup := true)
  const INVALID := IDLE.(nval := true)

  predicate Silent(r: Revents) {
    !r.rd && !r.wr && !r.hup && !r.err && !r.nval
  }

  /** POSIX.1-2017 poll: an entry reports at most what was requested, plus
      POLLHUP, POLLERR and POLLNVAL. */
  predicate Answers(polls: seq<PollFd>, revents: seq<Revents>) {
    && |revents| == |polls|
    && forall i :: 0 <= i < |polls| ==>
         && (revents[i].rd ==> polls[i].rd)
         && (revents[i].wr ==> polls[i].wr)
  }
}
