/** The Context itself: arrays, queue and table updated in place. Each method is
    proved to do to the whole state what the function of the same name in
    ZigState does. */
module ZigContext {
  import opened Wrappers
  import opened SendQueue
  import opened ZigTypes
  import opened ZigState
  import ZigSwitch
  import ZigWire

  /** What a method returns: a value, an error, or nothing at all because the
      program has stopped. */
  datatype Reply<+T> = Value(value: T) | Error(error: Error) | Panic(fault: Fault)

  /** The state and reply a method leaves are those of the specification. After
      a panic there is no state to speak of. */
  ghost predicate Matches<T>(o: Outcome<T>, s: State, r: Reply<T>) {
    match o
    case Done(s', v) => s == s' && r == Value(v)
    case Failed(s', e) => s == s' && r == Error(e)
    case Crash(f) => r == Panic(f)
  }

  class Context {
    var connections: seq<Connection>
    var pollfd: seq<PollFd>
    var tx: seq<Packet>
    const switchdb: ZigSwitch.SwitchDB
    var open: set<Fd>  // the descriptor table of the process
    ghost var log: Log

    ghost predicate Valid()
      reads this
    {
      |connections| == |pollfd|
    }

    ghost function Now(): State
      requires Valid()
      reads this, switchdb
    {
      RawState(connections, pollfd, tx, switchdb.db, open, log)
    }

    constructor ()
      ensures Valid() && Now() == INITIAL && fresh(switchdb)
    {
      connections, pollfd, tx, open := [], [], [], {};
      switchdb := new ZigSwitch.SwitchDB();
      log := INITIAL.log;
    }

    /** add_: one entry at the end of each array. */
    method Add(c: Connection, fd: Fd)
      requires Valid()
      modifies this
      ensures Valid() && Now() == Track(old(Now()), c, fd)
    {
      connections := connections + [c];
      pollfd := pollfd + [PollFd(fd, true, false)];
    }

    /** add_external: a descriptor the program has opened by itself. */
    method AddExternal(fd: Fd)
      requires Valid()
      modifies this
      ensures Valid() && Now() == Track(old(Now()), Connection(EXTERNAL, None), fd)
    {
      Add(Connection(EXTERNAL, None), fd);
    }

    /** connect_ and server_init, once the system has given a descriptor. */
    method AddNew(c: Connection, fd: Fd)
      requires Valid()
      modifies this
      ensures Valid() && Now() == ZigState.Connect(old(Now()), c, fd)
    {
      open := open + {fd};
      Add(c, fd);
    }

    method FdToIndex(fd: Fd) returns (r: Option<nat>)
      ensures r == IndexOf(pollfd, fd)
    {
      var i := 0;
      while i < |pollfd|
        invariant i <= |pollfd| && IndexFrom(pollfd, fd, i) == IndexOf(pollfd, fd)
      {
        if pollfd[i].fd == fd {
          return Some(i);
        }
        i := i + 1;
      }
      r := None;
    }

    method Schedule(m: Packet)
      requires Valid()
      modifies this
      ensures Valid() && Now() == ZigState.Schedule(old(Now()), m)
    {
      tx := tx + [m];
      log := log.(queued := log.queued + multiset{m});
    }

    method AddSwitch(fd1: Fd, fd2: Fd) returns (r: Reply<()>)
      requires Valid()
      modifies this, switchdb
      ensures Valid() && Matches(ZigState.AddSwitch(old(Now()), fd1, fd2), Now(), r)
    {
      var i := FdToIndex(fd1);
      if i == None {
        return Error(IndexNotFound);
      }
      var j := FdToIndex(fd2);
      if j == None {
        return Error(IndexNotFound);
      }
      connections := connections[i.value := connections[i.value].(t := SWITCHED)];
      connections := connections[j.value := connections[j.value].(t := SWITCHED)];
      switchdb.AddSwitch(fd1, fd2);
      r := Value(());
    }

    method Close(index: nat) returns (r: Reply<()>)
      requires Valid()
      modifies this
      ensures Valid() && Matches(ZigState.Close(old(Now()), index), Now(), r)
    {
      if index >= |pollfd| {
        return Error(IndexOutOfBounds);
      }
      var fd := pollfd[index].fd;
      connections := SwapRemove(connections, index);
      pollfd := SwapRemove(pollfd, index);
      if fd !in open {
        return Panic(CloseOfClosedFd);
      }
      open := open - {fd};

      // What was still to be sent to it is dropped.
      var i := 0;
      while true
        invariant i <= |tx| && PurgeFrom(tx, fd, i) == Purge(old(tx), fd)
        invariant connections == SwapRemove(old(connections), index)
        invariant pollfd == SwapRemove(old(pollfd), index)
        invariant open == old(open) - {fd} && log == old(log)
        decreases |tx| - i
      {
        if i >= |tx| {
          break;
        }
        if tx[i].fd == fd {
          tx := SwapRemove(tx, i);
          continue;
        }
        i := i + 1;
      }
      log := log.(dropped := log.dropped + (multiset(old(tx)) - multiset(tx)));
      r := Value(());
    }

    method CloseFd(fd: Fd) returns (r: Reply<()>)
      requires Valid()
      modifies this
      ensures Valid() && Matches(ZigState.CloseFd(old(Now()), fd), Now(), r)
    {
      var i := FdToIndex(fd);
      if i == None {
        return Error(IndexNotFound);
      }
      r := Close(i.value);
    }

    method CloseAll() returns (r: Reply<()>)
      requires Valid()
      modifies this
      ensures Valid() && Matches(ZigState.CloseAll(old(Now())), Now(), r)
    {
      while |connections| > 0
        invariant Valid() && ZigState.CloseAll(Now()) == ZigState.CloseAll(old(Now()))
        decreases |connections|
      {
        r := Close(0);
        if !r.Value? {
          return;
        }
      }
      r := Value(());
    }

    method SafeCloseFd(fd: Fd)
      requires Valid()
      modifies this
      ensures Valid() && Now() == ZigState.SafeCloseFd(old(Now()), fd)
    {
      var shouldClose := fd in open;
      if shouldClose {
        var _ := CloseFd(fd);
      }
    }

    /** The error path of a switch: the pair goes, and the event is reported. */
    method DropPairThen(fd: Fd, event: Event) returns (r: Reply<Event>)
      requires Valid()
      modifies this, switchdb
      ensures Valid() && Matches(TeardownThen(old(Now()), fd, event), Now(), r)
    {
      var dropped := DropPair(fd);
      r := if dropped.Panic? then Panic(dropped.fault) else Value(event);
    }

    /** The three calls both error paths of a switch make. */
    method DropPair(fd: Fd) returns (r: Reply<()>)
      requires Valid()
      modifies this, switchdb
      ensures Valid() && Matches(Teardown(old(Now()), fd), Now(), r)
    {
      var dest := switchdb.GetDest(fd);
      if dest == None {
        return Panic(NullUnwrap);
      }
      switchdb.Nuke(fd);
      SafeCloseFd(fd);
      SafeCloseFd(dest.value);
      r := Value(());
    }

    method Read(index: nat, recv: Recv) returns (r: Reply<Option<Packet>>)
      requires Valid()
      ensures Matches(ZigState.Read(Now(), index, recv), Now(), r)
    {
      if index >= |pollfd| {
        return Error(IndexOutOfBounds);
      }
      if connections[index].t == SERVER {
        return Error(MessageOnServer);
      }
      match recv {
        case ConnectionReset => r := Error(ReadFailed);
        case RecvError => r := Error(ReadFailed);
        case Arrived(bytes) =>
          match ZigWire.ContextRead(bytes) {
            case NoMessage => r := Value(None);
            case Got(p) => r := Value(Some(Message(pollfd[index].fd, p)));
            case Refused => r := Error(WrongMessageLength);
          }
      }
    }

    // ----- wait_event -----

    /** Both arming loops. */
    method ArmAll()
      requires Valid()
      modifies this
      ensures Valid() && Now() == Arm(old(Now()))
    {
      var before := pollfd;
      var i := 0;
      while i < |pollfd|
        invariant i <= |pollfd| == |before| && Valid() && Now() == old(Now()).(polls := pollfd)
        invariant forall k :: 0 <= k < |before| ==> pollfd[k] == if k < i then before[k].(rd := true) else before[k]
      {
        pollfd := pollfd[i := pollfd[i].(rd := true)];
        i := i + 1;
      }
      var listening := pollfd;
      var j := 0;
      while j < |tx|
        invariant j <= |tx| && |pollfd| == |before| && Valid() && Now() == old(Now()).(polls := pollfd)
        invariant forall k :: 0 <= k < |before| ==>
          pollfd[k] == listening[k].(wr := listening[k].wr || HasFor(tx[..j], listening[k].fd))
      {
        ArmOne(j, listening);
        j := j + 1;
      }
      assert tx[..j] == tx;
      assert pollfd == Arm(old(Now())).polls;
    }

    /** The inner loop, for message j. */
    method ArmOne(j: nat, ghost listening: seq<PollFd>)
      requires Valid() && j < |tx| && |pollfd| == |listening|
      requires forall k :: 0 <= k < |pollfd| ==>
        pollfd[k] == listening[k].(wr := listening[k].wr || HasFor(tx[..j], listening[k].fd))
      modifies this`pollfd
      ensures |pollfd| == |listening|
      ensures forall k :: 0 <= k < |pollfd| ==>
        pollfd[k] == listening[k].(wr := listening[k].wr || HasFor(tx[..j + 1], listening[k].fd))
    {
      forall fd ensures HasFor(tx[..j + 1], fd) <==> HasFor(tx[..j], fd) || tx[j].fd == fd {
        assert forall k :: 0 <= k < j ==> tx[..j + 1][k] == tx[..j][k];
        assert tx[..j + 1][j] == tx[j];
      }
      var i := 0;
      while i < |pollfd|
        invariant i <= |pollfd| == |listening|
        invariant forall k :: 0 <= k < |pollfd| ==>
          pollfd[k] == listening[k].(wr :=
            listening[k].wr || HasFor(if k < i then tx[..j + 1] else tx[..j], listening[k].fd))
      {
        if pollfd[i].fd == tx[j].fd {
          pollfd := pollfd[i := pollfd[i].(wr := true)];
        }
        i := i + 1;
      }
    }

    method WaitEvent(env: Env) returns (r: Reply<Event>)
      requires Valid()
      requires env.poll.Some? ==> |env.poll.value| == |pollfd|
      modifies this, switchdb
      ensures Valid() && Matches(Wait(old(Now()), env), Now(), r)
    {
      ArmAll();
      if env.poll == None {
        return Error(PollFailed);
      }
      var revents := env.poll.value;
      if forall i :: 0 <= i < |revents| ==> Silent(revents[i]) {
        return Value(Event(if env.timedOut then TIMER else ERROR, 0, 0, None));
      }
      ghost var armed := Now();
      var i := 0;
      while i < |pollfd|
        invariant Valid() && i <= |pollfd| && Now() == armed && |revents| == |pollfd|
        invariant Dispatch(armed, revents, i, env) == Dispatch(armed, revents, 0, env)
      {
        if revents[i].rd {
          r := OnReadable(i, env);
          return;
        }
        if revents[i].wr {
          r := OnWritable(i, env);
          return;
        }
        if revents[i].hup {
          var fd := pollfd[i].fd;
          var closed := Close(i);
          r := match closed
               case Value(_) => Value(Event(DISCONNECTION, i, fd, None))
               case Error(e) => Error(e)
               case Panic(f) => Panic(f);
          return;
        }
        if revents[i].hup || revents[i].nval {
          return Value(Event(ERROR, i, pollfd[i].fd, None));
        }
        i := i + 1;
      }
      r := Value(Event(ERROR, 0, 0, None));
    }

    method OnReadable(i: nat, env: Env) returns (r: Reply<Event>)
      requires Valid() && i < |pollfd|
      modifies this, switchdb
      ensures Valid() && Matches(HandleRead(old(Now()), i, env), Now(), r)
    {
      var fd := pollfd[i].fd;
      match connections[i].t {
        case SERVER => r := AcceptNewClient(i, env.accepted);
        case SWITCHED => r := OnSwitchedReadable(i, env.recv);
        case EXTERNAL => r := Value(Event(EXTERNAL_EVENT, i, fd, None));
        case IPC =>
          var m := Read(i, env.recv);
          match m {
            case Value(Some(p)) => r := Value(Event(MESSAGE_RX, i, fd, Some(p)));
            case Value(None) => r := CloseDisconnected(i);
            case Error(e) =>
              if env.recv.ConnectionReset? {
                r := CloseDisconnected(i);
              } else {
                r := Error(e);
              }
            case Panic(f) => r := Panic(f);
          }
      }
    }

    method AcceptNewClient(i: nat, accepted: Option<Fd>) returns (r: Reply<Event>)
      requires Valid() && i < |pollfd|
      modifies this
      ensures Valid() && Matches(Accept(old(Now()), i, accepted), Now(), r)
    {
      var serverfd := pollfd[i].fd;
      if connections[i].path == None {
        return Error(ServerWithNoPath);
      }
      if accepted == None {
        return Error(AcceptFailed);
      }
      AddNew(Connection(IPC, None), accepted.value);
      r := Value(Event(CONNECTION, |pollfd| - 1, serverfd, None));
    }

    /** The slot is read again after the close, through what used to be a
        pointer into the array. */
    method CloseDisconnected(i: nat) returns (r: Reply<Event>)
      requires Valid() && i < |pollfd|
      modifies this
      ensures Valid() && Matches(Disconnect(old(Now()), i), Now(), r)
    {
      var stale := pollfd[i].fd;
      var closed := Close(i);
      r := match closed
           case Value(_) => Value(Event(DISCONNECTION, i, if i < |pollfd| then pollfd[i].fd else stale, None))
           case Error(e) => Error(e)
           case Panic(f) => Panic(f);
    }

    method OnSwitchedReadable(i: nat, recv: Recv) returns (r: Reply<Event>)
      requires Valid() && i < |pollfd|
      modifies this, switchdb
      ensures Valid() && Matches(SwitchedRead(old(Now()), i, recv), Now(), r)
    {
      var fd := pollfd[i].fd;
      var event := switchdb.OnRead(i, fd, recv);
      match event.t {
        case SWITCH_RX =>
          if event.m == None {
            return Panic(NullUnwrap);
          }
          Schedule(event.m.value);
          r := Value(event);
        case DISCONNECTION =>
          r := DropPairThen(fd, event);
        case ERROR =>
          r := DropPairThen(fd, event);
        case _ => r := Error(IncoherentSwitch);
      }
    }

    method OnWritable(i: nat, env: Env) returns (r: Reply<Event>)
      requires Valid() && i < |pollfd|
      modifies this, switchdb
      ensures Valid() && Matches(HandleWrite(old(Now()), i, env), Now(), r)
    {
      var fd := pollfd[i].fd;
      pollfd := pollfd[i := pollfd[i].(wr := false)];
      var index := FindMessage(fd);
      if index == None {
        return Panic(UndefinedIndex);
      }
      var m := tx[index.value];
      tx := SwapRemove(tx, index.value);
      if connections[i].t == SWITCHED {
        r := OnSwitchedWritable(i, m, env.sent);
      } else {
        var packet := ZigWire.LayOut(m.payload);
        log := log.(handed := log.handed + [Delivery(m.fd, m, false, packet)]);
        r := if env.sent then Value(Event(MESSAGE_TX, i, fd, None)) else Error(WriteFailed);
      }
    }

    method FindMessage(fd: Fd) returns (index: Option<nat>)
      ensures index == FirstFor(tx, fd)
    {
      var k := 0;
      while k < |tx|
        invariant k <= |tx| && FirstFrom(tx, fd, k) == FirstFor(tx, fd)
      {
        if tx[k].fd == fd {
          return Some(k);
        }
        k := k + 1;
      }
      index := None;
    }

    method OnSwitchedWritable(i: nat, m: Packet, sent: bool) returns (r: Reply<Event>)
      requires Valid() && i < |pollfd|
      modifies this, switchdb
      ensures Valid() && Matches(SwitchedWrite(old(Now()), i, m, sent), Now(), r)
    {
      var fd := pollfd[i].fd;
      var event, packet := switchdb.OnWrite(i, m, sent);
      log := match packet
             case Some(bytes) => log.(handed := log.handed + [Delivery(m.fd, m, true, bytes)])
             case None => log.(dropped := log.dropped + multiset{m});
      match event.t {
        case SWITCH_TX => r := Value(event);
        case ERROR =>
          r := DropPairThen(fd, event);
        case _ => r := Error(IncoherentSwitch);
      }
    }
  }
}
