/** One wait_event, explained on the outside view: what each event says about
    how the tracked descriptors, the queue, the table and the open descriptors
    have changed. */
module ZigWait {
  import opened Wrappers
  import opened SendQueue
  import opened ZigTypes
  import opened SwitchTable
  import opened ZigState
  import opened ZigInvariant
  import opened ZigNet
  import SlotMap
  import ZigSwitch
  import ZigWire

  ghost predicate Waiting(queue: multiset<Packet>, fd: Fd) {
    exists m :: m in queue && m.fd == fd
  }

  /** Every descriptor is listened to; those with a waiting message, and those
      left armed earlier, may be written to. */
  ghost function Armed(n: Net): Net {
    n.(tracked := map fd | fd in n.tracked ::
      n.tracked[fd].(rd := true, wr := n.tracked[fd].wr || Waiting(n.queue, fd)))
  }

  /** Message m has left the queue, and POLLOUT is cleared for fd. */
  ghost function Taken(n: Net, fd: Fd, m: Packet): Net
    requires fd in n.tracked
  {
    n.(queue := n.queue - multiset{m}, tracked := n.tracked[fd := n.tracked[fd].(wr := false)])
  }

  /** The pair of fd is gone: its tracked ends and its table entries. */
  ghost predicate PairGone(n: Net, fd: Fd, n': Net) {
    && fd in n.db
    && Forgets(n.(db := Nuke(n.db, fd)), n', {fd, n.db[fd]} * n.tracked.Keys)
  }

  ghost function Joined(n: Net, client: Fd): Net {
    n.(tracked := n.tracked[client := Slot(Connection(IPC, None), true, false)], open := n.open + {client})
  }

  // ----- what an event says -----

  /** What made poll report the entry, in the order the source looks at it. */
  datatype Cause = ToRead | ToWrite | HungUp | Invalid

  function CauseOf(r: Revents): Cause {
    if r.rd then ToRead else if r.wr then ToWrite else if r.hup then HungUp else Invalid
  }

  /** The payload a Context read yields, if any. */
  function MessageIn(recv: Recv): Option<Payload> {
    if recv.Arrived? && ZigWire.ContextRead(recv.bytes).Got? then Some(ZigWire.ContextRead(recv.bytes).payload)
    else None
  }

  predicate SaysGoodbye(recv: Recv) {
    recv.ConnectionReset? || (recv.Arrived? && ZigWire.ContextRead(recv.bytes).NoMessage?)
  }

  /** Something to read on fd, whose connection is of type t. A disconnection is
      reported as that of the last descriptor of the arrays. */
  ghost predicate ExplainsRead(n: Net, fd: Fd, last: Fd, t: ConnectionType, env: Env, e: Event, n': Net) {
    match t
    case SERVER =>
      && e.t == CONNECTION && e.origin == fd && e.m == None
      && env.accepted.Some? && n' == Joined(n, env.accepted.value)
    case EXTERNAL => e.t == EXTERNAL_EVENT && e.origin == fd && e.m == None && n' == n
    case IPC =>
      if MessageIn(env.recv).Some? then
        && e.t == MESSAGE_RX && e.origin == fd && n' == n
        && e.m == Some(Message(fd, MessageIn(env.recv).value))
      else
        && SaysGoodbye(env.recv)
        && e.t == DISCONNECTION && e.origin == last && e.m == None && Forgets(n, n', {fd})
    case SWITCHED =>
      && fd in n.db && e.origin == fd
      && if ZigSwitch.SwitchedIn(env.recv).Some? then
           var m := Message(n.db[fd], ZigSwitch.SwitchedIn(env.recv).value[ZigWire.HEADER_SIZE..]);
           e.t == SWITCH_RX && e.m == Some(m) && n' == n.(queue := n.queue + multiset{m})
         else
           && e.t == (if ZigSwitch.FallsShort(env.recv) then DISCONNECTION else ERROR)
           && e.m == None && PairGone(n, fd, n')
  }

  /** Something can be sent to fd, and m is the first message for it. */
  ghost predicate ExplainsWrite(n: Net, fd: Fd, t: ConnectionType, m: Packet, sent: bool, e: Event, n': Net)
    requires fd in n.tracked
  {
    && e.origin == fd && e.m == None
    && if t == SWITCHED && sent then e.t == SWITCH_TX && n' == Taken(n, fd, m)
       else if t == SWITCHED then e.t == ERROR && PairGone(Taken(n, fd, m), fd, n')
       else sent && e.t == MESSAGE_TX && n' == Taken(n, fd, m)
  }

  /** The event names its slot and, with the descriptor in it, the type of its
      connection and the answers of the system, leaves one change possible. */
  ghost predicate Explains(s: State, i: nat, cause: Cause, env: Env, e: Event, n': Net)
    requires i < |s.polls| && s.polls[i].fd in Tracked(s)
  {
    var n, fd, t := View(s), s.polls[i].fd, s.conns[i].t;
    && e.index == (if e.t == CONNECTION then |s.polls| else i)
    && match cause
       case ToRead =>
         && (t == SERVER ==> s.conns[i].path.Some?)
         && ExplainsRead(n, fd, s.polls[|s.polls| - 1].fd, t, env, e, n')
       case ToWrite =>
         && FirstFor(s.tx, fd).Some?
         && ExplainsWrite(n, fd, t, s.tx[FirstFor(s.tx, fd).value], env.sent, e, n')
       case HungUp => e.t == DISCONNECTION && e.origin == fd && e.m == None && Forgets(n, n', {fd})
       case Invalid => e.t == ERROR && e.origin == fd && e.m == None && n' == n
  }

  /** An error changes nothing, except that the message of a failed write has
      left the queue. */
  ghost predicate ExplainsError(s: State, i: nat, cause: Cause, env: Env, error: Error, n': Net)
    requires i < |s.polls| && s.polls[i].fd in Tracked(s)
  {
    var n, fd, t := View(s), s.polls[i].fd, s.conns[i].t;
    match cause
    case ToRead =>
      && n' == n
      && (t == SERVER ==>
            if s.conns[i].path == None then error == ServerWithNoPath
            else error == AcceptFailed && env.accepted == None)
      && (t == IPC ==> error == (if env.recv.Arrived? then WrongMessageLength else ReadFailed)
                       && MessageIn(env.recv) == None && !SaysGoodbye(env.recv))
      && t in {SERVER, IPC}
    case ToWrite =>
      && t != SWITCHED && !env.sent && error == WriteFailed
      && FirstFor(s.tx, fd).Some?
      && n' == Taken(n, fd, s.tx[FirstFor(s.tx, fd).value])
    case _ => false
  }

  ghost predicate ExplainsOutcome(s: State, i: nat, cause: Cause, env: Env, o: Outcome<Event>)
    requires i < |s.polls| && s.polls[i].fd in Tracked(s)
  {
    match o
    case Done(s', e) => Explains(s, i, cause, env, e, View(s'))
    case Failed(s', error) => ExplainsError(s, i, cause, env, error, View(s'))
    case Crash(_) => false
  }

  // ----- which entry is handled -----

  /** POLLIN, POLLOUT, POLLHUP or POLLNVAL. */
  predicate Calls(r: Revents) {
    r.rd || r.wr || r.hup || r.nval
  }

  /** The first entry reporting POLLIN, POLLOUT, POLLHUP or POLLNVAL decides the
      call; later entries wait for the next one. */
  lemma {:induction false} DispatchFirst(s: State, revents: seq<Revents>, from: nat, i: nat, env: Env)
    requires |revents| == |s.polls| && from <= i < |s.polls|
    requires Calls(revents[i]) && forall k :: from <= k < i ==> !Calls(revents[k])
    ensures Dispatch(s, revents, from, env) == Handle(s, revents[i], i, env)
    decreases i - from
  {
    if from == i {
    } else {
      DispatchFirst(s, revents, from + 1, i, env);
    }
  }

  lemma {:induction false} DispatchNone(s: State, revents: seq<Revents>, from: nat, env: Env)
    requires |revents| == |s.polls| && from <= |s.polls|
    requires forall k :: from <= k < |s.polls| ==> !Handled(revents[k])
    ensures Dispatch(s, revents, from, env) == Done(s, Event(ERROR, 0, 0, None))
    decreases |s.polls| - from
  {
    if from == |s.polls| {
    } else {
      DispatchNone(s, revents, from + 1, env);
    }
  }

  function FirstHandledFrom(revents: seq<Revents>, i: nat): (r: Option<nat>)
    requires i <= |revents|
    ensures r.Some? ==> i <= r.value < |revents| && Handled(revents[r.value])
    ensures r.Some? ==> forall k :: i <= k < r.value ==> !Handled(revents[k])
    ensures r.None? ==> forall k :: i <= k < |revents| ==> !Handled(revents[k])
    decreases |revents| - i
  {
    if i == |revents| then None
    else if Handled(revents[i]) then Some(i)
    else FirstHandledFrom(revents, i + 1)
  }

  function FirstHandled(revents: seq<Revents>): (r: Option<nat>)
    ensures r.Some? ==> r.value < |revents| && Handled(revents[r.value])
    ensures r.Some? ==> forall k :: 0 <= k < r.value ==> !Handled(revents[k])
    ensures r.None? ==> forall k :: 0 <= k < |revents| ==> !Handled(revents[k])
  {
    FirstHandledFrom(revents, 0)
  }

  /** A wait is the handler of the first handled entry, on the armed state. */
  lemma WaitIsFirst(s: State, env: Env)
    requires env.poll.Some? && |env.poll.value| == |s.polls|
    ensures Wait(s, env) ==
            match FirstHandled(env.poll.value)
            case Some(i) => Handle(Arm(s), env.poll.value[i], i, env)
            case None =>
              var silent := forall k :: 0 <= k < |s.polls| ==> Silent(env.poll.value[k]);
              Done(Arm(s), Event(if silent && env.timedOut then TIMER else ERROR, 0, 0, None))
  {
    match FirstHandled(env.poll.value)
    case Some(i) =>
      assert !Silent(env.poll.value[i]);
      DispatchFirst(Arm(s), env.poll.value, 0, i, env);
    case None => DispatchNone(Arm(s), env.poll.value, 0, env);
  }

  /** Slot i decides the wait, with the returned events r. */
  predicate Decides(s: State, env: Env, i: nat, r: Revents) {
    && env.poll.Some? && |env.poll.value| == |s.polls|
    && FirstHandled(env.poll.value) == Some(i) && env.poll.value[i] == r
  }

  lemma DecidedBy(s: State, env: Env, i: nat, r: Revents)
    requires Decides(s, env, i, r)
    ensures Wait(s, env) == Handle(Arm(s), r, i, env)
  {
    WaitIsFirst(s, env);
  }

  /** A POLLERR on its own is never attributed to its descriptor: the source
      tests POLLHUP a second time where its comment announces POLLERR. The call
      reports an error of index 0 and origin 0 and closes nothing. */
  lemma LonePollErrIsAnonymous(s: State, env: Env)
    requires env.poll.Some? && |env.poll.value| == |s.polls|
    requires forall i :: 0 <= i < |s.polls| ==>
               var r := env.poll.value[i]; !r.rd && !r.wr && !r.hup && !r.nval
    requires exists i :: 0 <= i < |s.polls| && env.poll.value[i].err
    ensures Wait(s, env) == Done(Arm(s), Event(ERROR, 0, 0, None))
  {
    WaitIsFirst(s, env);
  }

  // ----- each branch -----

  lemma ArmRefines(s: State)
    requires Inv(s)
    ensures View(Arm(s)) == Armed(View(s))
  {
    var s' := Arm(s);
    forall fd ensures fd in Tracked(s') <==> fd in Tracked(s) {
      TrackedIff(s, fd);
      TrackedIff(s', fd);
      SameTracked(s);
      if i :| 0 <= i < |s.polls| && s.polls[i].fd == fd {
        assert s'.polls[i].fd == fd;
      }
    }
    forall fd | fd in Tracked(s) ensures Tracked(s')[fd] == Armed(View(s)).tracked[fd] {
      TrackedIff(s, fd);
      var i := IndexOf(s.polls, fd).value;
      TrackedAt(s, i);
      TrackedAt(s', i);
      WaitingIff(s.tx, fd);
    }
  }

  lemma WaitingIff(tx: seq<Packet>, fd: Fd)
    ensures HasFor(tx, fd) <==> Waiting(multiset(tx), fd)
  {
  }

  lemma DequeuedRefines(s: State, i: nat, k: nat, s': State)
    requires Inv(s) && i < |s.polls| && k < |s.tx| && s.tx[k].fd == s.polls[i].fd
    requires s' == Dequeued(s, i, k).(log := s'.log)
    ensures s.polls[i].fd in Tracked(s)
    ensures View(s') == Taken(View(s), s.polls[i].fd, s.tx[k])
  {
    SwapRemoveMultiset(s.tx, k);
    assert multiset(s'.tx) == multiset(s.tx) - multiset{s.tx[k]};
    TrackedAt(s, i);
    ClearedRefines(s, i, s');
  }

  lemma ClearedRefines(s: State, i: nat, s': State)
    requires Distinct(s.polls) && i < |s.polls|
    requires s'.conns == s.conns && s'.polls == s.polls[i := s.polls[i].(wr := false)]
    ensures Tracked(s') == Tracked(s)[s.polls[i].fd := SlotAt(s, i).(wr := false)]
  {
    assert Fds(s') == Fds(s);
    assert Slots(s') == Slots(s)[i := SlotAt(s, i).(wr := false)];
    SlotMap.UpdateIsUpdate(Fds(s), Slots(s), i, SlotAt(s, i).(wr := false));
  }

  lemma TeardownExplained(s: State, fd: Fd)
    requires Inv(s) && fd in s.db
    ensures Teardown(s, fd).Done? && PairGone(View(s), fd, View(Teardown(s, fd).s))
  {
    TeardownRefines(s, fd);
  }

  /** accept_new_client: exactly the new client joins, at the index of the event. */
  lemma AcceptExplained(s: State, i: nat, env: Env)
    requires Inv(s) && i < |s.polls| && s.conns[i].t == SERVER && s.polls[i].fd in Tracked(s)
    ensures ExplainsOutcome(s, i, ToRead, env, Accept(s, i, env.accepted))
    ensures var o := Accept(s, i, env.accepted);
            o.Done? ==> o.value.index < |o.s.polls| && o.s.polls[o.value.index].fd == env.accepted.value
  {
    if Accept(s, i, env.accepted).Done? {
      var client := env.accepted.value;
      var s1 := s.(open := s.open + {client});
      SameArrays(s, s1);
      TrackRefines(s1, Connection(IPC, None), client);
    }
  }

  lemma SwitchedReadExplained(s: State, i: nat, env: Env)
    requires Inv(s) && i < |s.polls| && s.conns[i].t == SWITCHED && s.polls[i].fd in Tracked(s)
    ensures ExplainsOutcome(s, i, ToRead, env, SwitchedRead(s, i, env.recv))
  {
    var fd := s.polls[i].fd;
    var event := ZigSwitch.HandleEventRead(s.db, i, fd, env.recv);
    ZigSwitch.SwitchedEvent(s.db, i, fd, env.recv);
    if ZigSwitch.SwitchedIn(env.recv).Some? {
      var s' := Schedule(s, event.m.value);
      assert SwitchedRead(s, i, env.recv) == Done(s', event);
      SameArrays(s, s');
    } else {
      assert SwitchedRead(s, i, env.recv) == TeardownThen(s, fd, event);
      TeardownExplained(s, fd);
    }
  }

  lemma PlainReadExplained(s: State, i: nat, env: Env)
    requires Inv(s) && i < |s.polls| && s.conns[i].t == IPC && s.polls[i].fd in Tracked(s)
    ensures ExplainsOutcome(s, i, ToRead, env, HandleRead(s, i, env))
  {
    CloseKeeps(s, i);
    RemovedRefines(s, i);
  }

  lemma SwitchedWriteExplained(s: State, i: nat, k: nat, env: Env)
    requires Inv(s) && i < |s.polls| && s.conns[i].t == SWITCHED && s.polls[i].fd in Tracked(s)
    requires FirstFor(s.tx, s.polls[i].fd) == Some(k)
    ensures ExplainsOutcome(s, i, ToWrite, env, SwitchedWrite(Dequeued(s, i, k), i, s.tx[k], env.sent))
  {
    var fd := s.polls[i].fd;
    var m := s.tx[k];
    var s1 := Dequeued(s, i, k);
    var mid := Hand(s1, SwitchedDelivery(m));
    assert View(mid) == Taken(View(s), fd, m) by { DequeuedRefines(s, i, k, mid); }
    assert Inv(mid) by { HandKeeps(s, i, k, SwitchedDelivery(m)); }
    assert s1.db == s.db && fd in s.db;
    SwitchedWriteIs(s1, i, m, env.sent);
    if !env.sent {
      TeardownExplained(mid, fd);
    }
  }

  lemma SwitchedWriteIs(s: State, i: nat, m: Packet, sent: bool)
    requires i < |s.polls| && m.fd == s.polls[i].fd && m.fd in s.db
    ensures var mid := Hand(s, SwitchedDelivery(m));
            SwitchedWrite(s, i, m, sent) ==
            if sent then Done(mid, Event(SWITCH_TX, i, m.fd, None))
            else TeardownThen(mid, m.fd, Event(ERROR, i, m.fd, None))
  {
  }

  lemma HandleReadExplained(s: State, i: nat, env: Env)
    requires Inv(s) && i < |s.polls| && s.polls[i].fd in Tracked(s)
    ensures ExplainsOutcome(s, i, ToRead, env, HandleRead(s, i, env))
  {
    match s.conns[i].t
    case SERVER => AcceptExplained(s, i, env);
    case SWITCHED => SwitchedReadExplained(s, i, env);
    case EXTERNAL =>
    case IPC => PlainReadExplained(s, i, env);
  }

  /** The index of the write branch is always assigned: the first message for the
      ready descriptor leaves the queue, and no other. */
  lemma HandleWriteExplained(s: State, i: nat, env: Env)
    requires Inv(s) && i < |s.polls| && s.polls[i].wr && s.polls[i].fd in Tracked(s)
    ensures ExplainsOutcome(s, i, ToWrite, env, HandleWrite(s, i, env))
  {
    var fd := s.polls[i].fd;
    var k := FirstFor(s.tx, fd).value;
    if s.conns[i].t == SWITCHED {
      SwitchedWriteExplained(s, i, k, env);
    } else {
      DequeuedRefines(s, i, k, Hand(Dequeued(s, i, k), PlainDelivery(fd, s.tx[k])));
    }
  }

  lemma HandleExplained(s: State, r: Revents, i: nat, env: Env)
    requires Inv(s) && i < |s.polls| && Handled(r) && (r.wr ==> s.polls[i].wr)
    ensures s.polls[i].fd in Tracked(s)
    ensures ExplainsOutcome(s, i, CauseOf(r), env, Handle(s, r, i, env))
  {
    TrackedAt(s, i);
    if r.rd {
      HandleReadExplained(s, i, env);
    } else if r.wr {
      HandleWriteExplained(s, i, env);
    } else if r.hup {
      CloseKeeps(s, i);
      RemovedRefines(s, i);
    }
  }

  /** Every wait, on every good state and for every answer POSIX allows: which
      entry decides, and how its event determines the whole change. */
  lemma WaitExplained(s: State, env: Env)
    requires Inv(s) && Legal(s, WaitEvent(env))
    ensures View(Arm(s)) == Armed(View(s))
    ensures match env.poll
            case None => Wait(s, env) == Failed(Arm(s), PollFailed)
            case Some(revents) =>
              match FirstHandled(revents)
              case Some(i) =>
                && s.polls[i].fd in Tracked(Arm(s))
                && ExplainsOutcome(Arm(s), i, CauseOf(revents[i]), env, Wait(s, env))
              case None =>
                && Wait(s, env).Done? && Wait(s, env).s == Arm(s)
                && Wait(s, env).value in {Event(TIMER, 0, 0, None), Event(ERROR, 0, 0, None)}
  {
    ArmRefines(s);
    ArmKeeps(s);
    if env.poll.Some? {
      WaitIsFirst(s, env);
      var first := FirstHandled(env.poll.value);
      if first.Some? {
        HandleExplained(Arm(s), env.poll.value[first.value], first.value, env);
      }
    }
  }

  // ----- which entry is named -----

  const ANONYMOUS := Event(ERROR, 0, 0, None)

  /** A wait reports an error of no entry, and changes nothing, exactly when no
      entry reports POLLIN, POLLOUT, POLLHUP or POLLNVAL and it is not a plain
      timeout; or when POLLNVAL is all that slot 0 reports and its number is 0,
      which looks the same. */
  lemma AnonymousExactly(s: State, env: Env)
    requires Inv(s) && Legal(s, WaitEvent(env)) && env.poll.Some?
    ensures Wait(s, env) == Done(Arm(s), ANONYMOUS) <==>
            match FirstHandled(env.poll.value)
            case None => !env.timedOut || exists k :: 0 <= k < |s.polls| && env.poll.value[k].err
            case Some(i) => i == 0 && s.polls[0].fd == 0 && CauseOf(env.poll.value[0]) == Invalid
  {
    WaitIsFirst(s, env);
    var first := FirstHandled(env.poll.value);
    if first.Some? {
      ArmKeeps(s);
      HandleExplained(Arm(s), env.poll.value[first.value], first.value, env);
    }
  }

  lemma SameTracked(s: State)
    ensures forall fd :: IsTracked(Arm(s), fd) ==> IsTracked(s, fd)
  {
  }
}
