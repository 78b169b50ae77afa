/** What one action may add to the log of messages: which messages are queued,
    handed to a write or dropped, and on whose account. */
module ZigLog {
  import opened Wrappers
  import opened SendQueue
  import opened ZigTypes
  import opened ZigState
  import opened ZigInvariant
  import opened ZigWait
  import opened SwitchTable
  import ZigSwitch

  /** Messages are dropped only for descriptors closed meanwhile. */
  ghost predicate DropsOnlyClosed(s: State, s': State) {
    forall m: Packet :: s'.log.dropped[m] == s.log.dropped[m] || (m.fd in s.open && m.fd !in s'.open)
  }

  /** ... and nothing is queued, handed over or opened. */
  ghost predicate OnlyCloses(s: State, s': State) {
    && s'.log.queued == s.log.queued && s'.log.handed == s.log.handed
    && s'.open <= s.open
    && DropsOnlyClosed(s, s')
  }

  lemma RemovedCloses(s: State, i: nat)
    requires i < |s.polls| && s.polls[i].fd in s.open
    ensures OnlyCloses(s, Removed(s, i))
  {
    PurgeExact(s.tx, s.polls[i].fd);
    assert multiset(Removed(s, i).tx) <= multiset(s.tx);
  }

  lemma SafeCloseCloses(s: State, fd: Fd)
    ensures OnlyCloses(s, SafeCloseFd(s, fd))
  {
    var i := IndexOf(s.polls, fd);
    if fd in s.open && i.Some? {
      RemovedCloses(s, i.value);
    }
  }

  lemma ClosesTwice(a: State, b: State, c: State)
    requires OnlyCloses(a, b) && OnlyCloses(b, c)
    ensures OnlyCloses(a, c)
  {
  }

  lemma TeardownCloses(s: State, fd: Fd)
    requires fd in s.db
    ensures Teardown(s, fd).Done? && OnlyCloses(s, Teardown(s, fd).s)
  {
    var s0 := s.(db := Nuke(s.db, fd));
    var s1 := SafeCloseFd(s0, fd);
    SafeCloseCloses(s0, fd);
    SafeCloseCloses(s1, s.db[fd]);
    ClosesTwice(s0, s1, SafeCloseFd(s1, s.db[fd]));
  }

  lemma {:induction false} CloseAllCloses(s: State)
    requires Inv(s)
    ensures CloseAll(s).Done? && OnlyCloses(s, CloseAll(s).s)
    decreases |s.conns|
  {
    if |s.conns| == 0 {
    } else {
      RemovedCloses(s, 0);
      CloseKeeps(s, 0);
      CloseAllCloses(Removed(s, 0));
      ClosesTwice(s, Removed(s, 0), CloseAll(s).s);
    }
  }

  /** What a wait does to the log: it hands at most one message over, and that
      one was waiting; it queues a message exactly when it reports SWITCH_RX,
      namely the one it reports. */
  ghost predicate LogStep(s: State, o: Outcome<Event>) {
    && !o.Crash?
    && DropsOnlyClosed(s, o.s)
    && (o.s.log.handed == s.log.handed
        || exists d: Delivery :: d.m in s.tx && o.s.log.handed == s.log.handed + [d])
    && o.s.log.queued == s.log.queued
         + if o.Done? && o.value.t == SWITCH_RX && o.value.m.Some? then multiset{o.value.m.value} else multiset{}
  }

  lemma ClosingStep(s: State, o: Outcome<Event>)
    requires !o.Crash? && OnlyCloses(s, o.s) && (o.Done? ==> o.value.t != SWITCH_RX)
    ensures LogStep(s, o)
  {
  }

  lemma HandleReadLogs(s: State, i: nat, env: Env)
    requires Inv(s) && i < |s.polls|
    ensures LogStep(s, HandleRead(s, i, env))
  {
    match s.conns[i].t
    case SERVER => AcceptLogs(s, i, env.accepted);
    case SWITCHED => SwitchedReadLogs(s, i, env.recv);
    case EXTERNAL =>
    case IPC => DisconnectLogs(s, i);
  }

  lemma AcceptLogs(s: State, i: nat, accepted: Option<Fd>)
    requires i < |s.polls|
    ensures LogStep(s, Accept(s, i, accepted))
  {
    assert !Accept(s, i, accepted).Crash? && Accept(s, i, accepted).s.log == s.log;
  }

  lemma DisconnectLogs(s: State, i: nat)
    requires Inv(s) && i < |s.polls|
    ensures LogStep(s, Disconnect(s, i))
  {
    RemovedCloses(s, i);
    ClosingStep(s, Disconnect(s, i));
  }

  lemma SwitchedReadLogs(s: State, i: nat, recv: Recv)
    requires Inv(s) && i < |s.polls| && s.conns[i].t == SWITCHED
    ensures LogStep(s, SwitchedRead(s, i, recv))
  {
    var fd := s.polls[i].fd;
    var event := ZigSwitch.HandleEventRead(s.db, i, fd, recv);
    if event.t == SWITCH_RX {
      assert SwitchedRead(s, i, recv) == Done(Schedule(s, event.m.value), event);
    } else {
      TeardownCloses(s, fd);
      ClosingStep(s, SwitchedRead(s, i, recv));
    }
  }

  lemma HandleWriteLogs(s: State, i: nat, env: Env)
    requires Inv(s) && i < |s.polls| && s.polls[i].wr
    ensures LogStep(s, HandleWrite(s, i, env))
  {
    var fd := s.polls[i].fd;
    var k := FirstFor(s.tx, fd).value;
    var m := s.tx[k];
    if s.conns[i].t == SWITCHED {
      SwitchedWriteLogs(s, i, k, env.sent);
    }
  }

  lemma SwitchedWriteLogs(s: State, i: nat, k: nat, sent: bool)
    requires i < |s.polls| && k < |s.tx| && s.tx[k].fd == s.polls[i].fd && s.polls[i].fd in s.db
    ensures LogStep(s, SwitchedWrite(Dequeued(s, i, k), i, s.tx[k], sent))
  {
    var m := s.tx[k];
    var d := SwitchedDelivery(m);
    var mid := Hand(Dequeued(s, i, k), d);
    assert d.m in s.tx;
    TeardownCloses(mid, m.fd);
    var o := SwitchedWrite(Dequeued(s, i, k), i, m, sent);
    assert o == if sent then Done(mid, ZigSwitch.HandleEventWrite(s.db, i, m, sent))
                else TeardownThen(mid, m.fd, ZigSwitch.HandleEventWrite(s.db, i, m, sent));
    assert o.s.log.handed == s.log.handed + [d];
  }

  lemma HandleLogs(s: State, r: Revents, i: nat, env: Env)
    requires Inv(s) && i < |s.polls| && Handled(r) && (r.wr ==> s.polls[i].wr)
    ensures LogStep(s, Handle(s, r, i, env))
  {
    if r.rd {
      HandleReadLogs(s, i, env);
    } else if r.wr {
      HandleWriteLogs(s, i, env);
    } else if r.hup {
      RemovedCloses(s, i);
      ClosingStep(s, Handle(s, r, i, env));
    }
  }

  lemma WaitLogs(s: State, env: Env)
    requires Inv(s) && Legal(s, WaitEvent(env))
    ensures LogStep(s, Wait(s, env))
  {
    ArmKeeps(s);
    SameTracked(s);
    if env.poll.Some? {
      WaitIsFirst(s, env);
      var first := FirstHandled(env.poll.value);
      if first.Some? {
        HandleLogs(Arm(s), env.poll.value[first.value], first.value, env);
      }
    }
  }

  /** No action loses a message but by closing its descriptor, and only a wait
      hands messages over. */
  lemma StepLogs(s: State, a: Action)
    requires Inv(s) && Legal(s, a)
    ensures Shaped(s, a) && !Step(s, a).Crash? && DropsOnlyClosed(s, Step(s, a).s)
    ensures !a.WaitEvent? ==>
              && Step(s, a).s.log.handed == s.log.handed
              && Step(s, a).s.log.queued == s.log.queued + if a.Queue? then multiset{a.m} else multiset{}
  {
    StepKeeps(s, a);
    match a
    case CloseIndex(i) =>
      if i < |s.polls| {
        RemovedCloses(s, i);
      }
    case CloseDescriptor(fd) =>
      var i := IndexOf(s.polls, fd);
      if i.Some? {
        RemovedCloses(s, i.value);
      }
    case CloseEverything => CloseAllCloses(s);
    case WaitEvent(env) => WaitLogs(s, env);
    case _ =>
  }
}
