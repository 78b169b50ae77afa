/** What every operation of a Context keeps, over all runs. */
module ZigInvariant {
  import opened Wrappers
  import opened SendQueue
  import opened ZigTypes
  import opened SwitchTable
  import opened ZigState
  import ZigSwitch
  import ZigWire

  // ----- the invariant -----

  ghost predicate Distinct(polls: seq<PollFd>) {
    forall i, j :: 0 <= i < j < |polls| ==> polls[i].fd != polls[j].fd
  }

  ghost predicate IsTracked(s: State, fd: Fd) {
    exists i :: 0 <= i < |s.polls| && s.polls[i].fd == fd
  }

  ghost predicate TrackedOpen(s: State) {
    forall i :: 0 <= i < |s.polls| ==> s.polls[i].fd in s.open
  }

  /** A switched connection has a partner; loose descriptors are exempt. */
  ghost predicate SwitchedPaired(s: State, loose: set<Fd>) {
    forall i :: 0 <= i < |s.polls| && s.conns[i].t == SWITCHED && s.polls[i].fd !in loose
      ==> s.polls[i].fd in s.db
  }

  /** POLLOUT is requested only where a message waits. */
  ghost predicate ArmedQueued(s: State) {
    forall i :: 0 <= i < |s.polls| && s.polls[i].wr ==> HasFor(s.tx, s.polls[i].fd)
  }

  ghost function Messages(ds: seq<Delivery>): multiset<Packet> {
    if ds == [] then multiset{} else Messages(ds[..|ds| - 1]) + multiset{ds[|ds| - 1].m}
  }

  /** Whatever was queued is still queued, was handed to a write once, or was
      dropped. */
  ghost predicate Conserved(s: State) {
    s.log.queued == multiset(s.tx) + Messages(s.log.handed) + s.log.dropped
  }

  /** Each write was on the message's own descriptor and carried its own frame. */
  ghost predicate OwnWrite(d: Delivery) {
    && d.fd == d.m.fd
    && d.packet == if d.switched then ZigWire.SwitchPacket(d.m.payload) else ZigWire.ContextPacket(d.m.payload)
  }

  ghost predicate OwnWrites(log: Log) {
    forall k :: 0 <= k < |log.handed| ==> OwnWrite(log.handed[k])
  }

  ghost predicate InvExcept(s: State, loose: set<Fd>) {
    && Distinct(s.polls)
    && TrackedOpen(s)
    && SwitchedPaired(s, loose)
    && ArmedQueued(s)
    && Conserved(s)
    && OwnWrites(s.log)
  }

  ghost predicate Inv(s: State) {
    InvExcept(s, {})
  }

  // ----- each operation -----

  lemma TrackKeeps(s: State, c: Connection, fd: Fd)
    requires Inv(s) && !IsTracked(s, fd) && fd in s.open
    requires c.t == SWITCHED ==> fd in s.db
    ensures Inv(Track(s, c, fd))
  {
  }

  lemma ConnectKeeps(s: State, c: Connection, fd: Fd)
    requires Inv(s) && !IsTracked(s, fd) && (c.t == SWITCHED ==> fd in s.db)
    ensures Inv(Connect(s, c, fd))
  {
  }

  lemma ScheduleKeeps(s: State, m: Packet)
    requires Inv(s)
    ensures Inv(Schedule(s, m))
  {
    var s' := Schedule(s, m);
    forall g | HasFor(s.tx, g) ensures HasFor(s'.tx, g) {
      var k :| 0 <= k < |s.tx| && s.tx[k].fd == g;
      assert s'.tx[k].fd == g;
    }
  }

  lemma ArmKeeps(s: State)
    requires Inv(s)
    ensures Inv(Arm(s))
  {
  }

  lemma RemovedKeeps(s: State, i: nat, loose: set<Fd>)
    requires InvExcept(s, loose) && i < |s.polls|
    ensures InvExcept(Removed(s, i), loose)
    ensures !IsTracked(Removed(s, i), s.polls[i].fd)
  {
    var s' := Removed(s, i);
    var fd := s.polls[i].fd;
    PurgeExact(s.tx, fd);
    assert multiset(s'.tx) <= multiset(s.tx);
  }

  lemma SafeCloseKeeps(s: State, fd: Fd, loose: set<Fd>)
    requires InvExcept(s, loose)
    ensures InvExcept(SafeCloseFd(s, fd), loose - {fd})
    ensures !IsTracked(SafeCloseFd(s, fd), fd)
    ensures SafeCloseFd(s, fd) ==
            match IndexOf(s.polls, fd) case Some(i) => Removed(s, i) case None => s
  {
    var found := IndexOf(s.polls, fd);
    if found.Some? {
      RemovedKeeps(s, found.value, loose);
    }
  }

  lemma TeardownKeeps(s: State, fd: Fd)
    requires Inv(s) && fd in s.db
    ensures Teardown(s, fd).Done? && Inv(Teardown(s, fd).s)
  {
    var dest := s.db[fd];
    var s0 := s.(db := Nuke(s.db, fd));
    SafeCloseKeeps(s0, fd, {fd, dest});
    SafeCloseKeeps(SafeCloseFd(s0, fd), dest, {fd, dest} - {fd});
    assert {fd, dest} - {fd} - {dest} == {};
  }

  lemma CloseKeeps(s: State, i: nat)
    requires Inv(s)
    ensures Close(s, i).Done? <==> i < |s.polls|
    ensures !Close(s, i).Crash? && Inv(Close(s, i).s)
  {
    if i < |s.polls| {
      RemovedKeeps(s, i, {});
    }
  }

  lemma RemovedTracks(s: State, i: nat, fd: Fd)
    requires Distinct(s.polls) && i < |s.polls|
    ensures IsTracked(Removed(s, i), fd) <==> IsTracked(s, fd) && fd != s.polls[i].fd
  {
    var s' := Removed(s, i);
    if IsTracked(s, fd) && fd != s.polls[i].fd {
      var j :| 0 <= j < |s.polls| && s.polls[j].fd == fd;
      assert s'.polls[if j == |s'.polls| then i else j].fd == fd;
    }
  }

  /** close_all closes exactly the tracked descriptors and takes exactly their
      messages. */
  lemma {:induction false} CloseAllKeeps(s: State)
    requires Inv(s)
    ensures CloseAll(s).Done? && Inv(CloseAll(s).s)
    ensures CloseAll(s).s.polls == [] && CloseAll(s).s.conns == []
    ensures forall fd :: fd in CloseAll(s).s.open <==> fd in s.open && !IsTracked(s, fd)
    ensures forall m: Packet ::
              multiset(CloseAll(s).s.tx)[m] == if IsTracked(s, m.fd) then 0 else multiset(s.tx)[m]
    ensures forall fd :: HasFor(CloseAll(s).s.tx, fd) <==> HasFor(s.tx, fd) && !IsTracked(s, fd)
    decreases |s.conns|
  {
    if |s.conns| == 0 {
    } else {
      var s' := Removed(s, 0);
      CloseKeeps(s, 0);
      PurgeExact(s.tx, s.polls[0].fd);
      CloseAllKeeps(s');
      forall fd ensures IsTracked(s', fd) <==> IsTracked(s, fd) && fd != s.polls[0].fd {
        RemovedTracks(s, 0, fd);
      }
    }
  }

  lemma AddSwitchKeeps(s: State, a: Fd, b: Fd)
    requires Inv(s)
    ensures !AddSwitch(s, a, b).Crash? && Inv(AddSwitch(s, a, b).s)
  {
  }

  // ----- the branches of one wait -----

  /** No crash, the invariant afterwards, and never the incoherent-switch error. */
  ghost predicate Safe<T>(o: Outcome<T>) {
    && !o.Crash?
    && Inv(o.s)
    && !(o.Failed? && o.error == IncoherentSwitch)
  }

  lemma DisconnectKeeps(s: State, i: nat)
    requires Inv(s) && i < |s.polls|
    ensures Safe(Disconnect(s, i)) && Safe(HandleHangUp(s, i))
  {
    CloseKeeps(s, i);
  }

  /** A client is accepted at slot i. */
  predicate Accepts(s: State, i: nat, env: Env)
    requires i < |s.polls|
  {
    s.conns[i].t == SERVER && s.conns[i].path.Some? && env.accepted.Some?
  }

  lemma AcceptKeeps(s: State, i: nat, accepted: Option<Fd>)
    requires Inv(s) && i < |s.polls|
    requires s.conns[i].path.Some? && accepted.Some? ==> !IsTracked(s, accepted.value)
    ensures Safe(Accept(s, i, accepted))
  {
  }

  lemma SwitchedReadKeeps(s: State, i: nat, recv: Recv)
    requires Inv(s) && i < |s.polls| && s.conns[i].t == SWITCHED
    ensures Safe(SwitchedRead(s, i, recv))
  {
    var fd := s.polls[i].fd;
    var event := ZigSwitch.HandleEventRead(s.db, i, fd, recv);
    if event.t == SWITCH_RX {
      ScheduleKeeps(s, event.m.value);
    } else {
      TeardownKeeps(s, fd);
    }
  }

  lemma HandleReadKeeps(s: State, i: nat, env: Env)
    requires Inv(s) && i < |s.polls|
    requires Accepts(s, i, env) ==> !IsTracked(s, env.accepted.value)
    ensures Safe(HandleRead(s, i, env))
  {
    match s.conns[i].t
    case SERVER => AcceptKeeps(s, i, env.accepted);
    case SWITCHED => SwitchedReadKeeps(s, i, env.recv);
    case EXTERNAL =>
    case IPC => DisconnectKeeps(s, i);
  }

  /** Taking message k out for its own slot and recording where it went. */
  lemma DequeuedKeeps(s: State, i: nat, k: nat, log: Log)
    requires Inv(s) && i < |s.polls| && k < |s.tx| && s.tx[k].fd == s.polls[i].fd
    requires log.queued == s.log.queued && OwnWrites(log)
    requires Messages(log.handed) + log.dropped == Messages(s.log.handed) + s.log.dropped + multiset{s.tx[k]}
    ensures Inv(Dequeued(s, i, k).(log := log))
  {
    var s' := Dequeued(s, i, k).(log := log);
    SwapRemoveMultiset(s.tx, k);
    Regrouped(s.log.queued, multiset(s.tx), multiset(s'.tx), Messages(s.log.handed), s.log.dropped,
              Messages(log.handed), log.dropped, multiset{s.tx[k]});
    forall j | 0 <= j < |s'.polls| && s'.polls[j].wr ensures HasFor(s'.tx, s'.polls[j].fd) {
      var h :| 0 <= h < |s.tx| && s.tx[h].fd == s.polls[j].fd;
      assert s'.tx[if h == |s'.tx| then k else h].fd == s.polls[j].fd;
    }
  }

  lemma Regrouped<T>(all: multiset<T>, tx: multiset<T>, tx': multiset<T>,
                     handed: multiset<T>, dropped: multiset<T>, handed': multiset<T>, dropped': multiset<T>,
                     one: multiset<T>)
    requires all == tx + handed + dropped && tx == tx' + one
    requires handed' + dropped' == handed + dropped + one
    ensures all == tx' + handed' + dropped'
  {
    assert all == tx' + (handed + dropped + one);
    assert tx' + handed' + dropped' == tx' + (handed' + dropped');
  }

  lemma OneMore(handed: seq<Delivery>, d: Delivery, dropped: multiset<Packet>)
    ensures Messages(handed + [d]) + dropped == Messages(handed) + dropped + multiset{d.m}
  {
    assert (handed + [d])[..|handed|] == handed;
  }

  lemma HandKeeps(s: State, i: nat, k: nat, d: Delivery)
    requires Inv(s) && i < |s.polls| && k < |s.tx| && s.tx[k].fd == s.polls[i].fd
    requires OwnWrite(d) && d.m == s.tx[k]
    ensures Inv(Hand(Dequeued(s, i, k), d))
  {
    OneMore(s.log.handed, d, s.log.dropped);
    DequeuedKeeps(s, i, k, s.log.(handed := s.log.handed + [d]));
  }

  lemma SwitchedWriteKeeps(s: State, i: nat, m: Packet, sent: bool)
    requires i < |s.polls| && s.polls[i].fd in s.db && m.fd == s.polls[i].fd
    requires Inv(Hand(s, SwitchedDelivery(m)))
    ensures Safe(SwitchedWrite(s, i, m, sent))
  {
    var s1 := Hand(s, SwitchedDelivery(m));
    var event := ZigSwitch.HandleEventWrite(s.db, i, m, sent);
    if sent {
      assert SwitchedWrite(s, i, m, sent) == Done(s1, event);
    } else {
      assert SwitchedWrite(s, i, m, sent) == TeardownThen(s1, m.fd, event);
      TeardownKeeps(s1, m.fd);
    }
  }

  lemma HandleWriteKeeps(s: State, i: nat, env: Env)
    requires Inv(s) && i < |s.polls| && HasFor(s.tx, s.polls[i].fd)
    ensures Safe(HandleWrite(s, i, env))
  {
    var fd := s.polls[i].fd;
    var k := FirstFor(s.tx, fd).value;
    var m := s.tx[k];
    if s.conns[i].t == SWITCHED {
      HandKeeps(s, i, k, SwitchedDelivery(m));
      SwitchedWriteKeeps(Dequeued(s, i, k), i, m, env.sent);
    } else {
      HandKeeps(s, i, k, PlainDelivery(fd, m));
    }
  }

  lemma {:induction false} DispatchKeeps(s: State, revents: seq<Revents>, i: nat, env: Env)
    requires Inv(s) && Answers(s.polls, revents) && i <= |s.polls|
    requires env.accepted.Some? ==> !IsTracked(s, env.accepted.value)
    ensures Safe(Dispatch(s, revents, i, env))
    decreases |s.polls| - i
  {
    if i == |s.polls| {
    } else {
      if !Handled(revents[i]) {
        DispatchKeeps(s, revents, i + 1, env);
      } else if revents[i].rd {
        HandleReadKeeps(s, i, env);
      } else if revents[i].wr {
        HandleWriteKeeps(s, i, env);
      } else if revents[i].hup {
        DisconnectKeeps(s, i);
      }
    }
  }

  // ----- runs -----

  /** What a program does with a context, and what happens around it. */
  datatype Action =
    | Queue(m: Packet)                        // schedule
    | OpenOutside(fd: Fd)                     // the program opens a descriptor by itself
    | CloseOutside(fd: Fd)                    // ... or closes one
    | ConnectTo(c: Connection, fd: Fd)        // server_init, connect_service: a new descriptor
    | AddExternal(fd: Fd)
    | Pair(a: Fd, b: Fd)                      // add_switch
    | NukeEntry(fd: Fd)                       // switchdb.nuke, called by the program
    | CloseIndex(i: nat)
    | CloseDescriptor(fd: Fd)
    | CloseEverything
    | WaitEvent(env: Env)

  predicate Shaped(s: State, a: Action) {
    a.WaitEvent? && a.env.poll.Some? ==> |a.env.poll.value| == |s.polls|
  }

  function Step(s: State, a: Action): Outcome<()>
    requires Shaped(s, a)
  {
    match a
    case Queue(m) => Done(Schedule(s, m), ())
    case OpenOutside(fd) => Done(s.(open := s.open + {fd}), ())
    case CloseOutside(fd) => Done(s.(open := s.open - {fd}), ())
    case ConnectTo(c, fd) => Done(Connect(s, c, fd), ())
    case AddExternal(fd) => Done(Track(s, Connection(EXTERNAL, None), fd), ())
    case Pair(a, b) => AddSwitch(s, a, b)
    case NukeEntry(fd) => Done(s.(db := Nuke(s.db, fd)), ())
    case CloseIndex(i) => Close(s, i)
    case CloseDescriptor(fd) => CloseFd(s, fd)
    case CloseEverything => CloseAll(s)
    case WaitEvent(env) => (
      match Wait(s, env)
      case Done(s', _) => Done(s', ())
      case Failed(s', e) => Failed(s', e)
      case Crash(f) => Crash(f))
  }

  ghost predicate IsSwitched(s: State, fd: Fd) {
    exists i :: 0 <= i < |s.polls| && s.polls[i].fd == fd && s.conns[i].t == SWITCHED
  }

  /** What the source leaves to the operating system and to its callers. New
      descriptors are not tracked yet; tracked descriptors are closed through
      the context; the table entries of tracked switched descriptors are not
      removed behind its back; poll answers as POSIX says. */
  ghost predicate Legal(s: State, a: Action) {
    match a
    case Queue(_) => true
    case OpenOutside(_) => true
    case CloseOutside(fd) => !IsTracked(s, fd)
    case ConnectTo(c, fd) => !IsTracked(s, fd) && (c.t == SWITCHED ==> fd in s.db)
    case AddExternal(fd) => !IsTracked(s, fd) && fd in s.open
    case Pair(_, _) => true
    case NukeEntry(fd) => fd in s.db ==> !IsSwitched(s, fd) && !IsSwitched(s, s.db[fd])
    case CloseIndex(_) => true
    case CloseDescriptor(_) => true
    case CloseEverything => true
    case WaitEvent(env) =>
      && (env.poll.Some? ==> Answers(Arm(s).polls, env.poll.value))
      && (env.accepted.Some? ==> !IsTracked(s, env.accepted.value))
  }

  lemma WaitKeeps(s: State, env: Env)
    requires Inv(s) && Legal(s, WaitEvent(env))
    ensures Safe(Wait(s, env))
  {
    ArmKeeps(s);
    if env.poll.Some? {
      forall fd | IsTracked(Arm(s), fd) ensures IsTracked(s, fd) {
        var i :| 0 <= i < |s.polls| && Arm(s).polls[i].fd == fd;
        assert s.polls[i].fd == fd;
      }
      DispatchKeeps(Arm(s), env.poll.value, 0, env);
    }
  }

  /** One legal action from a good state neither crashes nor breaks the invariant. */
  lemma StepKeeps(s: State, a: Action)
    requires Inv(s) && Legal(s, a)
    ensures Shaped(s, a) && Safe(Step(s, a))
  {
    match a
    case Queue(m) => ScheduleKeeps(s, m);
    case OpenOutside(_) =>
    case CloseOutside(_) =>
    case ConnectTo(c, fd) => ConnectKeeps(s, c, fd);
    case AddExternal(fd) => TrackKeeps(s, Connection(EXTERNAL, None), fd);
    case Pair(a, b) => AddSwitchKeeps(s, a, b);
    case NukeEntry(_) =>
    case CloseIndex(i) => CloseKeeps(s, i);
    case CloseDescriptor(fd) =>
      if IndexOf(s.polls, fd).Some? {
        CloseKeeps(s, IndexOf(s.polls, fd).value);
      }
    case CloseEverything => CloseAllKeeps(s);
    case WaitEvent(env) => WaitKeeps(s, env);
  }

  /** A run ends at a crash (or at an answer of poll of the wrong length); an
      error is reported to the program, which goes on. */
  function Run(s: State, actions: seq<Action>): Outcome<()>
    decreases |actions|
  {
    if actions == [] || !Shaped(s, actions[0]) then Done(s, ())
    else
      var o := Step(s, actions[0]);
      if o.Crash? then o else Run(o.s, actions[1..])
  }

  /** Each action is legal where it is taken. */
  ghost predicate LegalRun(s: State, actions: seq<Action>)
    decreases |actions|
  {
    actions == [] ||
    (Legal(s, actions[0]) && Shaped(s, actions[0]) &&
     (Step(s, actions[0]).Crash? || LegalRun(Step(s, actions[0]).s, actions[1..])))
  }

  lemma {:induction false} RunKeeps(s: State, actions: seq<Action>)
    requires Inv(s) && LegalRun(s, actions)
    ensures Run(s, actions).Done? && Inv(Run(s, actions).s)
    decreases |actions|
  {
    if actions == [] {
    } else {
      StepKeeps(s, actions[0]);
      RunKeeps(Step(s, actions[0]).s, actions[1..]);
    }
  }

  // ----- the table as a pairing -----

  /** add_switch does not take the partner of a third descriptor. */
  ghost predicate Polite(s: State, a: Action) {
    a.Pair? && IsTracked(s, a.a) && IsTracked(s, a.b) ==> PairFree(s.db, a.a, a.b)
  }

  lemma TableAfterTeardown(s: State, fd: Fd)
    requires fd in s.db
    ensures Teardown(s, fd).Done? ==> Teardown(s, fd).s.db == Nuke(s.db, fd)
  {
  }

  lemma {:induction false} TableAfterCloseAll(s: State)
    ensures !CloseAll(s).Crash? ==> CloseAll(s).s.db == s.db
    decreases |s.conns|
  {
    if |s.conns| > 0 && Close(s, 0).Done? {
      TableAfterCloseAll(Close(s, 0).s);
    }
  }

  /** Which tables one handled entry can leave. */
  lemma TableAfterHandle(s: State, r: Revents, i: nat, env: Env)
    requires i < |s.polls| && Handled(r) && !Handle(s, r, i, env).Crash?
    ensures Handle(s, r, i, env).s.db in {s.db, Nuke(s.db, s.polls[i].fd)}
  {
    var fd := s.polls[i].fd;
    if r.rd && s.conns[i].t == SWITCHED && fd in s.db {
      TableAfterTeardown(s, fd);
    } else if !r.rd && r.wr && fd in s.db && s.conns[i].t == SWITCHED {
      var k := FirstFor(s.tx, fd).value;
      var m := s.tx[k];
      TableAfterTeardown(Hand(Dequeued(s, i, k), SwitchedDelivery(m)), fd);
    }
  }

  lemma {:induction false} TableAfterDispatch(s: State, revents: seq<Revents>, i: nat, env: Env)
    requires |revents| == |s.polls| && i <= |s.polls| && !Dispatch(s, revents, i, env).Crash?
    ensures var db := Dispatch(s, revents, i, env).s.db;
            db == s.db || exists fd :: db == Nuke(s.db, fd)
    decreases |s.polls| - i
  {
    if i == |s.polls| {
    } else {
      if Handled(revents[i]) {
        TableAfterHandle(s, revents[i], i, env);
      } else {
        TableAfterDispatch(s, revents, i + 1, env);
      }
    }
  }

  /** Each action keeps the table a symmetric pairing exactly when it is polite. */
  lemma StepSymmetric(s: State, a: Action)
    requires Symmetric(s.db) && Shaped(s, a) && !Step(s, a).Crash?
    ensures Symmetric(Step(s, a).s.db) <==> Polite(s, a)
  {
    match a
    case Pair(x, y) => PutSymmetric(s.db, x, y);
    case NukeEntry(fd) =>
      if fd in s.db {
        NukePair(s.db, fd);
      }
    case CloseEverything => TableAfterCloseAll(s);
    case WaitEvent(env) =>
      if env.poll.Some? && exists i :: 0 <= i < |s.polls| && !Silent(env.poll.value[i]) {
        TableAfterDispatch(Arm(s), env.poll.value, 0, env);
        forall fd | fd in s.db ensures Symmetric(Nuke(s.db, fd)) {
          NukePair(s.db, fd);
        }
      }
    case _ =>
  }

  ghost predicate PoliteRun(s: State, actions: seq<Action>)
    requires LegalRun(s, actions)
    decreases |actions|
  {
    actions == [] ||
    (Polite(s, actions[0]) &&
     (Step(s, actions[0]).Crash? || PoliteRun(Step(s, actions[0]).s, actions[1..])))
  }

  /** Over every polite run the table stays a symmetric pairing. */
  lemma {:induction false} EveryPoliteRunIsPaired(s: State, actions: seq<Action>)
    requires Inv(s) && Symmetric(s.db)
    requires LegalRun(s, actions) && PoliteRun(s, actions)
    ensures Run(s, actions).Done? && Symmetric(Run(s, actions).s.db)
    decreases |actions|
  {
    if actions == [] {
    } else {
      StepKeeps(s, actions[0]);
      StepSymmetric(s, actions[0]);
      EveryPoliteRunIsPaired(Step(s, actions[0]).s, actions[1..]);
    }
  }
}
