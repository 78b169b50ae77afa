/** Whole runs of a Context: what every legal run guarantees, and that each
    obligation of Legal is needed for it. */
module ZigRuns {
  import opened Wrappers
  import opened SendQueue
  import opened ZigTypes
  import opened ZigState
  import opened ZigInvariant
  import opened ZigWait
  import opened ZigLog

  // ----- every run -----

  /** At each step of the run: no crash, no incoherent-switch error, the
      invariant, and a message is dropped only because its descriptor has been
      closed in that step. */
  ghost predicate EachStepSafe(s: State, actions: seq<Action>)
    decreases |actions|
  {
    actions != [] && Shaped(s, actions[0]) ==>
      var o := Step(s, actions[0]);
      Safe(o) && DropsOnlyClosed(s, o.s) && EachStepSafe(o.s, actions[1..])
  }

  lemma {:induction false} StepsAreSafe(s: State, actions: seq<Action>)
    requires Inv(s) && LegalRun(s, actions)
    ensures EachStepSafe(s, actions)
    decreases |actions|
  {
    if actions == [] {
    } else {
      StepKeeps(s, actions[0]);
      StepLogs(s, actions[0]);
      StepsAreSafe(Step(s, actions[0]).s, actions[1..]);
    }
  }

  /** From an empty context, over any legal run. */
  lemma EveryRunIsSafe(actions: seq<Action>)
    requires LegalRun(INITIAL, actions)
    ensures EachStepSafe(INITIAL, actions)
    ensures Run(INITIAL, actions).Done?
    ensures var s := Run(INITIAL, actions).s;
            && Distinct(s.polls) && TrackedOpen(s)
            && Conserved(s) && OwnWrites(s.log)
            && ArmedQueued(s) && SwitchedPaired(s, {})
  {
    StepsAreSafe(INITIAL, actions);
    RunKeeps(INITIAL, actions);
  }

  // ----- the obligations of the caller are exact -----

  /** Whatever the program goes on to do, as long as it is legal. */
  ghost predicate NeverCrashes(s: State) {
    forall actions :: LegalRun(s, actions) ==> !Run(s, actions).Crash?
  }

  lemma LegalFirst(s: State, actions: seq<Action>, s': State)
    requires actions != [] && Shaped(s, actions[0]) && Legal(s, actions[0])
    requires !Step(s, actions[0]).Crash? && Step(s, actions[0]).s == s'
    requires LegalRun(s', actions[1..])
    ensures LegalRun(s, actions) && Run(s, actions) == Run(s', actions[1..])
  {
  }

  /** Some legal continuation of s ends in the fault. */
  ghost predicate MayCrash(s: State, fault: Fault) {
    exists actions :: LegalRun(s, actions) && Run(s, actions) == Crash(fault)
  }

  lemma MayCrashFirst(s: State, a: Action, fault: Fault)
    requires Shaped(s, a) && Legal(s, a) && !Step(s, a).Crash? && MayCrash(Step(s, a).s, fault)
    ensures MayCrash(s, fault)
  {
    var rest :| LegalRun(Step(s, a).s, rest) && Run(Step(s, a).s, rest) == Crash(fault);
    assert ([a] + rest)[1..] == rest;
    LegalFirst(s, [a] + rest, Step(s, a).s);
  }

  lemma CrashesAt(s: State, a: Action, fault: Fault)
    requires Shaped(s, a) && Legal(s, a) && Step(s, a) == Crash(fault)
    ensures MayCrash(s, fault)
  {
    assert LegalRun(s, [a]) && Run(s, [a]) == Crash(fault);
  }

  lemma MayCrashOnce(s: State, fault: Fault)
    requires MayCrash(s, fault)
    ensures !NeverCrashes(s)
  {
  }

  lemma GoodNeverCrashes(s: State)
    requires Inv(s)
    ensures NeverCrashes(s)
  {
    forall actions | LegalRun(s, actions) ensures !Run(s, actions).Crash? {
      RunKeeps(s, actions);
    }
  }

  /** A tracked descriptor that is closed, or that has two slots: closing it
      twice is closing a descriptor that is not open. */
  ghost predicate ClosedOrTwice(s: State, fd: Fd) {
    && IsTracked(s, fd)
    && (fd in s.open ==> exists i, j :: 0 <= i < j < |s.polls| && s.polls[i].fd == s.polls[j].fd == fd)
  }

  lemma ClosingTwiceCrashes(s: State, fd: Fd)
    requires ClosedOrTwice(s, fd)
    ensures MayCrash(s, CloseOfClosedFd)
  {
    var a := CloseDescriptor(fd);
    var k := IndexOf(s.polls, fd).value;
    if fd in s.open {
      var i, j :| 0 <= i < j < |s.polls| && s.polls[i].fd == s.polls[j].fd == fd;
      var s' := Removed(s, k);
      assert s'.polls[if i != k then (if i == |s'.polls| then k else i) else if j == |s'.polls| then k else j].fd == fd;
      CrashesAt(s', a, CloseOfClosedFd);
      MayCrashFirst(s, a, CloseOfClosedFd);
    } else {
      CrashesAt(s, a, CloseOfClosedFd);
    }
  }

  /** One entry reports r and the others nothing. */
  function Only(n: nat, i: nat, r: Revents): (revents: seq<Revents>)
    requires i < n && Handled(r)
    ensures |revents| == n && FirstHandled(revents) == Some(i)
    ensures revents[i] == r && forall k :: 0 <= k < n && k != i ==> revents[k] == IDLE
  {
    var revents := seq(n, k => if k == i then r else IDLE);
    assert Handled(revents[i]);
    revents
  }

  /** A wait in which only slot i, of n, reports something. */
  function Ready(n: nat, i: nat, r: Revents, recv: Recv): (a: Action)
    requires i < n && Handled(r)
    ensures a.WaitEvent?
  {
    WaitEvent(Env(Some(Only(n, i, r)), false, recv, true, None))
  }

  lemma ReadyIsLegal(s: State, i: nat, r: Revents, recv: Recv)
    requires i < |s.polls| && Handled(r)
    requires r.wr ==> HasFor(s.tx, s.polls[i].fd)
    ensures Legal(s, Ready(|s.polls|, i, r, recv))
    ensures Decides(s, Ready(|s.polls|, i, r, recv).env, i, r)
  {
  }

  /** A switched connection without an entry in the table. */
  ghost predicate Partnerless(s: State, i: nat) {
    i < |s.polls| && s.conns[i].t == SWITCHED && s.polls[i].fd !in s.db
  }

  lemma PartnerlessUnwrapsNull(s: State, i: nat)
    requires Partnerless(s, i)
    ensures MayCrash(s, NullUnwrap)
  {
    var a := Ready(|s.polls|, i, READABLE, RecvError);
    ReadyIsLegal(s, i, READABLE, RecvError);
    DecidedBy(s, a.env, i, READABLE);
    CrashesAt(s, a, NullUnwrap);
  }

  lemma TrackingTwiceCrashes(s: State, c: Connection, fd: Fd)
    requires IsTracked(s, fd)
    ensures MayCrash(Track(s, c, fd), CloseOfClosedFd)
  {
    var s' := Track(s, c, fd);
    var i :| 0 <= i < |s.polls| && s.polls[i].fd == fd;
    assert s'.polls[i].fd == s'.polls[|s.polls|].fd == fd;
    ClosingTwiceCrashes(s', fd);
  }

  /** What an illegal action other than a wait leaves behind. */
  lemma IllegalCrashesLater(s: State, a: Action)
    requires Inv(s) && !a.WaitEvent? && !Legal(s, a)
    ensures !Step(s, a).Crash?
    ensures MayCrash(Step(s, a).s,
                     if a.NukeEntry? || (a.ConnectTo? && !IsTracked(s, a.fd)) then NullUnwrap else CloseOfClosedFd)
  {
    var s' := Step(s, a).s;
    match a
    case CloseOutside(fd) =>
      var i :| 0 <= i < |s.polls| && s.polls[i].fd == fd;
      assert s'.polls[i].fd == fd;
      ClosingTwiceCrashes(s', fd);
    case ConnectTo(c, fd) =>
      if IsTracked(s, fd) {
        TrackingTwiceCrashes(s.(open := s.open + {fd}), c, fd);
      } else {
        PartnerlessUnwrapsNull(s', |s.polls|);
      }
    case AddExternal(fd) =>
      if IsTracked(s, fd) {
        TrackingTwiceCrashes(s, Connection(EXTERNAL, None), fd);
      } else {
        assert s'.polls[|s.polls|].fd == fd;
        ClosingTwiceCrashes(s', fd);
      }
    case NukeEntry(fd) =>
      var end := if IsSwitched(s, fd) then fd else s.db[fd];
      var i :| 0 <= i < |s.polls| && s.polls[i].fd == end && s.conns[i].t == SWITCHED;
      PartnerlessUnwrapsNull(s', i);
  }

  /** The obligations left to callers are exact: an action is legal if and only
      if no legal continuation crashes. */
  lemma LegalIsExact(s: State, a: Action)
    requires Inv(s) && !a.WaitEvent?
    ensures Legal(s, a) <==> !Step(s, a).Crash? && NeverCrashes(Step(s, a).s)
  {
    if Legal(s, a) {
      StepKeeps(s, a);
      GoodNeverCrashes(Step(s, a).s);
    } else {
      IllegalCrashesLater(s, a);
      MayCrashOnce(Step(s, a).s,
                   if a.NukeEntry? || (a.ConnectTo? && !IsTracked(s, a.fd)) then NullUnwrap else CloseOfClosedFd);
    }
  }

  // ----- the obligations of the operating system are exact -----

  /** What the entry that decides a wait must be able to rely on: accept gives a
      descriptor that is not tracked, and POLLOUT is reported only where a
      message waits. */
  ghost predicate Answerable(s: State, revents: seq<Revents>, env: Env)
    requires |revents| == |s.polls|
  {
    match FirstHandled(revents)
    case None => true
    case Some(i) =>
      if revents[i].rd then Accepts(s, i, env) ==> !IsTracked(s, env.accepted.value)
      else revents[i].wr ==> HasFor(s.tx, s.polls[i].fd)
  }

  lemma AnswerableIsSafe(s: State, revents: seq<Revents>, env: Env)
    requires Inv(s) && env.poll == Some(revents) && |revents| == |s.polls| && Answerable(s, revents, env)
    ensures Safe(Wait(s, env))
  {
    ArmKeeps(s);
    SameTracked(s);
    WaitIsFirst(s, env);
    var first := FirstHandled(revents);
    if first.Some? {
      var i, r := first.value, revents[first.value];
      if r.rd {
        HandleReadKeeps(Arm(s), i, env);
      } else if r.wr {
        HandleWriteKeeps(Arm(s), i, env);
      } else if r.hup {
        DisconnectKeeps(Arm(s), i);
      }
    }
  }

  /** A wait is safe now and later if and only if the entry that decides it is
      answerable. */
  lemma AnswerableIsExact(s: State, revents: seq<Revents>, env: Env)
    requires Inv(s) && env.poll == Some(revents) && |revents| == |s.polls|
    ensures Answerable(s, revents, env) <==> !Wait(s, env).Crash? && NeverCrashes(Wait(s, env).s)
  {
    if Answerable(s, revents, env) {
      AnswerableIsSafe(s, revents, env);
      GoodNeverCrashes(Wait(s, env).s);
    } else {
      WaitIsFirst(s, env);
      var i := FirstHandled(revents).value;
      if revents[i].rd {
        var client := env.accepted.value;
        ArmedTracked(s, client);
        TrackingTwiceCrashes(Arm(s).(open := s.open + {client}), Connection(IPC, None), client);
        MayCrashOnce(Wait(s, env).s, CloseOfClosedFd);
      }
    }
  }

  lemma ArmedTracked(s: State, fd: Fd)
    requires IsTracked(s, fd)
    ensures IsTracked(Arm(s), fd)
  {
    var i :| 0 <= i < |s.polls| && s.polls[i].fd == fd;
    assert Arm(s).polls[i].fd == fd;
  }
}
