/** Whole runs of a C context: when its descriptors stay distinct, and what
    becomes of every message. */
module CRuns {
  import opened Wrappers
  import opened SendQueue
  import opened CSwitch
  import opened CState
  import opened CInvariant
  import opened CNet
  import opened SlotMap

  // ----- distinct descriptors -----

  /** The descriptor that gets an entry: one the program adds, the client that
      has been accepted, or -1 when accept has failed. */
  function Newcomer(s: State, a: Action): Option<Fd>
    requires Shaped(s, a)
  {
    match a
    case AddEntry(_, p) => Some(p.fd)
    case WaitEvent(timer, env) => (
      match Wait(s, timer, env).1
      case Connected(_) => env.accepted
      case AcceptFailed(_) => Some(-1)
      case _ => None)
    case _ => None
  }

  ghost predicate NewcomerIsNew(s: State, a: Action)
    requires Shaped(s, a)
  {
    Newcomer(s, a).Some? ==> !IsTracked(s.polls, Newcomer(s, a).value)
  }

  lemma AppendDistinct(keys: seq<Fd>, fd: Fd)
    requires Distinct(keys)
    ensures Distinct(keys + [fd]) <==> fd !in keys
  {
    var keys' := keys + [fd];
    if fd in keys {
      var i :| 0 <= i < |keys| && keys[i] == fd;
      assert keys'[i] == keys'[|keys|];
    }
  }

  /** Each action keeps the descriptors distinct exactly when the one that joins,
      if any, is not tracked yet. */
  lemma StepDistinct(s: State, a: Action)
    requires Distinct(Keys(s)) && Shaped(s, a)
    ensures Distinct(Keys(Step(s, a))) <==> NewcomerIsNew(s, a)
  {
    match a
    case AddEntry(info, p) => Joins(s, Step(s, a), p.fd);
    case DelIndex(i) =>
      DelLoses(s, i);
      LeavesDistinct(s, Del(s, i), multiset{s.polls[i].fd});
    case DelDescriptor(fd) =>
      DelFdLoses(s, fd);
      LeavesDistinct(s, DelFd(s, fd), multiset{fd});
    case WaitEvent(timer, env) => WaitDistinct(s, timer, env);
    case _ => assert Keys(Step(s, a)) == Keys(s);
  }

  lemma LeavesDistinct(s: State, s': State, gone: multiset<Fd>)
    requires Distinct(Keys(s)) && LostTypes(s, s', gone)
    ensures Distinct(Keys(s'))
  {
    DistinctCounts(Keys(s));
    DistinctCounts(Keys(s'));
  }

  lemma Joins(s: State, s': State, fd: Fd)
    requires Distinct(Keys(s)) && |s'.polls| == |s.polls| + 1 && s'.polls[|s.polls|].fd == fd
    requires forall k :: 0 <= k < |s.polls| ==> s'.polls[k].fd == s.polls[k].fd
    ensures Distinct(Keys(s')) <==> !IsTracked(s.polls, fd)
  {
    assert Keys(s') == Keys(s) + [fd];
    AppendDistinct(Keys(s), fd);
    TrackedKeys(s, fd);
  }

  lemma WaitDistinct(s: State, timer: int, env: Env)
    requires Distinct(Keys(s)) && (env.poll.Some? ==> |env.poll.value| == |s.polls|)
    ensures Distinct(Keys(Wait(s, timer, env).0)) <==> NewcomerIsNew(s, WaitEvent(timer, env))
  {
    var (s', reply) := Wait(s, timer, env);
    assert EntriesAfter(s, env, s', reply) by { WaitRefines(s, timer, env); }
    var newcomer := Newcomer(s, WaitEvent(timer, env));
    if newcomer.Some? {
      assert Keys(s') == Keys(s) + [newcomer.value];
      AppendDistinct(Keys(s), newcomer.value);
      TrackedKeys(s, newcomer.value);
    } else {
      LeavesDistinct(s, s', Leaving(s.pairs, reply));
    }
  }

  ghost predicate DistinctThroughout(s: State, actions: seq<Action>)
    requires ShapedRun(s, actions)
    decreases |actions|
  {
    Distinct(Keys(s)) && (actions != [] ==> DistinctThroughout(Step(s, actions[0]), actions[1..]))
  }

  ghost predicate NewcomersAreNew(s: State, actions: seq<Action>)
    requires ShapedRun(s, actions)
    decreases |actions|
  {
    actions != [] ==> NewcomerIsNew(s, actions[0]) && NewcomersAreNew(Step(s, actions[0]), actions[1..])
  }

  /** Over every run the arrays represent one map throughout if and only if they
      do at first and nothing joins that is tracked already. */
  lemma {:induction false} DistinctRuns(s: State, actions: seq<Action>)
    requires ShapedRun(s, actions)
    ensures DistinctThroughout(s, actions) <==> Distinct(Keys(s)) && NewcomersAreNew(s, actions)
    decreases |actions|
  {
    if actions == [] {
    } else if Distinct(Keys(s)) {
      StepDistinct(s, actions[0]);
      DistinctRuns(Step(s, actions[0]), actions[1..]);
    }
  }

  // ----- what becomes of a message -----

  /** poll answers as POSIX says. */
  ghost predicate Posix(s: State, a: Action) {
    && Shaped(s, a)
    && (a.WaitEvent? && a.env.poll.Some? ==> Answers(Arm(s).polls, a.env.poll.value))
  }

  ghost predicate PosixRun(s: State, actions: seq<Action>)
    decreases |actions|
  {
    actions == [] || (Posix(s, actions[0]) && PosixRun(Step(s, actions[0]), actions[1..]))
  }

  /** How often m joins the queue. */
  ghost function QueuedBy(s: State, a: Action, m: Queued): nat
    requires Shaped(s, a)
  {
    match a
    case QueueMessage(x) => if x == m && IsTracked(s.polls, m.fd) then 1 else 0
    case WaitEvent(timer, env) => (
      match Wait(s, timer, env).1
      case Forwarded(i) =>
        if i < |s.polls| && env.recv.Arrived? && m == Message(PartnerOf(s.pairs, s.polls[i].fd), env.recv.id)
           && IsTracked(s.polls, m.fd)
        then 1 else 0
      case _ => 0)
    case _ => 0
  }

  ghost predicate IsFirst(tx: seq<Queued>, fd: Fd, m: Queued) {
    FirstFor(tx, fd).Some? && tx[FirstFor(tx, fd).value] == m
  }

  /** How often m is given to a write, whatever the write answers: only as the
      first message for the descriptor that is written to. */
  ghost function HandedBy(s: State, a: Action, m: Queued): nat
    requires Shaped(s, a)
  {
    match a
    case WaitEvent(timer, env) => (
      match Wait(s, timer, env).1
      case Sent(i) => if i < |s.polls| && IsFirst(s.tx, s.polls[i].fd, m) then 1 else 0
      case SwitchWriteClosed(fd) => if IsFirst(s.tx, fd, m) then 1 else 0
      case _ => 0)
    case _ => 0
  }

  /** The descriptors that are closed or lose an entry. */
  ghost function ClosedBy(s: State, a: Action): set<Fd>
    requires Shaped(s, a)
  {
    match a
    case DelIndex(i) => {s.polls[i].fd}
    case CloseIndex(i) => {s.polls[i].fd}
    case DelDescriptor(fd) => {fd}
    case CloseAll => set fd | fd in Keys(s)
    case WaitEvent(timer, env) => (
      match Wait(s, timer, env).1
      case HungUp(i) => if i < |s.polls| then {s.polls[i].fd} else {}
      case reply => Ends(s.pairs, reply))
    case _ => {}
  }

  /** Copies of m that are lost: all those not written, for these descriptors. */
  ghost function DroppedBy(s: State, a: Action, m: Queued): int
    requires Shaped(s, a)
  {
    if m.fd in ClosedBy(s, a) then multiset(s.tx)[m] - HandedBy(s, a, m) else 0
  }

  lemma WaitConserves(s: State, timer: int, env: Env, m: Queued)
    requires Good(s) && Posix(s, WaitEvent(timer, env))
    ensures var a := WaitEvent(timer, env);
            && DroppedBy(s, a, m) >= 0
            && multiset(s.tx)[m] + QueuedBy(s, a, m)
               == multiset(Wait(s, timer, env).0.tx)[m] + HandedBy(s, a, m) + DroppedBy(s, a, m)
  {
    ScansStayInside(s, timer, env);
    var (s', reply) := Wait(s, timer, env);
    FirstIsQueued(s.tx, m);
  }

  lemma FirstIsQueued(tx: seq<Queued>, m: Queued)
    ensures forall fd :: IsFirst(tx, fd, m) ==> m.fd == fd && multiset(tx)[m] >= 1
  {
  }

  /** No action loses a message but by closing or deleting its descriptor. */
  lemma StepConserves(s: State, a: Action, m: Queued)
    requires Good(s) && Posix(s, a)
    ensures DroppedBy(s, a, m) >= 0
    ensures multiset(s.tx)[m] + QueuedBy(s, a, m)
            == multiset(Step(s, a).tx)[m] + HandedBy(s, a, m) + DroppedBy(s, a, m)
  {
    match a
    case DelIndex(i) => DelQueue(s, i);
    case DelDescriptor(fd) => DelFdQueue(s, fd);
    case CloseIndex(i) => PurgeExact(s.tx, s.polls[i].fd);
    case CloseAll => CloseAllConserves(s, m);
    case WaitEvent(timer, env) => WaitConserves(s, timer, env, m);
    case _ =>
  }

  lemma CloseAllConserves(s: State, m: Queued)
    requires Good(s)
    ensures CloseFrom(s, 0).tx == [] && DroppedBy(s, CloseAll, m) == multiset(s.tx)[m]
  {
    CloseAllEmptiesQueue(s);
    QueuedKeys(s, m);
  }

  lemma DelQueue(s: State, i: nat)
    requires Good(s) && i < |s.polls|
    ensures Without(multiset(s.tx), multiset(Del(s, i).tx), s.polls[i].fd)
  {
    CNet.DelRefines(s, i);
  }

  lemma QueuedKeys(s: State, m: Queued)
    requires Good(s)
    ensures multiset(s.tx)[m] > 0 ==> m.fd in Keys(s)
  {
    if m in s.tx {
      var k :| 0 <= k < |s.tx| && s.tx[k] == m;
      assert IsTracked(s.polls, s.tx[k].fd);
      TrackedKeys(s, m.fd);
    }
  }

  ghost function QueuedIn(s: State, actions: seq<Action>, m: Queued): nat
    requires PosixRun(s, actions)
    decreases |actions|
  {
    if actions == [] then 0 else QueuedBy(s, actions[0], m) + QueuedIn(Step(s, actions[0]), actions[1..], m)
  }

  ghost function HandedIn(s: State, actions: seq<Action>, m: Queued): nat
    requires PosixRun(s, actions)
    decreases |actions|
  {
    if actions == [] then 0 else HandedBy(s, actions[0], m) + HandedIn(Step(s, actions[0]), actions[1..], m)
  }

  ghost function DroppedIn(s: State, actions: seq<Action>, m: Queued): int
    requires PosixRun(s, actions)
    decreases |actions|
  {
    if actions == [] then 0 else DroppedBy(s, actions[0], m) + DroppedIn(Step(s, actions[0]), actions[1..], m)
  }

  /** Over every run: every copy of a message that has ever been queued is still
      queued, has been given to one write on its own descriptor, or was dropped
      by an action that closed or deleted that descriptor. */
  lemma {:induction false} EveryRunConserves(s: State, actions: seq<Action>, m: Queued)
    requires Good(s) && PosixRun(s, actions)
    ensures ShapedRun(s, actions) && DroppedIn(s, actions, m) >= 0
    ensures multiset(s.tx)[m] + QueuedIn(s, actions, m)
            == multiset(Run(s, actions).tx)[m] + HandedIn(s, actions, m) + DroppedIn(s, actions, m)
    decreases |actions|
  {
    if actions == [] {
    } else {
      StepKeeps(s, actions[0]);
      StepConserves(s, actions[0], m);
      EveryRunConserves(Step(s, actions[0]), actions[1..], m);
    }
  }
}
