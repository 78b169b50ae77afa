/** What the C context keeps, and where its unbounded scans stop. */
module CInvariant {
  import opened Wrappers
  import opened SendQueue
  import opened CSwitch
  import opened CState

  // ----- queued messages are for tracked descriptors -----

  lemma TrackedAfter(polls: seq<PollFd>, polls': seq<PollFd>, fd: Fd)
    requires |polls'| >= |polls| && forall k :: 0 <= k < |polls| ==> polls'[k].fd == polls[k].fd
    ensures IsTracked(polls, fd) ==> IsTracked(polls', fd)
  {
  }

  ghost predicate Good(s: State) {
    QueuedTracked(s.polls, s.tx)
  }

  lemma PurgeKeepsMembers(tx: seq<Queued>, fd: Fd, k: nat)
    requires k < |Purge(tx, fd)|
    ensures Purge(tx, fd)[k] in tx && Purge(tx, fd)[k].fd != fd
  {
    PurgeExact(tx, fd);
    var m := Purge(tx, fd)[k];
    assert multiset(Purge(tx, fd))[m] > 0;
    assert multiset(tx)[m] > 0;
  }

  /** The purge of the last entry empties the queue: ipc_ctx_free, which frees
      the messages without resetting their count, never finds one. */
  lemma LastDelEmptiesQueue(s: State)
    requires Good(s) && |s.polls| == 1
    ensures Purge(s.tx, s.polls[0].fd) == []
  {
    var r := Purge(s.tx, s.polls[0].fd);
    forall m | m in s.tx ensures m.fd == s.polls[0].fd {
      var k :| 0 <= k < |s.tx| && s.tx[k] == m;
      assert IsTracked(s.polls, s.tx[k].fd);
    }
    if r != [] {
      PurgeKeepsMembers(s.tx, s.polls[0].fd, 0);
    }
  }

  lemma DelKeeps(s: State, i: nat)
    requires Good(s) && i < |s.polls|
    ensures Good(Del(s, i))
  {
    var s' := Del(s, i);
    if |s.polls| > 1 {
      forall k | 0 <= k < |s'.tx| ensures IsTracked(s'.polls, s'.tx[k].fd) {
        PurgeKeepsMembers(s.tx, s.polls[i].fd, k);
        var h :| 0 <= h < |s.tx| && s.tx[h] == s'.tx[k];
        assert IsTracked(s.polls, s.tx[h].fd);
        var j :| 0 <= j < |s.polls| && s.polls[j].fd == s.tx[h].fd;
        assert s'.polls[if j == |s'.polls| then i else j].fd == s'.tx[k].fd;
      }
    }
  }

  lemma DelFdKeeps(s: State, fd: Fd)
    requires Good(s)
    ensures Good(DelFd(s, fd))
  {
    var i := IndexFrom(s.polls, fd, 0);
    if i.Some? {
      DelKeeps(s, i.value);
    }
  }

  lemma FewerMessagesKeep(s: State, s': State)
    requires Good(s) && forall k :: 0 <= k < |s'.tx| ==> s'.tx[k] in s.tx
    requires |s'.polls| == |s.polls| && forall k :: 0 <= k < |s.polls| ==> s'.polls[k].fd == s.polls[k].fd
    ensures Good(s')
  {
  }

  lemma WriteKeeps(s: State, m: Queued)
    requires Good(s)
    ensures Good(Write(s, m))
  {
    var s' := Write(s, m);
    forall k | 0 <= k < |s'.tx| ensures IsTracked(s'.polls, s'.tx[k].fd) {
      TrackedAfter(s.polls, s'.polls, s'.tx[k].fd);
    }
  }

  lemma CloseKeeps(s: State, i: nat)
    requires Good(s) && i < |s.polls|
    ensures Good(Close(s, i))
  {
    forall k | 0 <= k < |Close(s, i).tx| ensures Close(s, i).tx[k] in s.tx {
      PurgeKeepsMembers(s.tx, s.polls[i].fd, k);
    }
    FewerMessagesKeep(s, Close(s, i));
  }

  lemma {:induction false} CloseFromKeeps(s: State, i: nat)
    requires Good(s) && i <= |s.polls|
    ensures Good(CloseFrom(s, i))
    decreases |s.polls| - i
  {
    if i == |s.polls| {
    } else {
      CloseKeeps(s, i);
      CloseFromKeeps(Close(s, i), i + 1);
    }
  }

  lemma AcceptKeeps(s: State, i: nat, accepted: Option<Fd>)
    requires Good(s) && i < |s.polls|
    ensures Good(Accept(s, i, accepted).0)
  {
    var s' := Accept(s, i, accepted).0;
    forall k | 0 <= k < |s.tx| ensures IsTracked(s'.polls, s.tx[k].fd) {
      TrackedAfter(s.polls, s'.polls, s.tx[k].fd);
    }
  }

  lemma TwoDelsKeep(s: State, x: Fd, y: Fd)
    requires Good(s)
    ensures Good(DelFd(DelFd(s, x), y))
  {
    DelFdKeeps(s, x);
    DelFdKeeps(DelFd(s, x), y);
  }

  lemma DropPairKeeps(s: State, fd: Fd)
    requires Good(s)
    ensures Good(DropPair(s, fd))
  {
    var s1 := s.(pairs := PairsWithout(s.pairs, fd));
    TwoDelsKeep(s1, PartnerOf(s.pairs, fd), fd);
    DelFdKeeps(s1, fd);
  }

  lemma SwitchedReadKeeps(s: State, i: nat, recv: Recv)
    requires Good(s) && i < |s.polls|
    ensures Good(SwitchedRead(s, i, recv).0)
  {
    var fd := s.polls[i].fd;
    var at := FirstPair(s.pairs, fd);
    if at.Some? {
      if recv.Arrived? {
        WriteKeeps(s, Message(s.pairs[at.value].Other(fd), recv.id));
      } else {
        TwoDelsKeep(s, s.pairs[at.value].dest, fd);
      }
    }
  }

  lemma HandleReadableKeeps(s: State, i: nat, env: Env)
    requires Good(s) && i < |s.polls|
    ensures Good(HandleReadable(s, i, env).0)
  {
    match s.infos[i].t
    case SERVER => AcceptKeeps(s, i, env.accepted);
    case SWITCHED => SwitchedReadKeeps(s, i, env.recv);
    case EXTERNAL =>
    case IPC => DelKeeps(s, i);
  }

  lemma HandleWritableKeeps(s: State, i: nat, written: bool)
    requires Good(s) && i < |s.polls|
    ensures Good(HandleWritable(s, i, written).0)
  {
    var scan := ScanFor(s.tx, s.polls[i].fd);
    if !scan.PastTheEnd? {
      FewerMessagesKeep(s, Unqueued(s, scan));
      DropPairKeeps(Unqueued(s, scan), s.polls[i].fd);
    }
  }

  lemma HandleKeeps(s: State, r: Revents, i: nat, env: Env)
    requires Good(s) && i < |s.polls|
    ensures Good(Handle(s, r, i, env).0)
  {
    if r.rd || s.infos[i].moreToRead {
      var read := s.(infos := s.infos[i := s.infos[i].(moreToRead := false)]);
      FewerMessagesKeep(s, read);
      HandleReadableKeeps(read, i, env);
    } else if r.wr {
      var unarmed := s.(polls := s.polls[i := s.polls[i].(wr := false)]);
      FewerMessagesKeep(s, unarmed);
      HandleWritableKeeps(unarmed, i, env.written);
    } else if r.hup {
      CloseKeeps(s, i);
    }
  }

  lemma WaitKeeps(s: State, timer: int, env: Env)
    requires Good(s) && (env.poll.Some? ==> |env.poll.value| == |s.polls|)
    ensures Good(Wait(s, timer, env).0)
  {
    var armed := Arm(s);
    FewerMessagesKeep(s, armed);
    if env.poll.Some? {
      match FirstReady(armed, env.poll.value, 0)
      case None =>
      case Some(i) => HandleKeeps(armed, env.poll.value[i], i, env);
    }
  }

  // ----- runs -----

  datatype Action =
    | OpenOutside(fd: Fd)
    | CloseOutside(fd: Fd)
    | AddEntry(info: Info, p: PollFd)
    | DelIndex(i: nat)
    | DelDescriptor(fd: Fd)
    | QueueMessage(m: Queued)
    | AddPair(orig: Fd, dest: Fd)
    | DelPair(fd: Fd)
    | CloseIndex(i: nat)
    | CloseAll
    | WaitEvent(timer: int, env: Env)

  predicate Shaped(s: State, a: Action) {
    && (a.DelIndex? || a.CloseIndex? ==> a.i < |s.polls|)
    && (a.WaitEvent? && a.env.poll.Some? ==> |a.env.poll.value| == |s.polls|)
  }

  function Step(s: State, a: Action): State
    requires Shaped(s, a)
  {
    match a
    case OpenOutside(fd) => s.(open := s.open + {fd})
    case CloseOutside(fd) => s.(open := s.open - {fd})
    case AddEntry(info, p) => Add(s, info, p)
    case DelIndex(i) => Del(s, i)
    case DelDescriptor(fd) => DelFd(s, fd)
    case QueueMessage(m) => Write(s, m)
    case AddPair(orig, dest) => s.(pairs := s.pairs + [Pair(orig, dest)])
    case DelPair(fd) => s.(pairs := PairsWithout(s.pairs, fd))
    case CloseIndex(i) => Close(s, i)
    case CloseAll => CloseFrom(s, 0)
    case WaitEvent(timer, env) => Wait(s, timer, env).0
  }

  ghost predicate ShapedRun(s: State, actions: seq<Action>)
    decreases |actions|
  {
    actions == [] || (Shaped(s, actions[0]) && ShapedRun(Step(s, actions[0]), actions[1..]))
  }

  ghost function Run(s: State, actions: seq<Action>): State
    requires ShapedRun(s, actions)
    decreases |actions|
  {
    if actions == [] then s else Run(Step(s, actions[0]), actions[1..])
  }

  lemma StepKeeps(s: State, a: Action)
    requires Good(s) && Shaped(s, a)
    ensures Good(Step(s, a))
  {
    match a
    case OpenOutside(_) =>
    case CloseOutside(_) =>
    case AddEntry(info, p) =>
      forall k | 0 <= k < |s.tx| ensures IsTracked(Add(s, info, p).polls, s.tx[k].fd) {
        TrackedAfter(s.polls, Add(s, info, p).polls, s.tx[k].fd);
      }
    case DelIndex(i) => DelKeeps(s, i);
    case DelDescriptor(fd) => DelFdKeeps(s, fd);
    case QueueMessage(m) => WriteKeeps(s, m);
    case AddPair(_, _) =>
    case DelPair(_) =>
    case CloseIndex(i) => CloseKeeps(s, i);
    case CloseAll => CloseFromKeeps(s, 0);
    case WaitEvent(timer, env) => WaitKeeps(s, timer, env);
  }

  /** Over every run, even one that tracks a descriptor twice: whatever is queued
      is for a tracked descriptor, so an empty context has an empty queue. */
  lemma {:induction false} EveryRunKeepsQueueTracked(s: State, actions: seq<Action>)
    requires Good(s) && ShapedRun(s, actions)
    ensures Good(Run(s, actions))
    ensures Run(s, actions).polls == [] ==> Run(s, actions).tx == []
    decreases |actions|
  {
    if actions == [] {
      assert s.tx != [] ==> IsTracked(s.polls, s.tx[0].fd);
    } else {
      StepKeeps(s, actions[0]);
      EveryRunKeepsQueueTracked(Step(s, actions[0]), actions[1..]);
    }
  }

  /** ipc_close_all leaves every entry in place and no message, and closes every
      descriptor that has an entry other than an external one. */
  lemma CloseAllEmptiesQueue(s: State)
    requires Good(s)
    ensures CloseFrom(s, 0).tx == [] && CloseFrom(s, 0).polls == s.polls && CloseFrom(s, 0).infos == s.infos
    ensures forall fd :: fd in CloseFrom(s, 0).open <==>
              fd in s.open && forall k :: 0 <= k < |s.polls| && s.polls[k].fd == fd ==> s.infos[k].t == EXTERNAL
  {
    CloseFromKeeps(s, 0);
    CloseFromPurges(s, 0);
    CloseFromCloses(s, 0);
    var s' := CloseFrom(s, 0);
    assert s'.tx != [] ==> IsTracked(s'.polls, s'.tx[0].fd) && HasFor(s'.tx, s'.tx[0].fd);
  }

  lemma {:induction false} CloseFromCloses(s: State, i: nat)
    requires i <= |s.polls|
    ensures forall fd :: fd in CloseFrom(s, i).open <==>
              fd in s.open && forall k :: i <= k < |s.polls| && s.polls[k].fd == fd ==> s.infos[k].t == EXTERNAL
    decreases |s.polls| - i
  {
    if i == |s.polls| {
    } else {
      CloseFromCloses(Close(s, i), i + 1);
    }
  }

  lemma {:induction false} CloseFromPurges(s: State, i: nat)
    requires i <= |s.polls|
    ensures forall fd :: HasFor(CloseFrom(s, i).tx, fd) ==> HasFor(s.tx, fd)
    ensures forall k :: i <= k < |s.polls| ==> !HasFor(CloseFrom(s, i).tx, s.polls[k].fd)
    decreases |s.polls| - i
  {
    if i == |s.polls| {
    } else {
      PurgeExact(s.tx, s.polls[i].fd);
      CloseFromPurges(Close(s, i), i + 1);
    }
  }

  // ----- what leaves the queue with a descriptor -----

  /** Deleting through the descriptor: it has no message left, whether it was
      tracked or not. */
  lemma DelFdQueue(s: State, fd: Fd)
    requires Good(s)
    ensures Good(DelFd(s, fd)) && Without(multiset(s.tx), multiset(DelFd(s, fd).tx), fd)
  {
    DelFdKeeps(s, fd);
    var i := IndexFrom(s.polls, fd, 0);
    if i.Some? {
      PurgeExact(s.tx, fd);
      if |s.polls| == 1 {
        LastDelEmptiesQueue(s);
      }
    } else {
      forall k | 0 <= k < |s.tx| ensures s.tx[k].fd != fd {
        assert IsTracked(s.polls, s.tx[k].fd);
      }
      NothingFor(s.tx, fd);
    }
  }

  lemma NothingFor(tx: seq<Queued>, fd: Fd)
    requires forall k :: 0 <= k < |tx| ==> tx[k].fd != fd
    ensures Without(multiset(tx), multiset(tx), fd)
  {
  }

  ghost predicate WithoutAll(before: seq<Queued>, after: seq<Queued>, gone: set<Fd>) {
    forall m: Queued :: multiset(after)[m] == if m.fd in gone then 0 else multiset(before)[m]
  }

  lemma TwoDelsQueue(s: State, x: Fd, y: Fd)
    requires Good(s)
    ensures var s' := DelFd(DelFd(s, x), y);
            WithoutAll(s.tx, s'.tx, {x, y})
  {
    DelFdQueue(s, x);
    DelFdQueue(DelFd(s, x), y);
  }

  /** The descriptors that leave the context, by the answer of a wait. After a
      failed switched read it is the second of the pair and the one read: both
      ends only if the one read was the first. */
  function Ends(pairs: seq<Pair>, reply: Reply): set<Fd> {
    match reply
    case Disconnected(fd) => {fd}
    case ReadFailed(fd) => {fd}
    case SwitchReadClosed(fd) =>
      if FirstPair(pairs, fd).Some? then {fd, pairs[FirstPair(pairs, fd).value].dest} else {}
    case SwitchWriteClosed(fd) =>
      if PartnerOf(pairs, fd) >= 0 then {fd, PartnerOf(pairs, fd)} else {fd}
    case _ => {}
  }

  /** ... and what becomes of the pairs, which are freed with the last entry. */
  ghost predicate PairsAfter(s: State, s': State, reply: Reply) {
    s'.pairs == if s.polls != [] && s'.polls == [] then []
                else match reply
                  case SwitchReadClosed(fd) => PairsWithout(s.pairs, fd)
                  case SwitchWriteClosed(fd) => PairsWithout(s.pairs, fd)
                  case _ => s.pairs
  }

  /** ... and of the descriptors of the process: a failed switched read, unlike a
      failed switched write, closes nothing. */
  ghost predicate OpenAfter(s: State, env: Env, s': State, reply: Reply) {
    match reply
    case Connected(_) => env.accepted.Some? && s'.open == s.open + {env.accepted.value}
    case HungUp(i) =>
      i < |s.polls| && s'.open == if s.infos[i].t == EXTERNAL then s.open else s.open - {s.polls[i].fd}
    case SwitchReadClosed(_) => s'.open == s.open
    case _ => s'.open == s.open - Ends(s.pairs, reply)
  }

  lemma ShutFdQueue(s: State, fd: Fd)
    requires Good(s)
    ensures Good(ShutFd(s, fd)) && Without(multiset(s.tx), multiset(ShutFd(s, fd).tx), fd)
  {
    DelFdQueue(s.(open := s.open - {fd}), fd);
  }

  lemma TwoShutsQueue(s: State, x: Fd, y: Fd)
    requires Good(s)
    ensures WithoutAll(s.tx, ShutFd(ShutFd(s, x), y).tx, {y, x})
  {
    ShutFdQueue(s, x);
    ShutFdQueue(ShutFd(s, x), y);
  }

  lemma DropPairQueue(s: State, fd: Fd)
    requires Good(s)
    ensures WithoutAll(s.tx, DropPair(s, fd).tx, Ends(s.pairs, SwitchWriteClosed(fd)))
  {
    var s1 := s.(pairs := PairsWithout(s.pairs, fd));
    var gone := Ends(s.pairs, SwitchWriteClosed(fd));
    if PartnerOf(s.pairs, fd) >= 0 {
      assert gone == {fd, PartnerOf(s.pairs, fd)};
      TwoShutsQueue(s1, PartnerOf(s.pairs, fd), fd);
    } else {
      assert gone == {fd};
      ShutFdQueue(s1, fd);
    }
  }

  lemma DropReaderQueue(s: State, fd: Fd, dest: Fd)
    requires Good(s)
    ensures WithoutAll(s.tx, DropReader(s, fd, dest).tx, {fd, dest})
  {
    TwoDelsQueue(s, dest, fd);
  }

  // ----- the scans, and the queue after a wait -----

  /** The first message for fd has left. */
  ghost predicate WithoutFirst(before: seq<Queued>, after: seq<Queued>, fd: Fd) {
    && FirstFor(before, fd).Some?
    && multiset(before) == multiset(after) + multiset{before[FirstFor(before, fd).value]}
  }

  /** How the queue changes, by what the wait reports. */
  ghost predicate QueueAfter(s: State, env: Env, s': State, reply: Reply) {
    match reply
    case OutOfBounds => false
    case Sent(i) => i < |s.polls| && |s'.polls| == |s.polls| && WithoutFirst(s.tx, s'.tx, s.polls[i].fd)
    case HungUp(i) => i < |s.polls| && Without(multiset(s.tx), multiset(s'.tx), s.polls[i].fd)
    case Forwarded(i) =>
      && i < |s.polls| && env.recv.Arrived? && FirstPair(s.pairs, s.polls[i].fd).Some?
      && var m := Message(PartnerOf(s.pairs, s.polls[i].fd), env.recv.id);
         s'.tx == if IsTracked(s.polls, m.fd) then s.tx + [m] else s.tx
    case Disconnected(_) => Good(s) ==> WithoutAll(s.tx, s'.tx, Ends(s.pairs, reply))
    case ReadFailed(_) => Good(s) ==> WithoutAll(s.tx, s'.tx, Ends(s.pairs, reply))
    case SwitchReadClosed(_) => Good(s) ==> WithoutAll(s.tx, s'.tx, Ends(s.pairs, reply))
    case SwitchWriteClosed(fd) =>
      && FirstFor(s.tx, fd).Some?
      && (Good(s) ==> WithoutAll(s.tx, s'.tx, Ends(s.pairs, reply)))
    case _ => s'.tx == s.tx
  }

  lemma UnqueuedForFd(s: State, fd: Fd, k: nat)
    requires FirstFor(s.tx, fd) == Some(k)
    ensures WithoutFirst(s.tx, SwapRemove(s.tx, k), fd)
  {
    SwapRemoveMultiset(s.tx, k);
  }

  lemma FailedWriteQueue(s: State, fd: Fd, k: nat)
    requires Good(s) && k < |s.tx| && s.tx[k].fd == fd
    ensures WithoutAll(s.tx, DropPair(Unqueued(s, Found(k)), fd).tx, Ends(s.pairs, SwitchWriteClosed(fd)))
  {
    var s1 := Unqueued(s, Found(k));
    var gone := Ends(s.pairs, SwitchWriteClosed(fd));
    assert WithoutAll(s1.tx, DropPair(s1, fd).tx, gone) by {
      FewerMessagesKeep(s, s1);
      DropPairQueue(s1, fd);
    }
    assert forall m: Queued :: m.fd != fd ==> multiset(s1.tx)[m] == multiset(s.tx)[m] by {
      SwapRemoveMultiset(s.tx, k);
    }
    assert fd in gone;
  }

  lemma SwitchedWriteQueue(s: State, i: nat, env: Env)
    requires i < |s.polls| && HasFor(s.tx, s.polls[i].fd)
    ensures var (s', reply) := SwitchedWrite(s, i, env.written);
            QueueAfter(s, env, s', reply)
  {
    var fd := s.polls[i].fd;
    var k := FirstFor(s.tx, fd).value;
    if s.pairs != [] && FirstPair(s.pairs, fd).Some? {
      if env.written {
        UnqueuedForFd(s, fd, k);
      } else if Good(s) {
        FailedWriteQueue(s, fd, k);
        assert SwitchedWrite(s, i, env.written) == (DropPair(Unqueued(s, Found(k)), fd), SwitchWriteClosed(fd));
      }
    }
  }

  lemma HandleWritableQueue(s: State, i: nat, env: Env)
    requires i < |s.polls| && HasFor(s.tx, s.polls[i].fd)
    ensures var (s', reply) := HandleWritable(s, i, env.written);
            QueueAfter(s, env, s', reply)
  {
    if s.infos[i].t == SWITCHED {
      SwitchedWriteQueue(s, i, env);
    } else {
      UnqueuedForFd(s, s.polls[i].fd, FirstFor(s.tx, s.polls[i].fd).value);
    }
  }

  lemma HandleReadableQueue(s: State, i: nat, env: Env)
    requires i < |s.polls|
    ensures var (s', reply) := HandleReadable(s, i, env);
            QueueAfter(s, env, s', reply)
  {
    var fd := s.polls[i].fd;
    if s.infos[i].t == SWITCHED {
      SwitchedReadQueue(s, i, env);
    } else if s.infos[i].t == IPC && Good(s) {
      PurgeExact(s.tx, fd);
      if |s.polls| == 1 {
        LastDelEmptiesQueue(s);
      }
    }
  }

  lemma SwitchedReadQueue(s: State, i: nat, env: Env)
    requires i < |s.polls|
    ensures var (s', reply) := SwitchedRead(s, i, env.recv);
            QueueAfter(s, env, s', reply)
  {
    var fd := s.polls[i].fd;
    var at := FirstPair(s.pairs, fd);
    if at.Some? && !env.recv.Arrived? && Good(s) {
      DropReaderQueue(s, fd, s.pairs[at.value].dest);
    }
  }

  /** Requested events, and what is known to be left to read, do not matter. */
  lemma QueueAfterFlags(s: State, flagged: State, env: Env, s': State, reply: Reply)
    requires |flagged.polls| == |s.polls| && forall k :: 0 <= k < |s.polls| ==> flagged.polls[k].fd == s.polls[k].fd
    requires flagged.tx == s.tx && flagged.pairs == s.pairs
    requires QueueAfter(flagged, env, s', reply)
    ensures QueueAfter(s, env, s', reply)
  {
    if Good(s) {
      FewerMessagesKeep(s, flagged);
    }
    if reply.Forwarded? {
      var m := Message(PartnerOf(s.pairs, s.polls[reply.i].fd), env.recv.id);
      TrackedAfter(s.polls, flagged.polls, m.fd);
      TrackedAfter(flagged.polls, s.polls, m.fd);
    }
  }

  lemma HandleQueue(s: State, r: Revents, i: nat, env: Env)
    requires i < |s.polls| && (r.wr ==> HasFor(s.tx, s.polls[i].fd))
    ensures var (s', reply) := Handle(s, r, i, env);
            QueueAfter(s, env, s', reply)
  {
    var (s', reply) := Handle(s, r, i, env);
    if r.rd || s.infos[i].moreToRead {
      var read := s.(infos := s.infos[i := s.infos[i].(moreToRead := false)]);
      HandleReadableQueue(read, i, env);
      QueueAfterFlags(s, read, env, s', reply);
    } else if r.wr {
      var unarmed := s.(polls := s.polls[i := s.polls[i].(wr := false)]);
      HandleWritableQueue(unarmed, i, env);
      QueueAfterFlags(s, unarmed, env, s', reply);
    } else if r.hup {
      PurgeExact(s.tx, s.polls[i].fd);
    }
  }

  /** From any state whatsoever, as long as poll answers as POSIX says: no scan
      leaves the array; a wait that reports a transmission has removed the
      first message for the reported descriptor, and no other; a hang-up has purged its descriptor;
      a forwarding read has queued one message for a tracked partner; descriptors
      that leave take all their messages and no other; and otherwise the queue is
      untouched. */
  lemma ScansStayInside(s: State, timer: int, env: Env)
    requires env.poll.Some? ==> Answers(Arm(s).polls, env.poll.value)
    ensures QueueAfter(s, env, Wait(s, timer, env).0, Wait(s, timer, env).1)
  {
    var armed := Arm(s);
    if env.poll.Some? {
      match FirstReady(armed, env.poll.value, 0)
      case None =>
      case Some(i) =>
        HandleQueue(armed, env.poll.value[i], i, env);
        QueueAfterFlags(s, armed, env, Wait(s, timer, env).0, Wait(s, timer, env).1);
    }
  }
}
