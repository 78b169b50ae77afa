/** Where the C event loop does not do what one would expect: descriptors that
    get a second entry, and the end a failed switched read leaves behind. */
module CEdges {
  import opened Wrappers
  import opened SendQueue
  import opened CSwitch
  import opened CState
  import opened CInvariant
  import opened CNet
  import opened CRuns
  import opened CReplies
  import opened SlotMap

  // ----- descriptors that get a second entry -----

  /** A failed accept leaves an entry with descriptor -1. */
  lemma FailedAccept(s: State, i: nat, timer: int)
    requires Quiet(s) && i < |s.polls| && s.infos[i].t == SERVER
    ensures var env := ReadAt(|s.polls|, i, Unreadable, None);
            var (s', reply) := Wait(s, timer, env);
            && Posix(s, WaitEvent(timer, env)) && reply == AcceptFailed(i)
            && Quiet(s') && |s'.polls| == |s.polls| + 1 && s'.infos[i] == s.infos[i] && IsTracked(s'.polls, -1)
  {
    OnlyIsFirst(s, i, READABLE);
    var s' := Wait(s, timer, ReadAt(|s.polls|, i, Unreadable, None)).0;
    assert s'.polls[|s.polls|].fd == -1;
  }

  /** The run is one POSIX allows, and ends with a descriptor that has two entries. */
  ghost predicate EndsWithTwo(s: State, actions: seq<Action>) {
    PosixRun(s, actions) && ShapedRun(s, actions) && !Distinct(Keys(Run(s, actions)))
  }

  lemma TwoSteps(s: State, a: Action, b: Action, fd: Fd)
    requires Posix(s, a) && Posix(Step(s, a), b) && b.WaitEvent?
    requires IsTracked(Step(s, a).polls, fd) && Newcomer(Step(s, a), b) == Some(fd)
    ensures EndsWithTwo(s, [a, b])
  {
    var s1 := Step(s, a);
    assert !Distinct(Keys(Step(s1, b))) by { JoinsAgain(s1, b.timer, b.env, fd); }
    OneStep(s1, b);
    assert [a, b][1..] == [b];
  }

  lemma OneStep(s: State, a: Action)
    requires Posix(s, a)
    ensures PosixRun(s, [a]) && ShapedRun(s, [a]) && Run(s, [a]) == Step(s, a)
  {
    assert [a][1..] == [];
  }

  lemma JoinsAgain(s: State, timer: int, env: Env, fd: Fd)
    requires (env.poll.Some? ==> |env.poll.value| == |s.polls|) && IsTracked(s.polls, fd)
    requires Newcomer(s, WaitEvent(timer, env)) == Some(fd)
    ensures !Distinct(Keys(Wait(s, timer, env).0))
  {
    WaitRefines(s, timer, env);
    TrackedKeys(s, fd);
    SecondEntry(Keys(s), fd);
  }

  lemma SecondEntry(keys: seq<Fd>, fd: Fd)
    requires fd in keys
    ensures !Distinct(keys + [fd])
  {
    var i :| 0 <= i < |keys| && keys[i] == fd;
    assert (keys + [fd])[i] == (keys + [fd])[|keys|];
  }

  /** From every state with a server, two failed accepts leave two entries for -1:
      the arrays are a map no longer. */
  lemma TwoFailedAccepts(s: State, i: nat, timer: int)
    requires Quiet(s) && i < |s.polls| && s.infos[i].t == SERVER
    ensures var n := |s.polls|;
            EndsWithTwo(s, [WaitEvent(timer, ReadAt(n, i, Unreadable, None)),
                            WaitEvent(timer, ReadAt(n + 1, i, Unreadable, None))])
  {
    var a := WaitEvent(timer, ReadAt(|s.polls|, i, Unreadable, None));
    FailedAccept(s, i, timer);
    FailsAgain(s, Step(s, a), a, i, timer);
  }

  lemma FailsAgain(s: State, s1: State, a: Action, i: nat, timer: int)
    requires Posix(s, a) && Step(s, a) == s1
    requires Quiet(s1) && i < |s1.polls| && s1.infos[i].t == SERVER && IsTracked(s1.polls, -1)
    ensures EndsWithTwo(s, [a, WaitEvent(timer, ReadAt(|s1.polls|, i, Unreadable, None))])
  {
    FailedAccept(s1, i, timer);
    TwoSteps(s, a, WaitEvent(timer, ReadAt(|s1.polls|, i, Unreadable, None)), -1);
  }

  function HangUpAt(n: nat, i: nat): Env
    requires i < n
  {
    Env(Some(Only(n, i, HUNG_UP)), None, Unreadable, false)
  }

  lemma HangUpStays(s: State, i: nat, timer: int)
    requires Quiet(s) && i < |s.polls| && s.infos[i].t != EXTERNAL
    ensures var env := HangUpAt(|s.polls|, i);
            && Posix(s, WaitEvent(timer, env)) && Wait(s, timer, env) == (Close(Arm(s), i), HungUp(i))
            && s.polls[i].fd !in Close(Arm(s), i).open && IsTracked(Close(Arm(s), i).polls, s.polls[i].fd)
  {
    OnlyIsFirst(s, i, HUNG_UP);
    assert Close(Arm(s), i).polls[i].fd == s.polls[i].fd;
  }

  lemma AcceptAt(s: State, i: nat, timer: int, client: Fd)
    requires Quiet(s) && i < |s.polls| && s.infos[i].t == SERVER
    ensures var a := WaitEvent(timer, ReadAt(|s.polls|, i, Unreadable, Some(client)));
            Posix(s, a) && Newcomer(s, a) == Some(client)
  {
    OnlyIsFirst(s, i, READABLE);
  }

  /** A hang-up closes the descriptor and keeps its entry. The system may then
      hand the number out again, and the client that gets it has two entries,
      the first with whatever type and pair it had. */
  lemma HangUpThenAccept(s: State, i: nat, j: nat, timer: int)
    requires Quiet(s) && i < |s.polls| && j < |s.polls| && i != j
    requires s.infos[i].t != EXTERNAL && s.infos[j].t == SERVER
    ensures var n, fd := |s.polls|, s.polls[i].fd;
            var hangUp := WaitEvent(timer, HangUpAt(n, i));
            && Shaped(s, hangUp) && fd !in Step(s, hangUp).open
            && EndsWithTwo(s, [hangUp, WaitEvent(timer, ReadAt(n, j, Unreadable, Some(fd)))])
  {
    var n, fd := |s.polls|, s.polls[i].fd;
    HangUpStays(s, i, timer);
    AcceptAt(Close(Arm(s), i), j, timer, fd);
    TwoSteps(s, WaitEvent(timer, HangUpAt(n, i)), WaitEvent(timer, ReadAt(n, j, Unreadable, Some(fd))), fd);
  }

  // ----- the end a failed read leaves behind -----

  ghost predicate OnlySwitched(s: State, fd: Fd) {
    && IsTracked(s.polls, fd)
    && forall i :: 0 <= i < |s.polls| && s.polls[i].fd == fd ==> s.infos[i].t == SWITCHED
  }

  ghost predicate Unpaired(pairs: seq<Pair>, fd: Fd) {
    forall k :: 0 <= k < |pairs| ==> !pairs[k].Has(fd)
  }

  /** A switched descriptor that no pair mentions. */
  ghost predicate Orphan(s: State, fd: Fd) {
    OnlySwitched(s, fd) && Unpaired(s.pairs, fd)
  }

  lemma DelKeepsOrphan(s: State, i: nat, fd: Fd)
    requires OnlySwitched(s, fd) && i < |s.polls| && s.polls[i].fd != fd
    ensures OnlySwitched(Del(s, i), fd) && Del(s, i).pairs == s.pairs
  {
    var j :| 0 <= j < |s.polls| && s.polls[j].fd == fd;
    var s' := Del(s, i);
    assert s'.polls[if j == |s'.polls| then i else j].fd == fd;
  }

  lemma DelFdKeepsOrphan(s: State, x: Fd, fd: Fd)
    requires OnlySwitched(s, fd) && x != fd
    ensures OnlySwitched(DelFd(s, x), fd) && DelFd(s, x).pairs == s.pairs
  {
    var i := IndexFrom(s.polls, x, 0);
    if i.Some? {
      DelKeepsOrphan(s, i.value, fd);
    }
  }

  lemma FlagsKeepOrphan(s: State, s': State, fd: Fd)
    requires OnlySwitched(s, fd) && SameConnections(s, s')
    ensures OnlySwitched(s', fd)
  {
    TrackedAfter(s.polls, s'.polls, fd);
  }

  lemma AddKeepsOrphan(s: State, info: Info, p: PollFd, fd: Fd)
    requires OnlySwitched(s, fd) && p.fd != fd
    ensures OnlySwitched(Add(s, info, p), fd)
  {
    TrackedAfter(s.polls, Add(s, info, p).polls, fd);
  }

  lemma TwoDelsKeepOrphan(s: State, x: Fd, y: Fd, fd: Fd)
    requires OnlySwitched(s, fd) && x != fd && y != fd
    ensures OnlySwitched(DelFd(DelFd(s, x), y), fd) && DelFd(DelFd(s, x), y).pairs == s.pairs
  {
    DelFdKeepsOrphan(s, x, fd);
    DelFdKeepsOrphan(DelFd(s, x), y, fd);
  }

  lemma SwitchedReadKeepsOrphan(s: State, i: nat, recv: Recv, fd: Fd)
    requires Orphan(s, fd) && i < |s.polls|
    ensures Orphan(SwitchedRead(s, i, recv).0, fd)
  {
    var at := FirstPair(s.pairs, s.polls[i].fd);
    if at.Some? {
      assert !s.pairs[at.value].Has(fd);
      if recv.Arrived? {
        FlagsKeepOrphan(s, SwitchedRead(s, i, recv).0, fd);
      } else {
        TwoDelsKeepOrphan(s, s.pairs[at.value].dest, s.polls[i].fd, fd);
      }
    }
  }

  lemma HandleReadableKeepsOrphan(s: State, i: nat, env: Env, fd: Fd)
    requires Orphan(s, fd) && i < |s.polls| && fd >= 0 && env.accepted != Some(fd)
    ensures Orphan(HandleReadable(s, i, env).0, fd)
  {
    match s.infos[i].t
    case SERVER =>
      var client := if env.accepted.Some? then env.accepted.value else -1;
      AddKeepsOrphan(s, Info(IPC, false), PollFd(client, env.accepted.Some?, false), fd);
    case SWITCHED => SwitchedReadKeepsOrphan(s, i, env.recv, fd);
    case EXTERNAL =>
    case IPC => DelKeepsOrphan(s, i, fd);
  }

  lemma DropPairKeepsOrphan(s: State, x: Fd, fd: Fd)
    requires Orphan(s, fd) && FirstPair(s.pairs, x).Some?
    ensures Orphan(DropPair(s, x), fd)
  {
    assert !s.pairs[FirstPair(s.pairs, x).value].Has(fd);
    var s1 := s.(pairs := PairsWithout(s.pairs, x));
    TwoDelsKeepOrphan(s1, PartnerOf(s.pairs, x), x, fd);
    DelFdKeepsOrphan(s1, x, fd);
  }

  lemma HandleWritableKeepsOrphan(s: State, i: nat, written: bool, fd: Fd)
    requires Orphan(s, fd) && i < |s.polls|
    ensures Orphan(HandleWritable(s, i, written).0, fd)
  {
    var scan := ScanFor(s.tx, s.polls[i].fd);
    if !scan.PastTheEnd? {
      FlagsKeepOrphan(s, Unqueued(s, scan), fd);
      if FirstPair(s.pairs, s.polls[i].fd).Some? {
        DropPairKeepsOrphan(Unqueued(s, scan), s.polls[i].fd, fd);
      }
    }
  }

  lemma WaitKeepsOrphan(s: State, timer: int, env: Env, fd: Fd)
    requires Orphan(s, fd) && fd >= 0 && env.accepted != Some(fd)
    requires env.poll.Some? ==> |env.poll.value| == |s.polls|
    ensures Orphan(Wait(s, timer, env).0, fd)
  {
    var armed := Arm(s);
    FlagsKeepOrphan(s, armed, fd);
    if env.poll.Some? {
      match FirstReady(armed, env.poll.value, 0)
      case None =>
      case Some(i) =>
        var read := armed.(infos := armed.infos[i := armed.infos[i].(moreToRead := false)]);
        var unarmed := armed.(polls := armed.polls[i := armed.polls[i].(wr := false)]);
        FlagsKeepOrphan(armed, read, fd);
        FlagsKeepOrphan(armed, unarmed, fd);
        HandleReadableKeepsOrphan(read, i, env, fd);
        HandleWritableKeepsOrphan(unarmed, i, env.written, fd);
        FlagsKeepOrphan(armed, Close(armed, i), fd);
    }
  }

  /** No sequence of waits ever removes an orphan. */
  lemma {:induction false} OrphanStays(s: State, actions: seq<Action>, fd: Fd)
    requires Orphan(s, fd) && fd >= 0 && ShapedRun(s, actions)
    requires forall k :: 0 <= k < |actions| ==> actions[k].WaitEvent? && actions[k].env.accepted != Some(fd)
    ensures Orphan(Run(s, actions), fd)
    decreases |actions|
  {
    if actions == [] {
    } else {
      WaitKeepsOrphan(s, actions[0].timer, actions[0].env, fd);
      OrphanStays(Step(s, actions[0]), actions[1..], fd);
    }
  }

  /** A wait decided by an orphan moves no message, whatever the system answers:
      reading and writing alike are refused. */
  lemma OrphanMovesNothing(s: State, timer: int, env: Env, i: nat)
    requires env.poll.Some? && Answers(Arm(s).polls, env.poll.value)
    requires FirstReady(Arm(s), env.poll.value, 0) == Some(i) && Orphan(s, s.polls[i].fd)
    requires env.poll.value[i].rd || s.infos[i].moreToRead || env.poll.value[i].wr
    requires !Nothing(env.poll.value) || PollTimeout(s, timer) == 0
    ensures Wait(s, timer, env).1 == NoFdRecord && Wait(s, timer, env).0.tx == s.tx
  {
    assert FirstPair(s.pairs, s.polls[i].fd) == None;
    assert s.infos[i].t == SWITCHED;
    ScansStayInside(s, timer, env);
  }

  /** A failed switched read removes an entry of both ends of a pair if and only
      if it was the first of the pair that was read; otherwise the first stays,
      switched and unpaired. */
  lemma FailedReadIsOneSided(s: State, timer: int, env: Env, fd: Fd)
    requires Disjoint(s.pairs) && (env.poll.Some? ==> |env.poll.value| == |s.polls|)
    requires Wait(s, timer, env).1 == SwitchReadClosed(fd)
    ensures FirstPair(s.pairs, fd).Some?
    ensures var s' := Wait(s, timer, env).0;
            var pair := s.pairs[FirstPair(s.pairs, fd).value];
            var partner := pair.Other(fd);
            && (IsTracked(s'.polls, fd) ==> multiset(Keys(s))[fd] > 1)
            && (partner != fd && OnlySwitched(s, partner) ==>
                  if pair.orig == fd then IsTracked(s'.polls, partner) <==> multiset(Keys(s))[partner] > 1
                  else Orphan(s', partner))
  {
    var s' := Wait(s, timer, env).0;
    var read := ReaderDropped(s, timer, env, fd);
    var pair := s.pairs[FirstPair(s.pairs, fd).value];
    var partner := pair.Other(fd);
    LeftAfterRead(s, timer, env, fd, fd);
    LeftAfterRead(s, timer, env, fd, partner);
    if pair.orig != fd && OnlySwitched(s, pair.orig) {
      SurvivorOfRead(read, fd);
    }
  }

  lemma LeftAfterRead(s: State, timer: int, env: Env, fd: Fd, g: Fd)
    requires env.poll.Some? ==> |env.poll.value| == |s.polls|
    requires Wait(s, timer, env).1 == SwitchReadClosed(fd)
    ensures IsTracked(Wait(s, timer, env).0.polls, g) <==>
            multiset(Keys(s))[g] > Leaving(s.pairs, SwitchReadClosed(fd))[g]
  {
    WaitRefines(s, timer, env);
    TrackedKeys(Wait(s, timer, env).0, g);
  }

  /** ... and such reads happen: from every state in which both ends of a pair
      are tracked as switched, the second one has only to be closed by its peer. */
  lemma SecondEndMakesOrphan(s: State, i: nat, timer: int)
    requires Quiet(s) && Disjoint(s.pairs) && i < |s.polls| && s.infos[i].t == SWITCHED
    requires FirstPair(s.pairs, s.polls[i].fd).Some?
    requires var pair := s.pairs[FirstPair(s.pairs, s.polls[i].fd).value];
             pair.orig != s.polls[i].fd && OnlySwitched(s, pair.orig)
    ensures var pair := s.pairs[FirstPair(s.pairs, s.polls[i].fd).value];
            var env := ReadAt(|s.polls|, i, EndOfConnection, None);
            && Posix(s, WaitEvent(timer, env))
            && Wait(s, timer, env).1 == SwitchReadClosed(s.polls[i].fd)
            && Orphan(Wait(s, timer, env).0, pair.orig)
  {
    var env := ReadAt(|s.polls|, i, EndOfConnection, None);
    OnlyIsFirst(s, i, READABLE);
    FailedReadIsOneSided(s, timer, env, s.polls[i].fd);
  }

  /** The state a failed switched read starts from. */
  lemma ReaderDropped(s: State, timer: int, env: Env, fd: Fd) returns (read: State)
    requires env.poll.Some? ==> |env.poll.value| == |s.polls|
    requires Wait(s, timer, env).1 == SwitchReadClosed(fd)
    ensures FirstPair(s.pairs, fd).Some?
    ensures Wait(s, timer, env).0 == DropReader(read, fd, s.pairs[FirstPair(s.pairs, fd).value].dest)
    ensures SameConnections(s, read) && read.pairs == s.pairs
    ensures forall g :: OnlySwitched(s, g) ==> OnlySwitched(read, g)
  {
    var armed := Arm(s);
    var i := FirstReady(armed, env.poll.value, 0).value;
    read := armed.(infos := armed.infos[i := armed.infos[i].(moreToRead := false)]);
    forall g | OnlySwitched(s, g) ensures OnlySwitched(read, g) {
      FlagsKeepOrphan(s, read, g);
    }
  }

  lemma SurvivorOfRead(s: State, fd: Fd)
    requires Disjoint(s.pairs) && FirstPair(s.pairs, fd).Some?
    requires var pair := s.pairs[FirstPair(s.pairs, fd).value];
             pair.orig != fd && OnlySwitched(s, pair.orig)
    ensures var pair := s.pairs[FirstPair(s.pairs, fd).value];
            Orphan(DropReader(s, fd, pair.dest), pair.orig)
  {
    var pair := s.pairs[FirstPair(s.pairs, fd).value];
    TwoDelsKeepOrphan(s, pair.dest, fd, pair.orig);
    UnpairedAfter(s.pairs, fd, pair.orig);
  }

  lemma UnpairedAfter(pairs: seq<Pair>, fd: Fd, partner: Fd)
    requires Disjoint(pairs) && FirstPair(pairs, fd).Some? && pairs[FirstPair(pairs, fd).value].Has(partner)
    ensures Unpaired(PairsWithout(pairs, fd), partner)
  {
    var at := FirstPair(pairs, fd).value;
    var r := PairsWithout(pairs, fd);
    forall k | 0 <= k < |r| ensures !r[k].Has(partner) {
      assert r[k] == pairs[if k == at then |r| else k];
    }
  }
}
