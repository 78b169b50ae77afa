/** What a C wait requests and what it reports, read off the state and the
    answers of the system. */
module CReplies {
  import opened Wrappers
  import opened SendQueue
  import opened CSwitch
  import opened CState
  import opened CInvariant
  import opened CNet
  import opened CRuns

  // ----- what is requested -----

  /** Before poll every descriptor is listened to, and POLLOUT is requested for
      exactly those with a message waiting; nothing else changes. */
  lemma ArmRefines(s: State)
    ensures var armed := Arm(s);
            && armed == s.(polls := armed.polls) && |armed.polls| == |s.polls|
            && forall i :: 0 <= i < |s.polls| ==>
                 && armed.polls[i].fd == s.polls[i].fd && armed.polls[i].rd
                 && (armed.polls[i].wr <==> exists k :: 0 <= k < |s.tx| && s.tx[k].fd == s.polls[i].fd)
  {
  }

  /** ipc_write queues a message exactly when its descriptor is tracked, and then
      POLLOUT is requested for every entry of it and for no other. */
  lemma WriteRefines(s: State, m: Queued)
    ensures var s' := Write(s, m);
            if IsTracked(s.polls, m.fd) then
              && s' == s.(polls := s'.polls, tx := s.tx + [m]) && |s'.polls| == |s.polls|
              && forall i :: 0 <= i < |s.polls| ==>
                   s'.polls[i] == s.polls[i].(wr := s.polls[i].wr || s.polls[i].fd == m.fd)
            else s' == s
  {
  }

  // ----- what decides a wait -----

  predicate Reported(r: Revents) {
    r.rd || r.wr || r.hup || r.err || r.nval
  }

  /** Entry i is the first that poll reports or that has more to read. */
  predicate Decides(s: State, env: Env, i: nat) {
    && env.poll.Some? && |env.poll.value| == |s.polls| && i < |s.polls|
    && (Reported(env.poll.value[i]) || s.infos[i].moreToRead)
    && forall k :: 0 <= k < i ==> !Reported(env.poll.value[k]) && !s.infos[k].moreToRead
  }

  predicate DecidesRead(s: State, env: Env, i: nat) {
    Decides(s, env, i) && (env.poll.value[i].rd || s.infos[i].moreToRead)
  }

  predicate DecidesWrite(s: State, env: Env, i: nat) {
    Decides(s, env, i) && !env.poll.value[i].rd && !s.infos[i].moreToRead && env.poll.value[i].wr
  }

  ghost predicate Paired(pairs: seq<Pair>, fd: Fd) {
    exists k :: 0 <= k < |pairs| && pairs[k].Has(fd)
  }

  lemma {:induction false} ReachesFirst(s: State, revents: seq<Revents>, from: nat, i: nat)
    requires |revents| == |s.polls| && from <= i < |s.polls|
    requires Reported(revents[i]) || s.infos[i].moreToRead
    requires forall k :: from <= k < i ==> !Reported(revents[k]) && !s.infos[k].moreToRead
    ensures FirstReady(s, revents, from) == Some(i)
    decreases i - from
  {
    if from == i {
    } else {
      ReachesFirst(s, revents, from + 1, i);
    }
  }

  lemma DecidedBy(s: State, timer: int, env: Env, i: nat)
    requires Decides(s, env, i)
    ensures FirstReady(Arm(s), env.poll.value, 0) == Some(i)
    ensures Wait(s, timer, env) == Handle(Arm(s), env.poll.value[i], i, env)
  {
    ReachesFirst(Arm(s), env.poll.value, 0, i);
  }

  // ----- what is reported -----

  /** Something to read: which event follows from which answer. */
  lemma ReadReplies(s: State, timer: int, env: Env, i: nat)
    requires DecidesRead(s, env, i)
    ensures var fd, reply := s.polls[i].fd, Wait(s, timer, env).1;
            match s.infos[i].t
            case SERVER => reply == if env.accepted.Some? then Connected(|s.polls|) else AcceptFailed(i)
            case EXTERNAL => reply == External(i)
            case IPC =>
              && (reply == Received(i) <==> env.recv.Arrived?)
              && (reply == Disconnected(fd) <==> env.recv == EndOfConnection)
              && (reply == ReadFailed(fd) <==> env.recv == Unreadable)
            case SWITCHED =>
              && (reply == NoFdRecord <==> !Paired(s.pairs, fd))
              && (reply == Forwarded(i) <==> Paired(s.pairs, fd) && env.recv.Arrived?)
              && (reply == SwitchReadClosed(fd) <==> Paired(s.pairs, fd) && !env.recv.Arrived?)
  {
    DecidedBy(s, timer, env, i);
  }

  /** Something can be sent. Without a message for the descriptor, which POSIX
      excludes, the scan ends only on an empty queue. */
  lemma WriteReplies(s: State, timer: int, env: Env, i: nat)
    requires DecidesWrite(s, env, i)
    ensures var fd, switched, reply := s.polls[i].fd, s.infos[i].t == SWITCHED, Wait(s, timer, env).1;
            && (HasFor(s.tx, fd) ==>
                  && (reply == NoFdRecord <==> switched && !Paired(s.pairs, fd))
                  && (reply == SwitchWriteClosed(fd) <==> switched && Paired(s.pairs, fd) && !env.written)
                  && (reply == Sent(i) <==> switched ==> Paired(s.pairs, fd) && env.written))
            && (!HasFor(s.tx, fd) ==>
                  (reply == OutOfBounds <==> s.tx != [] && !(switched && s.pairs == [])))
  {
    DecidedBy(s, timer, env, i);
  }

  /** A hang-up, an error, an invalid descriptor. */
  lemma OtherReplies(s: State, timer: int, env: Env, i: nat)
    requires Decides(s, env, i) && !DecidesRead(s, env, i) && !DecidesWrite(s, env, i)
    ensures Wait(s, timer, env).1 == if env.poll.value[i].hup then HungUp(i) else DescriptorError(i)
    ensures !env.poll.value[i].hup ==> Wait(s, timer, env).0 == Arm(s)
  {
    DecidedBy(s, timer, env, i);
  }

  /** No entry at all: a timeout exactly when the timer was not zero. */
  lemma IdleReplies(s: State, timer: int, env: Env)
    requires env.poll.Some? ==> |env.poll.value| == |s.polls|
    ensures env.poll == None <==> Wait(s, timer, env).1 == PollError
    ensures Wait(s, timer, env).1 == Timeout <==>
              env.poll.Some? && timer != 0 && Idle(s, env)
    ensures Wait(s, timer, env).1 in {PollError, Timeout, NothingReady} ==> Wait(s, timer, env).0 == Arm(s)
  {
    if env.poll.Some? && !Idle(s, env) {
      var i := FirstDecides(s, env);
      DecidedIsHandled(s, timer, env, i);
    } else if env.poll.Some? {
      NoneIsReady(Arm(s), env.poll.value, 0);
    }
  }

  /** Neither poll nor an earlier read has anything. */
  ghost predicate Idle(s: State, env: Env)
    requires env.poll.Some? && |env.poll.value| == |s.polls|
  {
    forall k :: 0 <= k < |s.polls| ==> !Reported(env.poll.value[k]) && !s.infos[k].moreToRead
  }

  lemma DecidedIsHandled(s: State, timer: int, env: Env, i: nat)
    requires Decides(s, env, i)
    ensures Wait(s, timer, env).1 !in {PollError, Timeout, NothingReady}
  {
    DecidedBy(s, timer, env, i);
  }

  lemma FirstDecides(s: State, env: Env) returns (i: nat)
    requires env.poll.Some? && |env.poll.value| == |s.polls|
    requires !Idle(s, env)
    ensures Decides(s, env, i)
  {
    i := 0;
    while !Reported(env.poll.value[i]) && !s.infos[i].moreToRead
      invariant i < |s.polls|
      invariant forall k :: 0 <= k < i ==> !Reported(env.poll.value[k]) && !s.infos[k].moreToRead
      decreases |s.polls| - i
    {
      var k :| 0 <= k < |s.polls| && (Reported(env.poll.value[k]) || s.infos[k].moreToRead);
      assert i < k;
      i := i + 1;
    }
  }

  lemma {:induction false} NoneIsReady(s: State, revents: seq<Revents>, from: nat)
    requires |revents| == |s.polls| && from <= |s.polls|
    requires forall k :: from <= k < |s.polls| ==> !Reported(revents[k]) && !s.infos[k].moreToRead
    ensures FirstReady(s, revents, from) == None
    decreases |s.polls| - from
  {
    if from == |s.polls| {
    } else {
      NoneIsReady(s, revents, from + 1);
    }
  }

  // ----- entries that stay -----

  /** A wait decided by reading an entry clears what was known to be left to read
      there, and only there; a new entry listens exactly if it has a client. */
  lemma ReadClearsMore(s: State, timer: int, env: Env, i: nat)
    requires DecidesRead(s, env, i)
    ensures var (s', reply) := Wait(s, timer, env);
            var read := s.infos[i := s.infos[i].(moreToRead := false)];
            match reply
            case Received(_) => s' == Arm(s).(infos := read)
            case External(_) => s' == Arm(s).(infos := read)
            case NoFdRecord => s' == Arm(s).(infos := read)
            case Forwarded(_) => s'.infos == read
            case Connected(_) =>
              && env.accepted.Some? && s'.infos == read + [Info(IPC, false)]
              && s'.polls == Arm(s).polls + [PollFd(env.accepted.value, true, false)]
            case AcceptFailed(_) =>
              && s'.infos == read + [Info(IPC, false)]
              && s'.polls == Arm(s).polls + [PollFd(-1, false, false)]
            case _ => true
  {
    DecidedBy(s, timer, env, i);
  }

  // ----- waits decided by one entry -----

  const IDLE := Revents(false, false, false, false, false)
  const READABLE := IDLE.(rd := true)
  const WRITABLE := IDLE.(wr := true)
  const HUNG_UP := IDLE.(hup := true)

  /** Nothing is known to be left to read. */
  ghost predicate Quiet(s: State) {
    forall k :: 0 <= k < |s.infos| ==> !s.infos[k].moreToRead
  }

  /** One entry reports r and the others nothing. */
  function Only(n: nat, i: nat, r: Revents): (revents: seq<Revents>)
    requires i < n
    ensures |revents| == n && forall k :: 0 <= k < n ==> revents[k] == if k == i then r else IDLE
  {
    seq(n, k => if k == i then r else IDLE)
  }

  function ReadAt(n: nat, i: nat, recv: Recv, accepted: Option<Fd>): Env
    requires i < n
  {
    Env(Some(Only(n, i, READABLE)), accepted, recv, false)
  }

  lemma OnlyIsFirst(s: State, i: nat, r: Revents)
    requires Quiet(s) && i < |s.polls| && r in {READABLE, HUNG_UP}
    ensures FirstReady(Arm(s), Only(|s.polls|, i, r), 0) == Some(i)
    ensures !Nothing(Only(|s.polls|, i, r)) && Answers(Arm(s).polls, Only(|s.polls|, i, r))
  {
    ReachesFirst(Arm(s), Only(|s.polls|, i, r), 0, i);
    assert !Nothing(Only(|s.polls|, i, r)) by {
      assert Only(|s.polls|, i, r)[i] == r;
    }
  }

  // ----- a waiting message is sent -----

  /** From every quiet state: a message waiting for an entry makes POLLOUT possible
      there, and the wait that reports it gives the first such message to a write.
      On a switched entry of a pair this takes a write that succeeds. */
  lemma WaitingMessageIsSent(s: State, i: nat, timer: int, written: bool)
    requires Quiet(s) && i < |s.polls| && HasFor(s.tx, s.polls[i].fd)
    requires s.infos[i].t == SWITCHED ==> written && Paired(s.pairs, s.polls[i].fd)
    ensures var a := WaitEvent(timer, Env(Some(Only(|s.polls|, i, WRITABLE)), None, Unreadable, written));
            && Posix(s, a) && Wait(s, timer, a.env).1 == Sent(i)
            && HandedBy(s, a, s.tx[FirstFor(s.tx, s.polls[i].fd).value]) == 1
            && WithoutFirst(s.tx, Step(s, a).tx, s.polls[i].fd)
  {
    var env := Env(Some(Only(|s.polls|, i, WRITABLE)), None, Unreadable, written);
    ArmRefines(s);
    WriteReplies(s, timer, env, i);
    ScansStayInside(s, timer, env);
  }
}
