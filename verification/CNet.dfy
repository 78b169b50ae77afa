/** The C context seen from outside: what deletions and waits do to its entries,
    even when a descriptor has several, and to the map they are otherwise. */
module CNet {
  import opened Wrappers
  import opened SendQueue
  import opened CSwitch
  import opened CState
  import opened CInvariant
  import opened SlotMap

  // ----- the arrays as a map -----

  datatype Slot = Slot(info: Info, rd: bool, wr: bool)

  ghost function Keys(s: State): seq<Fd> {
    seq(|s.polls|, i requires 0 <= i < |s.polls| => s.polls[i].fd)
  }

  ghost function Slots(s: State): seq<Slot> {
    seq(|s.polls|, i requires 0 <= i < |s.polls| => Slot(s.infos[i], s.polls[i].rd, s.polls[i].wr))
  }

  ghost function Types(s: State): seq<ConnectionType> {
    seq(|s.infos|, i requires 0 <= i < |s.infos| => s.infos[i].t)
  }

  ghost function Tracked(s: State): map<Fd, Slot> {
    ToMap(Keys(s), Slots(s))
  }

  ghost function Connections(s: State): map<Fd, ConnectionType> {
    ToMap(Keys(s), Types(s))
  }

  lemma TrackedKeys(s: State, fd: Fd)
    ensures IsTracked(s.polls, fd) <==> fd in Keys(s)
    ensures IsTracked(s.polls, fd) <==> multiset(Keys(s))[fd] > 0
  {
    if IsTracked(s.polls, fd) {
      var i :| 0 <= i < |s.polls| && s.polls[i].fd == fd;
      assert Keys(s)[i] == fd;
    }
  }

  lemma AddRefines(s: State, info: Info, p: PollFd)
    ensures Tracked(Add(s, info, p)) == Tracked(s)[p.fd := Slot(info, p.rd, p.wr)]
  {
    assert Keys(Add(s, info, p)) == Keys(s) + [p.fd];
    assert Slots(Add(s, info, p)) == Slots(s) + [Slot(info, p.rd, p.wr)];
    AppendIsInsertion(Keys(s), Slots(s), p.fd, Slot(info, p.rd, p.wr));
  }

  // ----- entries that leave -----

  /** Each descriptor has lost as many entries as gone says, or all it had; the
      entries of the others are the same. */
  ghost predicate Lost(s: State, s': State, gone: multiset<Fd>) {
    && Loses(Keys(s), Slots(s), Keys(s'), Slots(s'), gone)
    && LostTypes(s, s', gone)
  }

  ghost predicate LostTypes(s: State, s': State, gone: multiset<Fd>) {
    Loses(Keys(s), Types(s), Keys(s'), Types(s'), gone)
  }

  /** Deleting an entry removes one entry of its descriptor, whatever else is
      tracked, and all its messages. Where descriptors are distinct this is
      removal from the map. */
  lemma DelRefines(s: State, i: nat)
    requires Good(s) && i < |s.polls|
    ensures Lost(s, Del(s, i), multiset{s.polls[i].fd})
    ensures Without(multiset(s.tx), multiset(Del(s, i).tx), s.polls[i].fd)
    ensures Distinct(Keys(s)) ==>
              Distinct(Keys(Del(s, i))) && Tracked(Del(s, i)) == Tracked(s) - {s.polls[i].fd}
  {
    DelLoses(s, i);
    PurgeExact(s.tx, s.polls[i].fd);
    if |s.polls| == 1 {
      LastDelEmptiesQueue(s);
    }
    if Distinct(Keys(s)) {
      LostIsRemoval(s, Del(s, i), multiset{s.polls[i].fd}, {s.polls[i].fd});
    }
  }

  lemma LostIsRemoval(s: State, s': State, gone: multiset<Fd>, fds: set<Fd>)
    requires Lost(s, s', gone) && Distinct(Keys(s)) && forall fd :: fd in fds <==> fd in gone
    ensures Distinct(Keys(s')) && Tracked(s') == Tracked(s) - fds
  {
    LosesIsRemoval(Keys(s), Slots(s), Keys(s'), Slots(s'), gone, fds);
  }

  lemma DelLoses(s: State, i: nat)
    requires i < |s.polls|
    ensures Lost(s, Del(s, i), multiset{s.polls[i].fd})
  {
    DelArrays(s, i);
    assert Loses(Keys(s), Slots(s), Keys(Del(s, i)), Slots(Del(s, i)), multiset{s.polls[i].fd}) by {
      SwapRemoveLoses(Keys(s), Slots(s), i);
    }
    assert LostTypes(s, Del(s, i), multiset{s.polls[i].fd}) by {
      SwapRemoveLoses(Keys(s), Types(s), i);
    }
  }

  lemma DelArrays(s: State, i: nat)
    requires i < |s.polls|
    ensures Keys(Del(s, i)) == SwapRemove(Keys(s), i)
    ensures Slots(Del(s, i)) == SwapRemove(Slots(s), i)
    ensures Types(Del(s, i)) == SwapRemove(Types(s), i)
  {
  }

  lemma DelFdLoses(s: State, fd: Fd)
    ensures Lost(s, DelFd(s, fd), multiset{fd})
    ensures DelFd(s, fd).pairs == if s.polls != [] && DelFd(s, fd).polls == [] then [] else s.pairs
    ensures DelFd(s, fd).open == s.open
  {
    var i := IndexFrom(s.polls, fd, 0);
    if i.Some? {
      DelLoses(s, i.value);
    } else {
      LosesAbsent(Keys(s), Slots(s), multiset{fd});
      LosesAbsent(Keys(s), Types(s), multiset{fd});
    }
  }

  lemma LostBoth(a: State, b: State, c: State, x: multiset<Fd>, y: multiset<Fd>)
    requires Lost(a, b, x) && Lost(b, c, y)
    ensures Lost(a, c, x + y)
  {
    LosesBoth(Keys(a), Slots(a), Keys(b), Slots(b), Keys(c), Slots(c), x, y);
    LosesBoth(Keys(a), Types(a), Keys(b), Types(b), Keys(c), Types(c), x, y);
  }

  lemma SameArrays(s: State, s': State)
    requires s'.polls == s.polls && s'.infos == s.infos
    ensures Keys(s') == Keys(s) && Slots(s') == Slots(s) && Types(s') == Types(s)
  {
  }

  lemma ShutFdLoses(s: State, fd: Fd)
    ensures Lost(s, ShutFd(s, fd), multiset{fd})
  {
    var s1 := s.(open := s.open - {fd});
    DelFdLoses(s1, fd);
    LostFrom(s, s1, ShutFd(s, fd), multiset{fd});
  }

  lemma ShutFdLeaves(s: State, fd: Fd)
    ensures ShutFd(s, fd).pairs == if s.polls != [] && ShutFd(s, fd).polls == [] then [] else s.pairs
    ensures ShutFd(s, fd).open == s.open - {fd}
  {
  }

  /** The entries that leave, by the answer of a wait, in the order in which they
      do: the one read by a failed switched read is deleted twice if it is the
      second of its pair. */
  function Leaving(pairs: seq<Pair>, reply: Reply): multiset<Fd> {
    match reply
    case Disconnected(fd) => multiset{fd}
    case ReadFailed(fd) => multiset{fd}
    case SwitchReadClosed(fd) =>
      if FirstPair(pairs, fd).Some? then multiset{pairs[FirstPair(pairs, fd).value].dest} + multiset{fd} else multiset{}
    case SwitchWriteClosed(fd) =>
      if PartnerOf(pairs, fd) >= 0 then multiset{PartnerOf(pairs, fd)} + multiset{fd} else multiset{fd}
    case _ => multiset{}
  }

  lemma LeavingEnds(pairs: seq<Pair>, reply: Reply)
    ensures forall fd :: fd in Ends(pairs, reply) <==> fd in Leaving(pairs, reply)
  {
  }

  /** After a failed switched write both ends of the pair have lost an entry, all
      their messages and their descriptor; their pair has left the table, and
      nothing else has changed. */
  lemma PairDiesTogether(s: State, fd: Fd)
    requires Good(s)
    ensures var s' := DropPair(s, fd);
            var reply := SwitchWriteClosed(fd);
            && Lost(s, s', Leaving(s.pairs, reply))
            && WithoutAll(s.tx, s'.tx, Ends(s.pairs, reply))
            && PairsAfter(s, s', reply)
            && s'.open == s.open - Ends(s.pairs, reply)
            && (Distinct(Keys(s)) ==> Tracked(s') == Tracked(s) - Ends(s.pairs, reply))
  {
    var reply := SwitchWriteClosed(fd);
    DropPairQueue(s, fd);
    DropPairLoses(s, fd);
    DropPairLeaves(s, fd);
    LeavingEnds(s.pairs, reply);
    if Distinct(Keys(s)) {
      LostIsRemoval(s, DropPair(s, fd), Leaving(s.pairs, reply), Ends(s.pairs, reply));
    }
  }

  lemma DropPairLoses(s: State, fd: Fd)
    ensures Lost(s, DropPair(s, fd), Leaving(s.pairs, SwitchWriteClosed(fd)))
  {
    var s1 := s.(pairs := PairsWithout(s.pairs, fd));
    var other := PartnerOf(s.pairs, fd);
    if other >= 0 {
      BothEndsLost(s, s1, other, fd, Leaving(s.pairs, SwitchWriteClosed(fd)));
    } else {
      OneEndLost(s, s1, fd, Leaving(s.pairs, SwitchWriteClosed(fd)));
    }
  }

  lemma BothEndsLost(s: State, s1: State, x: Fd, y: Fd, gone: multiset<Fd>)
    requires s1.polls == s.polls && s1.infos == s.infos && gone == multiset{x} + multiset{y}
    ensures Lost(s, ShutFd(ShutFd(s1, x), y), gone)
  {
    TwoShutsLose(s1, x, y, gone);
    LostFrom(s, s1, ShutFd(ShutFd(s1, x), y), gone);
  }

  lemma OneEndLost(s: State, s1: State, x: Fd, gone: multiset<Fd>)
    requires s1.polls == s.polls && s1.infos == s.infos && gone == multiset{x}
    ensures Lost(s, ShutFd(s1, x), gone)
  {
    ShutFdLoses(s1, x);
    LostFrom(s, s1, ShutFd(s1, x), gone);
  }

  lemma DropPairLeaves(s: State, fd: Fd)
    ensures PairsAfter(s, DropPair(s, fd), SwitchWriteClosed(fd))
    ensures DropPair(s, fd).open == s.open - Ends(s.pairs, SwitchWriteClosed(fd))
  {
    var s1 := s.(pairs := PairsWithout(s.pairs, fd));
    var other := PartnerOf(s.pairs, fd);
    if other >= 0 {
      TwoShutsLeave(s1, other, fd);
    } else {
      ShutFdLeaves(s1, fd);
    }
  }

  lemma LostFrom(s: State, s1: State, s': State, gone: multiset<Fd>)
    requires s1.polls == s.polls && s1.infos == s.infos && Lost(s1, s', gone)
    ensures Lost(s, s', gone)
  {
    SameArrays(s, s1);
  }

  lemma TwoShutsLose(s: State, x: Fd, y: Fd, gone: multiset<Fd>)
    requires gone == multiset{x} + multiset{y}
    ensures Lost(s, ShutFd(ShutFd(s, x), y), gone)
  {
    ShutFdLoses(s, x);
    ShutFdLoses(ShutFd(s, x), y);
    LostBoth(s, ShutFd(s, x), ShutFd(ShutFd(s, x), y), multiset{x}, multiset{y});
  }

  lemma TwoShutsLeave(s: State, x: Fd, y: Fd)
    ensures var s' := ShutFd(ShutFd(s, x), y);
            && s'.pairs == (if s.polls != [] && s'.polls == [] then [] else s.pairs)
            && s'.open == s.open - {x, y}
  {
    ShutFdLeaves(s, x);
    ShutFdLeaves(ShutFd(s, x), y);
  }

  lemma TwoDelsLose(s: State, x: Fd, y: Fd)
    ensures var s' := DelFd(DelFd(s, x), y);
            && Lost(s, s', multiset{x} + multiset{y})
            && s'.pairs == (if s.polls != [] && s'.polls == [] then [] else s.pairs)
            && s'.open == s.open
  {
    var s1 := DelFd(s, x);
    DelFdLoses(s, x);
    DelFdLoses(s1, y);
    LostBoth(s, s1, DelFd(s1, y), multiset{x}, multiset{y});
  }

  lemma DropReaderLoses(s: State, fd: Fd, at: nat)
    requires FirstPair(s.pairs, fd) == Some(at)
    ensures var s' := DropReader(s, fd, s.pairs[at].dest);
            var reply := SwitchReadClosed(fd);
            Lost(s, s', Leaving(s.pairs, reply)) && PairsAfter(s, s', reply) && s'.open == s.open
  {
    var dest := s.pairs[at].dest;
    TwoDelsLose(s, dest, fd);
    SameArrays(DelFd(DelFd(s, dest), fd), DropReader(s, fd, dest));
  }

  // ----- the entries after a wait -----

  /** Same descriptors and types; the flags may differ. */
  ghost predicate SameConnections(s: State, s': State) {
    && |s'.polls| == |s.polls|
    && forall k :: 0 <= k < |s.polls| ==> s'.polls[k].fd == s.polls[k].fd && s'.infos[k].t == s.infos[k].t
  }

  lemma SameTypes(s: State, s': State)
    requires SameConnections(s, s')
    ensures Keys(s') == Keys(s) && Types(s') == Types(s) && LostTypes(s, s', multiset{})
  {
    assert Keys(s') == Keys(s) && Types(s') == Types(s);
    LosesAbsent(Keys(s), Types(s), multiset{});
  }

  /** Which entries there are, by what the wait reports: one has joined at the
      end, or those of Leaving have left, or none. */
  ghost predicate EntriesAfter(s: State, env: Env, s': State, reply: Reply) {
    match reply
    case Connected(_) =>
      env.accepted.Some? && Keys(s') == Keys(s) + [env.accepted.value] && Types(s') == Types(s) + [IPC]
    case AcceptFailed(_) => Keys(s') == Keys(s) + [-1] && Types(s') == Types(s) + [IPC]
    case _ => LostTypes(s, s', Leaving(s.pairs, reply))
  }

  ghost predicate ContextAfter(s: State, env: Env, s': State, reply: Reply) {
    EntriesAfter(s, env, s', reply) && PairsAfter(s, s', reply) && OpenAfter(s, env, s', reply)
  }

  lemma SwitchedReadEntries(s: State, i: nat, env: Env)
    requires i < |s.polls|
    ensures var (s', reply) := SwitchedRead(s, i, env.recv);
            ContextAfter(s, env, s', reply)
  {
    var fd := s.polls[i].fd;
    var at := FirstPair(s.pairs, fd);
    if at.Some? && !env.recv.Arrived? {
      DropReaderLoses(s, fd, at.value);
    } else {
      SameTypes(s, SwitchedRead(s, i, env.recv).0);
    }
  }

  lemma AcceptEntries(s: State, i: nat, env: Env)
    requires i < |s.polls|
    ensures var (s', reply) := Accept(s, i, env.accepted);
            ContextAfter(s, env, s', reply)
  {
    var client := if env.accepted.Some? then env.accepted.value else -1;
    var s' := Accept(s, i, env.accepted).0;
    assert Keys(s') == Keys(s) + [client];
    assert Types(s') == Types(s) + [IPC];
  }

  lemma DisconnectEntries(s: State, i: nat, env: Env, reply: Reply)
    requires i < |s.polls| && s.infos[i].t == IPC
    requires reply in {Disconnected(s.polls[i].fd), ReadFailed(s.polls[i].fd)}
    ensures ContextAfter(s, env, Disconnect(s, i), reply)
  {
    DelLoses(s, i);
    SameArrays(Del(s, i), Disconnect(s, i));
  }

  lemma HandleReadableEntries(s: State, i: nat, env: Env)
    requires i < |s.polls|
    ensures var (s', reply) := HandleReadable(s, i, env);
            ContextAfter(s, env, s', reply)
  {
    match s.infos[i].t
    case SERVER => AcceptEntries(s, i, env);
    case SWITCHED => SwitchedReadEntries(s, i, env);
    case EXTERNAL => SameTypes(s, s);
    case IPC =>
      if env.recv.Arrived? {
        SameTypes(s, s);
      } else {
        DisconnectEntries(s, i, env, HandleReadable(s, i, env).1);
      }
  }

  /** The flags do not matter. */
  lemma AfterFlags(s: State, flagged: State, env: Env, s': State, reply: Reply)
    requires SameConnections(s, flagged) && flagged.pairs == s.pairs && flagged.open == s.open
    requires ContextAfter(flagged, env, s', reply)
    ensures ContextAfter(s, env, s', reply)
  {
    SameTypes(s, flagged);
  }

  /** Neither does the queue. */
  lemma NothingLeaves(s: State, env: Env, s': State, reply: Reply)
    requires SameConnections(s, s') && s'.pairs == s.pairs && s'.open == s.open
    requires Leaving(s.pairs, reply) == multiset{} && Ends(s.pairs, reply) == {}
    requires !reply.Connected? && !reply.AcceptFailed? && !reply.HungUp?
    requires !reply.SwitchReadClosed? && !reply.SwitchWriteClosed?
    ensures ContextAfter(s, env, s', reply)
  {
    SameTypes(s, s');
  }

  lemma HandleWritableEntries(s: State, i: nat, env: Env)
    requires i < |s.polls|
    ensures var (s', reply) := HandleWritable(s, i, env.written);
            ContextAfter(s, env, s', reply)
  {
    var fd := s.polls[i].fd;
    var scan := ScanFor(s.tx, fd);
    var (s', reply) := HandleWritable(s, i, env.written);
    if reply.SwitchWriteClosed? {
      var s1 := Unqueued(s, scan);
      assert s' == DropPair(s1, fd) && reply == SwitchWriteClosed(fd);
      DropPairLoses(s1, fd);
      DropPairLeaves(s1, fd);
      AfterFlags(s, s1, env, s', reply);
    } else {
      NothingLeaves(s, env, s', reply);
    }
  }

  lemma HandleEntries(s: State, r: Revents, i: nat, env: Env)
    requires i < |s.polls|
    ensures var (s', reply) := Handle(s, r, i, env);
            ContextAfter(s, env, s', reply)
  {
    var (s', reply) := Handle(s, r, i, env);
    if r.rd || s.infos[i].moreToRead {
      var read := s.(infos := s.infos[i := s.infos[i].(moreToRead := false)]);
      HandleReadableEntries(read, i, env);
      AfterFlags(s, read, env, s', reply);
    } else if r.wr {
      var unarmed := s.(polls := s.polls[i := s.polls[i].(wr := false)]);
      HandleWritableEntries(unarmed, i, env);
      AfterFlags(s, unarmed, env, s', reply);
    } else if r.hup {
      SameTypes(s, Close(s, i));
    } else {
      NothingLeaves(s, env, s', reply);
    }
  }

  /** What a wait does to the entries, the pairs and the open descriptors, from
      any state and for every answer of the system. */
  lemma WaitRefines(s: State, timer: int, env: Env)
    requires env.poll.Some? ==> |env.poll.value| == |s.polls|
    ensures ContextAfter(s, env, Wait(s, timer, env).0, Wait(s, timer, env).1)
  {
    var armed := Arm(s);
    var (s', reply) := Wait(s, timer, env);
    var first := if env.poll.Some? then FirstReady(armed, env.poll.value, 0) else None;
    if first.Some? && !(Nothing(env.poll.value) && PollTimeout(s, timer) != 0) {
      HandleEntries(armed, env.poll.value[first.value], first.value, env);
      AfterFlags(s, armed, env, s', reply);
    } else {
      NothingLeaves(s, env, s', reply);
    }
  }

  /** Where descriptors are distinct, the same on the map of connections. */
  lemma WaitOnMap(s: State, timer: int, env: Env)
    requires Distinct(Keys(s)) && (env.poll.Some? ==> |env.poll.value| == |s.polls|)
    ensures var (s', reply) := Wait(s, timer, env);
            match reply
            case Connected(_) => env.accepted.Some? && Connections(s') == Connections(s)[env.accepted.value := IPC]
            case AcceptFailed(_) => Connections(s') == Connections(s)[-1 := IPC]
            case _ => Connections(s') == Connections(s) - Ends(s.pairs, reply)
  {
    WaitRefines(s, timer, env);
    var (s', reply) := Wait(s, timer, env);
    if reply.Connected? {
      AppendIsInsertion(Keys(s), Types(s), env.accepted.value, IPC);
    } else if reply.AcceptFailed? {
      AppendIsInsertion(Keys(s), Types(s), -1, IPC);
    } else {
      LeavingEnds(s.pairs, reply);
      LosesIsRemoval(Keys(s), Types(s), Keys(s'), Types(s'), Leaving(s.pairs, reply), Ends(s.pairs, reply));
    }
  }
}
