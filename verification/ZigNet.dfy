/** A context seen from outside: one map from descriptor to connection record
    instead of two arrays with moving indices, and a queue without an order.
    Every operation is shown to be a simple change of that view. */
module ZigNet {
  import opened SendQueue
  import opened ZigTypes
  import opened SwitchTable
  import opened ZigState
  import opened ZigInvariant
  import opened Wrappers
  import opened Bytes
  import SlotMap
  import ZigWire

  datatype Slot = Slot(conn: Connection, rd: bool, wr: bool)

  function SlotAt(s: State, i: nat): Slot
    requires i < |s.polls|
  {
    Slot(s.conns[i], s.polls[i].rd, s.polls[i].wr)
  }

  function Fds(s: State): (r: seq<Fd>)
    ensures |r| == |s.polls|
  {
    seq(|s.polls|, i requires 0 <= i < |s.polls| => s.polls[i].fd)
  }

  function Slots(s: State): (r: seq<Slot>)
    ensures |r| == |s.polls|
  {
    seq(|s.polls|, i requires 0 <= i < |s.polls| => SlotAt(s, i))
  }

  ghost function Tracked(s: State): map<Fd, Slot> {
    SlotMap.ToMap(Fds(s), Slots(s))
  }

  lemma TrackedAt(s: State, i: nat)
    requires Distinct(s.polls) && i < |s.polls|
    ensures s.polls[i].fd in Tracked(s) && Tracked(s)[s.polls[i].fd] == SlotAt(s, i)
  {
    SlotMap.ValueAt(Fds(s), Slots(s), i);
  }

  lemma TrackedIff(s: State, fd: Fd)
    ensures fd in Tracked(s) <==> IsTracked(s, fd)
    ensures fd in Tracked(s) <==> IndexOf(s.polls, fd).Some?
  {
    SlotMap.KeysOf(Fds(s), Slots(s));
    if IsTracked(s, fd) {
      var i :| 0 <= i < |s.polls| && s.polls[i].fd == fd;
      assert Fds(s)[i] == fd;
    }
  }

  datatype Net = Net(tracked: map<Fd, Slot>, queue: multiset<Packet>, db: Table, open: set<Fd>)

  ghost function View(s: State): Net {
    Net(Tracked(s), multiset(s.tx), s.db, s.open)
  }

  /** after is before once the descriptors of fds are closed: they are no longer
      tracked nor open, their messages are gone, and nothing else has changed. */
  ghost predicate Forgets(before: Net, after: Net, fds: set<Fd>) {
    && after.tracked == before.tracked - fds
    && after.open == before.open - fds
    && after.db == before.db
    && forall m: Packet :: after.queue[m] == if m.fd in fds then 0 else before.queue[m]
  }

  // ----- the arrays refine the map -----

  lemma TrackRefines(s: State, c: Connection, fd: Fd)
    ensures View(Track(s, c, fd)) == View(s).(tracked := Tracked(s)[fd := Slot(c, true, false)])
  {
    var s' := Track(s, c, fd);
    assert Fds(s') == Fds(s) + [fd];
    assert Slots(s') == Slots(s) + [Slot(c, true, false)];
    SlotMap.AppendIsInsertion(Fds(s), Slots(s), fd, Slot(c, true, false));
  }

  lemma RemovedRefines(s: State, i: nat)
    requires Distinct(s.polls) && i < |s.polls|
    ensures Forgets(View(s), View(Removed(s, i)), {s.polls[i].fd})
  {
    var s' := Removed(s, i);
    PurgeExact(s.tx, s.polls[i].fd);
    assert Fds(s') == SwapRemove(Fds(s), i);
    assert Slots(s') == SwapRemove(Slots(s), i);
    SlotMap.SwapRemoveIsRemoval(Fds(s), Slots(s), i);
  }

  lemma SafeCloseRefines(s: State, fd: Fd, loose: set<Fd>)
    requires InvExcept(s, loose)
    ensures Distinct(SafeCloseFd(s, fd).polls)
    ensures InvExcept(SafeCloseFd(s, fd), loose - {fd})
    ensures Forgets(View(s), View(SafeCloseFd(s, fd)), {fd} * View(s).tracked.Keys)
  {
    SafeCloseKeeps(s, fd, loose);
    var found := IndexOf(s.polls, fd);
    assert fd in View(s).tracked.Keys <==> found.Some? by { TrackedIff(s, fd); }
    if found.Some? {
      assert Forgets(View(s), View(Removed(s, found.value)), {fd}) by { RemovedRefines(s, found.value); }
      assert {fd} * View(s).tracked.Keys == {fd};
    } else {
      ForgetsNothing(View(s), {fd} * View(s).tracked.Keys);
    }
  }

  lemma ForgetsNothing(n: Net, none: set<Fd>)
    requires none == {}
    ensures Forgets(n, n, none)
  {
  }

  /** A pair dies together: the tracked ends of the pair, and only they, are
      closed, and the table loses the two entries. */
  lemma TeardownRefines(s: State, fd: Fd)
    requires Inv(s) && fd in s.db
    ensures Teardown(s, fd).Done? && Inv(Teardown(s, fd).s)
    ensures Forgets(View(s).(db := Nuke(s.db, fd)), View(Teardown(s, fd).s), {fd, s.db[fd]} * View(s).tracked.Keys)
  {
    TeardownKeeps(s, fd);
    var s0 := s.(db := Nuke(s.db, fd));
    SameArrays(s, s0);
    TeardownCloses(s0, fd, s.db[fd]);
  }

  lemma SameArrays(s: State, s': State)
    requires s'.polls == s.polls && s'.conns == s.conns
    ensures Tracked(s') == Tracked(s)
  {
    assert Fds(s') == Fds(s) && Slots(s') == Slots(s);
  }

  lemma TeardownCloses(s: State, fd: Fd, dest: Fd)
    requires InvExcept(s, {fd, dest})
    ensures Forgets(View(s), View(SafeCloseFd(SafeCloseFd(s, fd), dest)), {fd, dest} * View(s).tracked.Keys)
  {
    var s1 := SafeCloseFd(s, fd);
    var a, b, c := View(s), View(s1), View(SafeCloseFd(s1, dest));
    assert Forgets(a, b, {fd} * a.tracked.Keys) && InvExcept(s1, {fd, dest} - {fd}) by {
      SafeCloseRefines(s, fd, {fd, dest});
    }
    assert Forgets(b, c, {dest} * b.tracked.Keys) by {
      SafeCloseRefines(s1, dest, {fd, dest} - {fd});
    }
    TwoCloses(a, b, c, fd, dest);
  }

  lemma TwoCloses(a: Net, b: Net, c: Net, x: Fd, y: Fd)
    requires Forgets(a, b, {x} * a.tracked.Keys)
    requires Forgets(b, c, {y} * b.tracked.Keys)
    ensures Forgets(a, c, {x, y} * a.tracked.Keys)
  {
  }

  /** The case the source is written for: both ends tracked, mirrored entries.
      Afterwards neither end is tracked, open, in the table or addressed by a
      queued message; everything else is as it was. */
  lemma PairDiesTogether(s: State, fd: Fd)
    requires Inv(s) && Symmetric(s.db) && fd in s.db
    requires IsTracked(s, fd) && IsTracked(s, s.db[fd])
    ensures Teardown(s, fd).Done?
    ensures var s' := Teardown(s, fd).s;
            var pair := {fd, s.db[fd]};
            && Distinct(s'.polls)
            && Tracked(s') == Tracked(s) - pair
            && s'.open == s.open - pair
            && s'.db == s.db - pair
            && (forall g :: g in pair ==> !HasFor(s'.tx, g))
            && (forall m: Packet :: m.fd !in pair ==> multiset(s'.tx)[m] == multiset(s.tx)[m])
  {
    var pair := {fd, s.db[fd]};
    assert Teardown(s, fd).Done? by { TeardownKeeps(s, fd); }
    var s' := Teardown(s, fd).s;
    assert Distinct(s'.polls) by { TeardownKeeps(s, fd); }
    assert s'.db == s.db - pair by {
      TableAfterTeardown(s, fd);
      NukeIsRemoval(s.db, fd);
    }
    assert Forgets(View(s).(db := s'.db), View(s'), pair * View(s).tracked.Keys) by {
      TableAfterTeardown(s, fd);
      TeardownRefines(s, fd);
    }
    PairForgotten(s, s', pair);
  }

  lemma PairForgotten(s: State, s': State, pair: set<Fd>)
    requires forall fd :: fd in pair ==> IsTracked(s, fd)
    requires Forgets(View(s).(db := s'.db), View(s'), pair * View(s).tracked.Keys)
    ensures Tracked(s') == Tracked(s) - pair && s'.open == s.open - pair
    ensures forall g :: g in pair ==> !HasFor(s'.tx, g)
    ensures forall m: Packet :: m.fd !in pair ==> multiset(s'.tx)[m] == multiset(s.tx)[m]
  {
    forall fd | fd in pair ensures fd in Tracked(s) {
      TrackedIff(s, fd);
    }
    assert pair * View(s).tracked.Keys == pair;
    forall k | 0 <= k < |s'.tx| ensures s'.tx[k].fd !in pair {
      assert multiset(s'.tx)[s'.tx[k]] > 0;
    }
  }

  // ----- add_switch -----

  ghost function AsSwitched(n: map<Fd, Slot>, fd: Fd): map<Fd, Slot>
    requires fd in n
  {
    n[fd := n[fd].(conn := n[fd].conn.(t := SWITCHED))]
  }

  /** add_switch succeeds exactly when both descriptors are tracked. Then both
      connections are switched and each forwards to the other; every other slot,
      path, flag, entry, message and descriptor is as before. */
  lemma AddSwitchRefines(s: State, a: Fd, b: Fd)
    requires Distinct(s.polls)
    ensures if IsTracked(s, a) && IsTracked(s, b) then
              && a in Tracked(s) && b in Tracked(s) && AddSwitch(s, a, b).Done?
              && var s' := AddSwitch(s, a, b).s;
                 && View(s') == View(s).(tracked := AsSwitched(AsSwitched(Tracked(s), a), b),
                                         db := s.db[a := b][b := a])
                 && s'.polls == s.polls && s'.tx == s.tx && s'.log == s.log
            else AddSwitch(s, a, b) == Failed(s, IndexNotFound)
  {
    TrackedIff(s, a);
    TrackedIff(s, b);
    if IsTracked(s, a) && IsTracked(s, b) {
      var i, j := IndexOf(s.polls, a).value, IndexOf(s.polls, b).value;
      var s1 := s.(conns := Switched(s.conns, i));
      SwitchedRefines(s, s1, i);
      SwitchedRefines(s1, AddSwitch(s, a, b).s, j);
    }
  }

  lemma SwitchedRefines(s: State, s': State, i: nat)
    requires Distinct(s.polls) && i < |s.polls| && s'.polls == s.polls && s'.conns == Switched(s.conns, i)
    ensures s.polls[i].fd in Tracked(s) && Tracked(s') == AsSwitched(Tracked(s), s.polls[i].fd)
  {
    var slot := SlotAt(s, i).(conn := s.conns[i].(t := SWITCHED));
    TrackedAt(s, i);
    assert Fds(s') == Fds(s);
    assert Slots(s') == Slots(s)[i := slot];
    SlotMap.UpdateIsUpdate(Fds(s), Slots(s), i, slot);
  }

  // ----- refusals -----

  /** Which calls are refused, with which error; a refusal changes nothing. */
  lemma Refusals(s: State, i: nat, fd: Fd, recv: Recv)
    ensures Close(s, i) == Failed(s, IndexOutOfBounds) <==> i >= |s.polls|
    ensures CloseFd(s, fd) == Failed(s, IndexNotFound) <==> !IsTracked(s, fd)
    ensures Read(s, i, recv) == Failed(s, IndexOutOfBounds) <==> i >= |s.polls|
    ensures Read(s, i, recv) == Failed(s, MessageOnServer) <==> i < |s.polls| && s.conns[i].t == SERVER
    ensures !Read(s, i, recv).Crash? && Read(s, i, recv).s == s
    ensures i < |s.polls| && s.conns[i].t != SERVER ==>
              && (Read(s, i, recv) == Failed(s, ReadFailed) <==> !recv.Arrived?)
              && (recv.Arrived? && |recv.bytes| <= ZigWire.HEADER_SIZE <==> Read(s, i, recv) == Done(s, None))
              && (Read(s, i, recv) == Failed(s, WrongMessageLength) <==>
                    recv.Arrived? && |recv.bytes| > ZigWire.HEADER_SIZE
                    && GetBig32(recv.bytes) > ZigWire.MAX_MESSAGE_SIZE - ZigWire.HEADER_SIZE)
  {
    TrackedIff(s, fd);
    if recv.Arrived? {
      ZigWire.AcceptedPackets(recv.bytes);
    }
  }
}
