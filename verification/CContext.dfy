/** The C context: two reallocated arrays, the queue and the pair table, with
    their sizes kept beside them. Each method is proved to do what the function
    of the same name in CState does. */
module CContext {
  import opened Wrappers
  import opened SendQueue
  import opened Bytes
  import opened CSwitch
  import opened CState
  import CInvariant
  import CTimer

  datatype DelResult = DELETED | EMPTY_LIST | CANNOT_FIND_CLIENT

  class Context {
    var cinfos: seq<Info>
    var pollfd: seq<PollFd>
    var size: nat
    var hasArrays: bool  // cinfos and pollfd are not NULL
    var messages: seq<Queued>
    var txSize: nat
    var open: set<Fd>  // the descriptor table of the process
    const switchdb: Switchings

    /** Sizes agree with the arrays, indices fit the 32-bit parameters they are
        passed through, and whatever is queued is for a tracked descriptor. */
    ghost predicate Valid()
      reads this, switchdb
    {
      && size == |cinfos| == |pollfd| <= TWO_32
      && (hasArrays <==> size > 0)
      && txSize == |messages| <= TWO_32
      && switchdb.Valid()
      && CInvariant.Good(Raw())
    }

    ghost function Raw(): State
      requires |cinfos| == |pollfd|
      reads this, switchdb
    {
      RawState(cinfos, pollfd, messages, switchdb.collection, open)
    }

    ghost function Now(): State
      requires Valid()
      reads this, switchdb
    {
      Raw()
    }

    constructor ()
      ensures Valid() && Now() == EMPTY && fresh(switchdb)
    {
      cinfos, pollfd, size, hasArrays := [], [], 0, false;
      messages, txSize, open := [], 0, {};
      switchdb := new Switchings();
    }

    /** ipc_ctx_new_alloc: one zeroed entry more. */
    method NewAlloc()
      requires Valid() && size < TWO_32
      modifies this
      ensures Valid() && Now() == Add(old(Now()), Info(IPC, false), PollFd(0, false, false))
    {
      size := size + 1;
      if size == 1 && !hasArrays {
        cinfos, pollfd, hasArrays := [Info(IPC, false)], [PollFd(0, false, false)], true;
      } else {
        cinfos := cinfos + [Info(IPC, false)];
        pollfd := pollfd + [PollFd(0, false, false)];
      }
      CInvariant.StepKeeps(old(Now()), CInvariant.AddEntry(Info(IPC, false), PollFd(0, false, false)));
    }

    /** ipc_add: the new entry is overwritten. */
    method AddEntry(info: Info, p: PollFd)
      requires Valid() && size < TWO_32
      modifies this
      ensures Valid() && Now() == Add(old(Now()), info, p)
    {
      NewAlloc();
      cinfos := cinfos[size - 1 := info];
      pollfd := pollfd[size - 1 := p];
      assert Raw() == Add(old(Now()), info, p);
      CInvariant.StepKeeps(old(Now()), CInvariant.AddEntry(info, p));
    }

    /** ipc_messages_del; the index is a 32-bit parameter. */
    method MessagesDel(index: nat)
      requires index < |messages| == txSize && index < TWO_32
      modifies this`messages, this`txSize
      ensures messages == SwapRemove(old(messages), index) && txSize == |messages|
    {
      txSize := txSize - 1;
      if txSize == 0 {
        messages := [];
      } else {
        messages := messages[index := messages[txSize]];
        messages := messages[..txSize];
      }
      assert messages == SwapRemove(old(messages), index);
    }

    /** ipc_remove_messages_for_fd: the index is a size_t decremented before it
        is incremented again, so at index 0 it wraps both ways. */
    method RemoveMessagesForFd(fd: Fd)
      requires txSize == |messages| <= TWO_32
      modifies this`messages, this`txSize
      ensures messages == Purge(old(messages), fd) && txSize == |messages|
    {
      var loopingCount := txSize;
      var i := 0;
      while i < loopingCount
        invariant loopingCount == txSize == |messages| <= TWO_32 && 0 <= i <= loopingCount
        invariant PurgeFrom(messages, fd, i) == Purge(old(messages), fd)
        decreases loopingCount - i
      {
        if messages[i].fd == fd {
          MessagesDel(i % TWO_32);
          WrapsBack(i);
          i := (i - 1) % TWO_64;
          loopingCount := loopingCount - 1;
        }
        i := (i + 1) % TWO_64;
      }
    }

    /** ipc_del. Freeing an emptied context frees the messages but leaves their
        count alone: that it is zero by then is part of Valid. */
    method DelIndex(index: nat) returns (r: DelResult)
      requires Valid()
      modifies this, switchdb
      ensures Valid()
      ensures r == if old(size) == 0 then EMPTY_LIST else if index >= old(size) then CANNOT_FIND_CLIENT else DELETED
      ensures Now() == if r == DELETED then Del(old(Now()), index) else old(Now())
    {
      if !hasArrays {
        return EMPTY_LIST;
      }
      if index >= size {
        return CANNOT_FIND_CLIENT;
      }
      ghost var before := Now();
      CInvariant.DelKeeps(before, index);
      RemoveMessagesForFd(pollfd[index].fd);
      size := size - 1;
      if size == 0 {
        CInvariant.LastDelEmptiesQueue(before);
        FreeAll();
        return DELETED;
      }
      cinfos := cinfos[index := cinfos[size]];
      pollfd := pollfd[index := pollfd[size]];
      cinfos := cinfos[..size];
      pollfd := pollfd[..size];
      assert cinfos == SwapRemove(before.infos, index) && pollfd == SwapRemove(before.polls, index);
      r := DELETED;
    }

    /** ipc_ctx_free. */
    method FreeAll()
      requires switchdb.Valid()
      modifies this, switchdb
      ensures cinfos == [] && pollfd == [] && size == 0 && !hasArrays
      ensures messages == [] && txSize == old(txSize)
      ensures switchdb.Valid() && switchdb.collection == [] && open == old(open)
    {
      cinfos, pollfd, size, hasArrays := [], [], 0, false;
      switchdb.collection, switchdb.size := [], 0;
      messages := [];
    }

    /** ipc_del_fd. */
    method DelDescriptor(fd: Fd) returns (r: DelResult)
      requires Valid()
      modifies this, switchdb
      ensures Valid() && Now() == DelFd(old(Now()), fd)
    {
      if !hasArrays {
        return EMPTY_LIST;
      }
      var i := 0;
      while i < size
        invariant i <= size && IndexFrom(pollfd, fd, i) == IndexFrom(pollfd, fd, 0)
      {
        if pollfd[i].fd == fd {
          r := DelIndex(i % TWO_32);
          return;
        }
        i := i + 1;
      }
      r := CANNOT_FIND_CLIENT;
    }

    /** ipc_write: true when the message has been queued. */
    method QueueMessage(m: Queued) returns (ok: bool)
      requires Valid() && txSize < TWO_32
      modifies this`pollfd, this`messages, this`txSize
      ensures Valid() && Now() == Write(old(Now()), m)
      ensures ok <==> IsTracked(old(pollfd), m.fd)
    {
      ghost var before := Now();
      var found := false;
      var i := 0;
      while i < size
        invariant i <= size == |pollfd| == |before.polls|
        modifies this`pollfd
        invariant found <==> exists k :: 0 <= k < i && before.polls[k].fd == m.fd
        invariant forall k :: 0 <= k < |pollfd| ==>
          pollfd[k] == if k < i && before.polls[k].fd == m.fd then before.polls[k].(wr := true) else before.polls[k]
      {
        if pollfd[i].fd == m.fd {
          pollfd := pollfd[i := pollfd[i].(wr := true)];
          found := true;
        }
        i := i + 1;
      }
      CInvariant.WriteKeeps(before, m);
      if !found {
        assert pollfd == before.polls;
        return false;
      }
      messages := messages + [m];
      txSize := txSize + 1;
      assert pollfd == Write(before, m).polls;
      ok := true;
    }

    // ----- ipc_wait_event -----

    method ArmAll()
      requires Valid()
      modifies this`pollfd
      ensures Valid() && Now() == Arm(old(Now()))
    {
      ghost var before := Now();
      var i := 0;
      while i < size
        invariant i <= size == |pollfd| == |before.polls|
        invariant forall k :: 0 <= k < |pollfd| ==>
          pollfd[k] == if k < i then PollFd(before.polls[k].fd, true, false) else before.polls[k]
      {
        pollfd := pollfd[i := pollfd[i].(rd := true, wr := false)];
        i := i + 1;
      }
      i := 0;
      while i < txSize
        invariant i <= txSize && size == |pollfd| == |before.polls|
        invariant forall k :: 0 <= k < |pollfd| ==>
          pollfd[k] == PollFd(before.polls[k].fd, true, HasFor(messages[..i], before.polls[k].fd))
      {
        ArmOne(i);
        i := i + 1;
      }
      assert messages[..i] == messages;
      assert pollfd == Arm(before).polls;
      CInvariant.FewerMessagesKeep(before, Arm(before));
    }

    method ArmOne(i: nat)
      requires i < |messages| && size == |pollfd|
      requires forall k :: 0 <= k < |pollfd| ==>
        pollfd[k].rd && (pollfd[k].wr <==> HasFor(messages[..i], pollfd[k].fd))
      modifies this`pollfd
      ensures |pollfd| == |old(pollfd)|
      ensures forall k :: 0 <= k < |pollfd| ==>
        pollfd[k] == PollFd(old(pollfd)[k].fd, true, HasFor(messages[..i + 1], old(pollfd)[k].fd))
    {
      ghost var before := pollfd;
      forall fd ensures HasFor(messages[..i + 1], fd) <==> HasFor(messages[..i], fd) || messages[i].fd == fd {
        assert forall k :: 0 <= k < i ==> messages[..i + 1][k] == messages[..i][k];
        assert messages[..i + 1][i] == messages[i];
      }
      var y := 0;
      while y < size
        invariant y <= size == |pollfd| == |before|
        invariant forall k :: 0 <= k < |pollfd| ==>
          pollfd[k] == before[k].(wr := HasFor(if k < y then messages[..i + 1] else messages[..i], before[k].fd))
      {
        if pollfd[y].fd == messages[i].fd {
          pollfd := pollfd[y := pollfd[y].(wr := true)];
        }
        y := y + 1;
      }
    }

    /** The scan whose condition is the size of the queue. */
    method ScanQueue(fd: Fd) returns (r: Scan)
      requires txSize == |messages|
      ensures r == ScanFor(messages, fd)
    {
      var i := 0;
      while txSize != 0
        invariant i <= |messages| && FirstFrom(messages, fd, i) == FirstFor(messages, fd)
        decreases |messages| - i
      {
        if i >= |messages| {
          return PastTheEnd;  // the C code reads on
        }
        if messages[i].fd == fd {
          return Found(i);
        }
        i := i + 1;
      }
      r := NothingQueued;
    }

    method Unqueue(scan: Scan)
      requires Valid() && (scan.Found? ==> scan.at < |messages|)
      modifies this`messages, this`txSize
      ensures Valid() && Now() == Unqueued(old(Now()), scan)
    {
      if scan.Found? {
        MessagesDel(scan.at % TWO_32);
        CInvariant.FewerMessagesKeep(old(Now()), Unqueued(old(Now()), scan));
      }
    }

    /** The pair leaves the table, then its two descriptors are closed and leave
        the context. */
    method RemovePair(fd: Fd)
      requires Valid()
      modifies this, switchdb
      ensures Valid() && Now() == DropPair(old(Now()), fd)
    {
      var other := switchdb.Del(fd);
      if other >= 0 {
        open := open - {other};
        var _ := DelDescriptor(other);
      }
      open := open - {fd};
      var _ := DelDescriptor(fd);
    }

    /** handle_writing_message and fd_switching_write. */
    method OnWritable(i: nat, written: bool) returns (r: Reply)
      requires Valid() && i < size
      modifies this, switchdb
      ensures Valid() && (Now(), r) == HandleWritable(old(Now()), i, written)
    {
      var fd := pollfd[i].fd;
      if cinfos[i].t == SWITCHED {
        if switchdb.size == 0 {
          return NoFdRecord;
        }
        var scan := ScanQueue(fd);
        if scan.PastTheEnd? {
          return OutOfBounds;
        }
        var side, _ := switchdb.GetSide(fd);
        if side == -1 {
          return NoFdRecord;
        }
        Unqueue(scan);
        if written {
          return Sent(i);
        }
        RemovePair(fd);
        return SwitchWriteClosed(fd);
      }
      var scan := ScanQueue(fd);
      if scan.PastTheEnd? {
        return OutOfBounds;
      }
      Unqueue(scan);
      r := Sent(i);
    }

    /** ipc_accept_add. */
    method AcceptAdd(i: nat, accepted: Option<Fd>) returns (r: Reply)
      requires Valid() && i < size < TWO_32
      modifies this
      ensures Valid() && (Now(), r) == Accept(old(Now()), i, accepted)
    {
      NewAlloc();
      match accepted {
        case None =>
          pollfd := pollfd[size - 1 := pollfd[size - 1].(fd := -1)];
          r := AcceptFailed(i);
        case Some(client) =>
          open := open + {client};
          pollfd := pollfd[size - 1 := pollfd[size - 1].(fd := client)];
          pollfd := pollfd[size - 1 := pollfd[size - 1].(rd := true)];
          cinfos := cinfos[size - 1 := cinfos[size - 1].(t := IPC)];
          r := Connected(size - 1);
      }
      assert Raw() == Accept(old(Now()), i, accepted).0;
      CInvariant.AcceptKeeps(old(Now()), i, accepted);
    }

    /** ipc_close: whatever close(2) answers, the context is the same. */
    method CloseIndex(index: nat)
      requires Valid() && index < size
      modifies this
      ensures Valid() && Now() == Close(old(Now()), index)
    {
      CInvariant.CloseKeeps(Now(), index);
      if cinfos[index].t != EXTERNAL {
        open := open - {pollfd[index].fd};
      }
      RemoveMessagesForFd(pollfd[index].fd);
    }

    /** ipc_close_all. */
    method CloseAll()
      requires Valid()
      modifies this
      ensures Valid() && Now() == CloseFrom(old(Now()), 0)
    {
      var i := 0;
      while i < size
        invariant Valid() && i <= size && CloseFrom(Now(), i) == CloseFrom(old(Now()), 0)
      {
        CloseIndex(i);
        i := i + 1;
      }
    }

    /** The end of handle_new_message when there is no message. */
    method Disconnect(i: nat)
      requires Valid() && i < size
      modifies this, switchdb
      ensures Valid() && Now() == CState.Disconnect(old(Now()), i)
    {
      PurgeTwice(messages, pollfd[i].fd);
      CloseIndex(i);
      var _ := DelIndex(i % TWO_32);
    }

    /** fd_switching_read. */
    method OnSwitchedReadable(i: nat, recv: Recv) returns (r: Reply)
      requires Valid() && i < size && txSize < TWO_32
      modifies this, switchdb
      ensures Valid() && (Now(), r) == SwitchedRead(old(Now()), i, recv)
    {
      if switchdb.size == 0 {
        return NoFdRecord;
      }
      var talking := pollfd[i].fd;
      var side, at := switchdb.GetSide(talking);
      if side == -1 {
        return NoFdRecord;
      }
      var sw := switchdb.collection[at];
      var dest := if side == 0 then sw.dest else sw.orig;
      match recv {
        case Arrived(id) =>
          var _ := QueueMessage(Message(dest, id));
          r := Forwarded(i);
        case _ =>
          var _ := DelDescriptor(sw.dest);
          var _ := DelDescriptor(talking);
          var _ := switchdb.Del(talking);
          r := SwitchReadClosed(talking);
      }
    }

    method OnReadable(i: nat, env: Env) returns (r: Reply)
      requires Valid() && i < size < TWO_32 && txSize < TWO_32
      modifies this, switchdb
      ensures Valid() && (Now(), r) == HandleReadable(old(Now()), i, env)
    {
      match cinfos[i].t {
        case SERVER => r := AcceptAdd(i, env.accepted);
        case SWITCHED => r := OnSwitchedReadable(i, env.recv);
        case EXTERNAL => r := External(i);
        case IPC =>
          var fd := pollfd[i].fd;
          match env.recv {
            case Unreadable =>
              Disconnect(i);
              r := ReadFailed(fd);
            case EndOfConnection =>
              Disconnect(i);
              r := Disconnected(fd);
            case Arrived(_) => r := Received(i);
          }
      }
    }

    /** One wait: arming, timer, then the first ready descriptor. tv1 and tv2 are
        the two readings of the clock around poll. */
    method WaitEvent(timer: CTimer.CInt, tv1: CTimer.Time, tv2: CTimer.Time, env: Env)
      returns (r: Reply, timer': CTimer.CInt)
      requires Valid() && size < TWO_32 && txSize < TWO_32
      requires env.poll.Some? ==> |env.poll.value| == size
      modifies this, switchdb
      ensures Valid() && (Now(), r) == Wait(old(Now()), timer, env)
      ensures timer' == if env.poll.None? then timer else CTimer.Charge(timer, CTimer.Elapsed(tv1, tv2))
    {
      ArmAll();
      var timeout: int := timer;
      var i := 0;
      while i < size
        invariant i <= size && timeout == timer
        invariant forall k :: 0 <= k < i ==> !cinfos[k].moreToRead
      {
        if cinfos[i].moreToRead {
          timeout := 0;
          break;
        }
        i := i + 1;
      }
      if env.poll == None {
        return PollError, timer;
      }
      var revents := env.poll.value;
      var elapsed := CTimer.Elapsed(tv1, tv2);
      timer' := if elapsed >= timer then 0 else CTimer.Int32(timer - elapsed);
      if Nothing(revents) && timeout != 0 {
        return Timeout, timer';
      }
      r := FirstReadyEntry(revents, env);
    }

    method FirstReadyEntry(revents: seq<Revents>, env: Env) returns (r: Reply)
      requires Valid() && |revents| == size < TWO_32 && txSize < TWO_32
      modifies this, switchdb
      ensures Valid()
      ensures (Now(), r) == match FirstReady(old(Now()), revents, 0)
                            case None => (old(Now()), NothingReady)
                            case Some(k) => Handle(old(Now()), revents[k], k, env)
    {
      ghost var armed := Now();
      var i := 0;
      while i < size
        invariant Valid() && Now() == armed && i <= size == |revents| < TWO_32 && txSize < TWO_32
        invariant FirstReady(armed, revents, i) == FirstReady(armed, revents, 0)
      {
        if revents[i].rd || cinfos[i].moreToRead {
          cinfos := cinfos[i := cinfos[i].(moreToRead := false)];
          CInvariant.FewerMessagesKeep(armed, Raw());
          r := OnReadable(i, env);
          return;
        }
        if revents[i].wr {
          pollfd := pollfd[i := pollfd[i].(wr := false)];
          CInvariant.FewerMessagesKeep(armed, Raw());
          r := OnWritable(i, env.written);
          return;
        }
        if revents[i].hup {
          CloseIndex(i);
          return HungUp(i);
        }
        if revents[i].err {
          return DescriptorError(i);
        }
        if revents[i].nval {
          return DescriptorError(i);
        }
        i := i + 1;
      }
      r := NothingReady;
    }
  }

  /** Closing purges the messages, and deleting purges again. */
  lemma PurgeTwice(tx: seq<Queued>, fd: Fd)
    ensures Purge(Purge(tx, fd), fd) == Purge(tx, fd)
  {
    PurgeExact(tx, fd);
    forall k | 0 <= k < |Purge(tx, fd)| ensures Purge(tx, fd)[k].fd != fd {
      CInvariant.PurgeKeepsMembers(tx, fd, k);
    }
    NothingToPurge(Purge(tx, fd), fd, 0);
  }

  lemma {:induction false} NothingToPurge(tx: seq<Queued>, fd: Fd, i: nat)
    requires i <= |tx| && forall k :: 0 <= k < |tx| ==> tx[k].fd != fd
    ensures PurgeFrom(tx, fd, i) == tx
    decreases |tx| - i
  {
    if i == |tx| {
    } else {
      NothingToPurge(tx, fd, i + 1);
    }
  }

  /** A size_t decremented and incremented again. */
  lemma WrapsBack(i: nat)
    requires i < TWO_64
    ensures ((i - 1) % TWO_64 + 1) % TWO_64 == i
  {
  }
}
