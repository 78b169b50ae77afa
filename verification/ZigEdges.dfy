/** Where the Zig event loop does not do what one would expect, each time with
    the exact condition or a concrete run. */
module ZigEdges {
  import opened Wrappers
  import opened SendQueue
  import opened Bytes
  import opened ZigTypes
  import opened SwitchTable
  import opened ZigState
  import opened ZigInvariant
  import opened ZigNet
  import opened ZigWait
  import opened ZigRuns
  import ZigSwitch
  import ZigWire

  // ----- forwarding -----

  /** What a switched descriptor does with whatever it receives: the decoded
      packet is queued for the partner, or the pair goes and nothing is queued. */
  lemma ForwardedOrTornDown(s: State, i: nat, bytes: seq<Byte>)
    requires Inv(s) && i < |s.polls| && s.conns[i].t == SWITCHED
    ensures var fd := s.polls[i].fd;
            var got := Take(bytes, ZigWire.SWITCH_BUFFER_SIZE);
            var o := SwitchedRead(s, i, Arrived(bytes));
            && fd in s.db && o.Done?
            && (if ZigWire.Fits(got) then
                  o.s == Schedule(s, Message(s.db[fd], ZigWire.FramePrefix(got)[ZigWire.HEADER_SIZE..]))
                else
                  && o.s.log.queued == s.log.queued
                  && PairGone(View(s), fd, View(o.s))
                  && o.value.t == if |got| < ZigWire.HEADER_SIZE then DISCONNECTION else ERROR)
  {
    var fd := s.polls[i].fd;
    var got := Take(bytes, ZigWire.SWITCH_BUFFER_SIZE);
    var event := ZigSwitch.HandleEventRead(s.db, i, fd, Arrived(bytes));
    ZigSwitch.SwitchedEvent(s.db, i, fd, Arrived(bytes));
    if ZigWire.Fits(got) {
      assert SwitchedRead(s, i, Arrived(bytes)) == Done(Schedule(s, event.m.value), event);
    } else {
      assert SwitchedRead(s, i, Arrived(bytes)) == TeardownThen(s, fd, event);
      TeardownExplained(s, fd);
      TeardownQueuesNothing(s, fd);
    }
  }

  lemma TeardownQueuesNothing(s: State, fd: Fd)
    requires fd in s.db
    ensures Teardown(s, fd).Done? && Teardown(s, fd).s.log.queued == s.log.queued
    ensures Teardown(s, fd).s.log.handed == s.log.handed
  {
  }

  /** The type of the connection decides which writer, hence which buffer, the
      first message for a slot goes through. */
  function WrittenAt(s: State, i: nat, m: Packet): Delivery
    requires i < |s.polls|
  {
    if s.conns[i].t == SWITCHED then SwitchedDelivery(m) else PlainDelivery(s.polls[i].fd, m)
  }

  lemma OneMessageHanded(s: State, i: nat, env: Env)
    requires Inv(s) && i < |s.polls| && HasFor(s.tx, s.polls[i].fd)
    ensures var m := s.tx[FirstFor(s.tx, s.polls[i].fd).value];
            && !HandleWrite(s, i, env).Crash?
            && HandleWrite(s, i, env).s.log.handed == s.log.handed + [WrittenAt(s, i, m)]
  {
    if s.conns[i].t == SWITCHED {
      OneSwitchedHanded(s, i, FirstFor(s.tx, s.polls[i].fd).value, env.sent);
    }
  }

  lemma OneSwitchedHanded(s: State, i: nat, k: nat, sent: bool)
    requires i < |s.polls| && k < |s.tx| && s.tx[k].fd == s.polls[i].fd && s.polls[i].fd in s.db
    ensures var o := SwitchedWrite(Dequeued(s, i, k), i, s.tx[k], sent);
            !o.Crash? && o.s.log.handed == s.log.handed + [SwitchedDelivery(s.tx[k])]
  {
    var m := s.tx[k];
    var mid := Hand(Dequeued(s, i, k), SwitchedDelivery(m));
    TeardownQueuesNothing(mid, m.fd);
    assert SwitchedWrite(Dequeued(s, i, k), i, m, sent) ==
           if sent then Done(mid, ZigSwitch.HandleEventWrite(s.db, i, m, sent))
           else TeardownThen(mid, m.fd, ZigSwitch.HandleEventWrite(s.db, i, m, sent));
  }

  /** The bytes written for a packet got that was received by a switched
      descriptor: on a switched connection its whole frame and nothing after it,
      on any other the part of the frame that fits the smaller buffer of a
      Context, which is all of it exactly up to 99992 bytes of payload. */
  lemma ForwardedBytes(s: State, i: nat, env: Env, got: seq<Byte>)
    requires Inv(s) && i < |s.polls| && HasFor(s.tx, s.polls[i].fd)
    requires |got| <= ZigWire.SWITCH_BUFFER_SIZE && ZigWire.Fits(got)
    requires s.tx[FirstFor(s.tx, s.polls[i].fd).value].payload == ZigWire.FramePrefix(got)[ZigWire.HEADER_SIZE..]
    ensures var fd := s.polls[i].fd;
            var frame := ZigWire.FramePrefix(got);
            var m := Message(fd, frame[ZigWire.HEADER_SIZE..]);
            && !HandleWrite(s, i, env).Crash?
            && HandleWrite(s, i, env).s.log.handed == s.log.handed +
                 [if s.conns[i].t == SWITCHED then Delivery(fd, m, true, frame)
                  else Delivery(fd, m, false, Take(frame, ZigWire.MAX_MESSAGE_SIZE))]
            && (Take(frame, ZigWire.MAX_MESSAGE_SIZE) == frame
                <==> GetBig32(got) <= ZigWire.MAX_MESSAGE_SIZE - ZigWire.HEADER_SIZE)
  {
    OneMessageHanded(s, i, env);
    ZigWire.ForwardingTransparent(got);
    assert ZigWire.FramePrefix(got)[ZigWire.HEADER_SIZE..] == ZigWire.Decode(got).bytes;
  }

  /** A packet travels through the switch in two waits: what one descriptor has
      received is what is written to the descriptor in its table entry. */
  lemma Relayed(s: State, i: nat, j: nat, read: Env, r: Revents, write: Env, w: Revents)
    requires Inv(s) && i < |s.polls| && j < |s.polls| && s.conns[i].t == SWITCHED
    requires s.db[s.polls[i].fd] == s.polls[j].fd && !HasFor(s.tx, s.polls[j].fd)
    requires Decides(s, read, i, r) && r.rd && ZigSwitch.SwitchedIn(read.recv).Some?
    requires Decides(s, write, j, w) && !w.rd && w.wr
    ensures var dest := s.polls[j].fd;
            var frame := ZigSwitch.SwitchedIn(read.recv).value;
            var m := Message(dest, frame[ZigWire.HEADER_SIZE..]);
            && Wait(s, read).Done? && Wait(s, read).s == Schedule(Arm(s), m)
            && !Wait(Wait(s, read).s, write).Crash?
            && Wait(Wait(s, read).s, write).s.log.handed == s.log.handed +
                 [if s.conns[j].t == SWITCHED then Delivery(dest, m, true, frame)
                  else Delivery(dest, m, false, Take(frame, ZigWire.MAX_MESSAGE_SIZE))]
  {
    var got := Take(read.recv.bytes, ZigWire.SWITCH_BUFFER_SIZE);
    var m := Message(s.polls[j].fd, ZigWire.FramePrefix(got)[ZigWire.HEADER_SIZE..]);
    var queued := Schedule(Arm(s), m);
    assert Inv(Arm(s)) by { ArmKeeps(s); }
    assert Wait(s, read).Done? && Wait(s, read).s == queued by {
      DecidedBy(s, read, i, r);
      ForwardedOrTornDown(Arm(s), i, read.recv.bytes);
    }
    assert Inv(Arm(queued)) by {
      ScheduleKeeps(Arm(s), m);
      ArmKeeps(queued);
    }
    LastIsFirst(s.tx, m);
    DecidedBy(queued, write, j, w);
    ForwardedBytes(Arm(queued), j, write, got);
  }

  lemma LastIsFirst(tx: seq<Packet>, m: Packet)
    requires !HasFor(tx, m.fd)
    ensures FirstFor(tx + [m], m.fd) == Some(|tx|)
  {
    assert (tx + [m])[|tx|] == m;
    assert forall k :: 0 <= k < |tx| ==> (tx + [m])[k] == tx[k] && tx[k].fd != m.fd;
  }

  // ----- external descriptors -----

  /** What arrives on a descriptor given to add_external is left to the program:
      the wait names it and changes nothing. */
  lemma ExternalIsReported(s: State, fd: Fd, recv: Recv)
    requires Inv(s) && Legal(s, AddExternal(fd))
    ensures var s1 := Step(s, AddExternal(fd)).s;
            var a := Ready(|s.polls| + 1, |s.polls|, READABLE, recv);
            && |s1.polls| == |s.polls| + 1 && Legal(s1, a)
            && Wait(s1, a.env) == Done(Arm(s1), Event(EXTERNAL_EVENT, |s.polls|, fd, None))
  {
    var s1 := Step(s, AddExternal(fd)).s;
    ReadyIsLegal(s1, |s.polls|, READABLE, recv);
    ZigWait.DecidedBy(s1, Ready(|s1.polls|, |s.polls|, READABLE, recv).env, |s.polls|, READABLE);
  }

  // ----- a message from one context to another -----

  /** A context that reads the packet another context has written reports the
      same payload exactly when it is 1 to 99992 bytes long; an empty payload is
      taken for a disconnection and costs the connection. */
  lemma EndToEnd(s: State, i: nat, env: Env, payload: seq<Byte>)
    requires Inv(s) && i < |s.polls| && s.conns[i].t == IPC
    requires env.recv == Arrived(ZigWire.ContextPacket(payload))
    ensures var fd := s.polls[i].fd;
            var o := HandleRead(s, i, env);
            && (o == Done(s, Event(MESSAGE_RX, i, fd, Some(Message(fd, payload))))
                <==> 1 <= |payload| <= ZigWire.MAX_MESSAGE_SIZE - ZigWire.HEADER_SIZE)
            && (payload == [] ==>
                  o.Done? && o.value.t == DISCONNECTION && !IsTracked(o.s, fd) && Forgets(View(s), View(o.s), {fd}))
  {
    ZigWire.DeliveryFaithful(payload);
    if payload == [] {
      ZigWire.DeliveryExact(payload);
      CloseKeeps(s, i);
      RemovedKeeps(s, i, {});
      RemovedRefines(s, i);
    }
  }

  // ----- which descriptor a disconnection names -----

  /** When a wait reads a disconnection on a plain connection, the event names the
      last descriptor of the arrays, which is the right one exactly when its slot
      is the last: otherwise the last connection has been moved into the slot
      before the event is built. */
  lemma DisconnectionOrigin(s: State, i: nat, env: Env, r: Revents)
    requires Inv(s) && i < |s.polls| && s.conns[i].t == IPC
    requires Decides(s, env, i, r) && r.rd && SaysGoodbye(env.recv)
    ensures var last := |s.polls| - 1;
            var o := Wait(s, env);
            && o.Done? && o.value == Event(DISCONNECTION, i, s.polls[last].fd, None)
            && !IsTracked(o.s, s.polls[i].fd)
            && (o.value.origin == s.polls[i].fd <==> i == last)
  {
    DecidedBy(s, env, i, r);
    ArmKeeps(s);
    CloseKeeps(Arm(s), i);
    RemovedKeeps(Arm(s), i, {});
  }

  // ----- what an event tells -----

  /** The change an event tells of, on the armed state: client is the descriptor
      the event's slot holds after a connection. */
  ghost function ToldBy(s: State, e: Event, client: Fd): Net {
    var n := View(s);
    match e.t
    case CONNECTION => Joined(n, client)
    case DISCONNECTION => if e.index < |s.polls| then View(Removed(s, e.index)) else n
    case SWITCH_RX => if e.m.Some? then n.(queue := n.queue + multiset{e.m.value}) else n
    case MESSAGE_TX => WithoutFirst(s, e.origin)
    case SWITCH_TX => WithoutFirst(s, e.origin)
    case _ => n
  }

  ghost function WithoutFirst(s: State, fd: Fd): Net {
    if fd in Tracked(s) && FirstFor(s.tx, fd).Some? then Taken(View(s), fd, s.tx[FirstFor(s.tx, fd).value]) else View(s)
  }

  /** An error or a disconnection of a switched descriptor. */
  ghost predicate OfSwitched(s: State, e: Event) {
    && e.t in {DISCONNECTION, ERROR}
    && e.index < |s.polls| && s.conns[e.index].t == SWITCHED && s.polls[e.index].fd == e.origin
  }

  /** env is possible and leads to e. */
  ghost predicate Reports(s: State, env: Env, e: Event) {
    Legal(s, WaitEvent(env)) && Wait(s, env).Done? && Wait(s, env).value == e
  }

  /** Without knowing what the system has answered, the event of a wait tells the
      whole change, except for errors and disconnections of switched descriptors. */
  lemma EventTells(s: State, env: Env, e: Event)
    requires Inv(s) && Reports(s, env, e) && !OfSwitched(s, e)
    ensures e.t == CONNECTION ==> e.index < |Wait(s, env).s.polls|
    ensures View(Wait(s, env).s)
            == ToldBy(Arm(s), e, if e.t == CONNECTION then Wait(s, env).s.polls[e.index].fd else 0)
  {
    ArmKeeps(s);
    if env.poll.Some? {
      WaitIsFirst(s, env);
      var first := FirstHandled(env.poll.value);
      if first.Some? {
        HandleTells(Arm(s), env.poll.value[first.value], first.value, env);
      }
    }
  }

  /** ToldBy for one handled entry. */
  ghost predicate Tells(s: State, o: Outcome<Event>) {
    o.Done? && !OfSwitched(s, o.value) ==>
      && (o.value.t == CONNECTION ==> o.value.index < |o.s.polls|)
      && View(o.s) == ToldBy(s, o.value, if o.value.t == CONNECTION then o.s.polls[o.value.index].fd else 0)
  }

  lemma HandleTells(s: State, r: Revents, i: nat, env: Env)
    requires Inv(s) && i < |s.polls| && Handled(r) && (r.wr ==> s.polls[i].wr)
    ensures Tells(s, Handle(s, r, i, env))
  {
    TrackedAt(s, i);
    if r.rd {
      ReadTells(s, i, env);
    } else if r.wr {
      WriteTells(s, i, env);
    } else if r.hup {
      CloseKeeps(s, i);
    }
  }

  lemma ReadTells(s: State, i: nat, env: Env)
    requires Inv(s) && i < |s.polls| && s.polls[i].fd in Tracked(s)
    ensures Tells(s, HandleRead(s, i, env))
  {
    match s.conns[i].t
    case SERVER => AcceptExplained(s, i, env);
    case SWITCHED => SwitchedReadTells(s, i, env);
    case EXTERNAL =>
    case IPC => PlainReadTells(s, i, env);
  }

  lemma SwitchedReadTells(s: State, i: nat, env: Env)
    requires Inv(s) && i < |s.polls| && s.conns[i].t == SWITCHED && s.polls[i].fd in Tracked(s)
    ensures Tells(s, SwitchedRead(s, i, env.recv))
  {
    SwitchedReadExplained(s, i, env);
  }

  lemma PlainReadTells(s: State, i: nat, env: Env)
    requires Inv(s) && i < |s.polls| && s.conns[i].t == IPC
    ensures Tells(s, HandleRead(s, i, env))
  {
    CloseKeeps(s, i);
  }

  lemma WriteTells(s: State, i: nat, env: Env)
    requires Inv(s) && i < |s.polls| && s.polls[i].wr && s.polls[i].fd in Tracked(s)
    ensures Tells(s, HandleWrite(s, i, env))
  {
    HandleWriteExplained(s, i, env);
  }

  /** For those there are two changes: the pair is gone, or one end at most. */
  lemma SwitchedEventsDoNotTell(s: State, i: nat, e: Event)
    requires Inv(s) && i < |s.polls| && s.conns[i].t == SWITCHED
    requires e.t in {DISCONNECTION, ERROR} && e == Event(e.t, i, s.polls[i].fd, None)
    ensures exists gone, kept :: Reports(s, gone, e) && Reports(s, kept, e)
                                 && View(Wait(s, gone).s) != View(Wait(s, kept).s)
  {
    var gone := Ready(|s.polls|, i, READABLE, if e.t == DISCONNECTION then Arrived([]) else RecvError).env;
    var kept := Ready(|s.polls|, i, if e.t == DISCONNECTION then HUNG_UP else INVALID, RecvError).env;
    PairGoneReports(s, i, e);
    PairKeptReports(s, i, e);
    assert View(Wait(s, gone).s).db != View(Wait(s, kept).s).db;
  }

  lemma PairGoneReports(s: State, i: nat, e: Event)
    requires Inv(s) && i < |s.polls| && s.conns[i].t == SWITCHED
    requires e.t in {DISCONNECTION, ERROR} && e == Event(e.t, i, s.polls[i].fd, None)
    ensures var env := Ready(|s.polls|, i, READABLE, if e.t == DISCONNECTION then Arrived([]) else RecvError).env;
            Reports(s, env, e) && s.polls[i].fd !in Wait(s, env).s.db
  {
    var recv := if e.t == DISCONNECTION then Arrived([]) else RecvError;
    var env := Ready(|s.polls|, i, READABLE, recv).env;
    ReadyIsLegal(s, i, READABLE, recv);
    DecidedBy(s, env, i, READABLE);
    ArmKeeps(s);
    TornDown(Arm(s), i, recv, e);
  }

  lemma TornDown(s: State, i: nat, recv: Recv, e: Event)
    requires Inv(s) && i < |s.polls| && s.conns[i].t == SWITCHED && s.polls[i].fd in s.db
    requires e.t in {DISCONNECTION, ERROR} && recv == if e.t == DISCONNECTION then Arrived([]) else RecvError
    requires e == Event(e.t, i, s.polls[i].fd, None)
    ensures SwitchedRead(s, i, recv).Done? && SwitchedRead(s, i, recv).value == e
    ensures s.polls[i].fd !in SwitchedRead(s, i, recv).s.db
  {
    assert SwitchedRead(s, i, recv) == TeardownThen(s, s.polls[i].fd, e);
    TableAfterTeardown(s, s.polls[i].fd);
    TeardownKeeps(s, s.polls[i].fd);
  }

  lemma PairKeptReports(s: State, i: nat, e: Event)
    requires Inv(s) && i < |s.polls| && s.conns[i].t == SWITCHED
    requires e.t in {DISCONNECTION, ERROR} && e == Event(e.t, i, s.polls[i].fd, None)
    ensures var env := Ready(|s.polls|, i, if e.t == DISCONNECTION then HUNG_UP else INVALID, RecvError).env;
            Reports(s, env, e) && s.polls[i].fd in Wait(s, env).s.db
  {
    var r := if e.t == DISCONNECTION then HUNG_UP else INVALID;
    ReadyIsLegal(s, i, r, RecvError);
    DecidedBy(s, Ready(|s.polls|, i, r, RecvError).env, i, r);
    ArmKeeps(s);
    CloseKeeps(Arm(s), i);
  }

  /** So the event alone fixes the change if and only if it is not one of these. */
  lemma EventTellsExactly(s: State, e: Event)
    requires Inv(s) && e.t != CONNECTION && e.m == None
    ensures (forall env1, env2 :: Reports(s, env1, e) && Reports(s, env2, e)
              ==> View(Wait(s, env1).s) == View(Wait(s, env2).s))
            <==> !OfSwitched(s, e)
  {
    if OfSwitched(s, e) {
      SwitchedEventsDoNotTell(s, e.index, e);
    } else {
      forall env1, env2 | Reports(s, env1, e) && Reports(s, env2, e)
        ensures View(Wait(s, env1).s) == View(Wait(s, env2).s) {
        EventTells(s, env1, e);
        EventTells(s, env2, e);
      }
    }
  }

  // ----- a switch from the beginning -----

  /** Both directions work once add_switch has been called, whichever end is named
      first: a packet that arrives at slot i is queued for, and written to, the
      descriptor of slot j, whatever the two connections were before. */
  function SwitchRun(s: State, i: nat, j: nat, first: bool, recv: Recv): seq<Action>
    requires i < |s.polls| && j < |s.polls|
  {
    var a, b := s.polls[i].fd, s.polls[j].fd;
    [if first then Pair(a, b) else Pair(b, a),
     Ready(|s.polls|, i, READABLE, recv),
     Ready(|s.polls|, j, WRITABLE, RecvError)]
  }

  lemma AddSwitchForwards(s: State, i: nat, j: nat, first: bool, recv: Recv)
    requires Inv(s) && i < |s.polls| && j < |s.polls| && !HasFor(s.tx, s.polls[j].fd)
    requires ZigSwitch.SwitchedIn(recv).Some?
    ensures var actions := SwitchRun(s, i, j, first, recv);
            var dest, frame := s.polls[j].fd, ZigSwitch.SwitchedIn(recv).value;
            && LegalRun(s, actions) && Run(s, actions).Done?
            && Run(s, actions).s.log.handed == s.log.handed +
                 [Delivery(dest, Message(dest, frame[ZigWire.HEADER_SIZE..]), true, frame)]
  {
    var actions := SwitchRun(s, i, j, first, recv);
    var s1 := Step(s, actions[0]).s;
    PairedAt(s, i, j, first);
    ReceivedByPartner(s1, i, j, recv, actions[1..]);
    LegalFirst(s, actions, s1);
  }

  lemma ReceivedByPartner(s: State, i: nat, j: nat, recv: Recv, actions: seq<Action>)
    requires Inv(s) && i < |s.polls| && j < |s.polls| && !HasFor(s.tx, s.polls[j].fd)
    requires s.conns[i].t == SWITCHED && s.conns[j].t == SWITCHED && s.db[s.polls[i].fd] == s.polls[j].fd
    requires ZigSwitch.SwitchedIn(recv).Some?
    requires actions == [Ready(|s.polls|, i, READABLE, recv), Ready(|s.polls|, j, WRITABLE, RecvError)]
    ensures var dest, frame := s.polls[j].fd, ZigSwitch.SwitchedIn(recv).value;
            && LegalRun(s, actions) && Run(s, actions).Done?
            && Run(s, actions).s.log.handed == s.log.handed +
                 [Delivery(dest, Message(dest, frame[ZigWire.HEADER_SIZE..]), true, frame)]
  {
    ReadyIsLegal(s, i, READABLE, recv);
    Relayed(s, i, j, actions[0].env, READABLE, actions[1].env, WRITABLE);
    var s1 := Wait(s, actions[0].env).s;
    assert s1.tx[|s1.tx| - 1].fd == s.polls[j].fd;
    ReadyIsLegal(s1, j, WRITABLE, RecvError);
    LegalFirst(s1, actions[1..], Wait(s1, actions[1].env).s);
    LegalFirst(s, actions, s1);
    RunKeeps(s, actions);
  }

  lemma PairedAt(s: State, i: nat, j: nat, first: bool)
    requires Inv(s) && i < |s.polls| && j < |s.polls|
    ensures var a, b := s.polls[i].fd, s.polls[j].fd;
            var o := if first then AddSwitch(s, a, b) else AddSwitch(s, b, a);
            && o.Done? && Inv(o.s) && o.s.polls == s.polls && o.s.tx == s.tx && o.s.log == s.log
            && o.s.conns[i].t == SWITCHED && o.s.conns[j].t == SWITCHED
            && a in o.s.db && o.s.db[a] == b
  {
    var a, b := s.polls[i].fd, s.polls[j].fd;
    assert IsTracked(s, a) && IsTracked(s, b);
    AddSwitchKeeps(s, a, b);
    AddSwitchKeeps(s, b, a);
    AddSwitchRefines(s, a, b);
    AddSwitchRefines(s, b, a);
    var s' := if first then AddSwitch(s, a, b).s else AddSwitch(s, b, a).s;
    TrackedAt(s', i);
    TrackedAt(s', j);
  }

  // ----- when a pair goes -----

  /** A wait decided by one end of a pair removes the pair exactly when a read
      finds no usable packet, or else a write fails. A hang-up alone never does,
      whatever the header of the source file says. */
  lemma PairGoesExactly(s: State, i: nat, j: nat, env: Env, r: Revents)
    requires Inv(s) && i < |s.polls| && j < |s.polls| && i != j
    requires s.conns[i].t == SWITCHED && s.db[s.polls[i].fd] == s.polls[j].fd
    requires Legal(s, WaitEvent(env)) && Decides(s, env, i, r)
    ensures Wait(s, env).Done?
    ensures var s' := Wait(s, env).s;
            var fd, partner := s.polls[i].fd, s.polls[j].fd;
            var stays := if r.rd then ZigSwitch.SwitchedIn(env.recv).Some? else r.wr ==> env.sent;
            && (stays <==> fd in s'.db)
            && (stays <==> IsTracked(s', partner))
            && (stays ==> s'.db == s.db)
            && (!stays ==> !IsTracked(s', fd))
  {
    ArmKeeps(s);
    DecidedBy(s, env, i, r);
    assert s.polls[i].fd in Tracked(Arm(s)) && ExplainsOutcome(Arm(s), i, CauseOf(r), env, Wait(s, env)) by {
      HandleExplained(Arm(s), r, i, env);
    }
    assert Arm(s).polls[j].fd == s.polls[j].fd;
    PairInView(Arm(s), Wait(s, env).s, i, j);
  }

  lemma PairInView(s: State, s': State, i: nat, j: nat)
    requires i < |s.polls| && j < |s.polls|
    ensures s.polls[j].fd in Tracked(s)
    ensures s.polls[i].fd in Tracked(s') <==> IsTracked(s', s.polls[i].fd)
    ensures s.polls[j].fd in Tracked(s') <==> IsTracked(s', s.polls[j].fd)
  {
    TrackedIff(s, s.polls[j].fd);
    TrackedIff(s', s.polls[i].fd);
    TrackedIff(s', s.polls[j].fd);
  }

  /** POLLHUP alone. */
  predicate OnlyHungUp(r: Revents) {
    r.hup && !r.rd && !r.wr
  }

  /** A hang-up closes one end and leaves the table alone: the other end goes on
      forwarding to a descriptor that is no longer tracked, open or addressed by
      any message. */
  lemma HangUpLeavesTheOtherEnd(s: State, i: nat, j: nat, env: Env, r: Revents)
    requires Inv(s) && i < |s.polls| && j < |s.polls| && i != j
    requires s.conns[i].t == SWITCHED && s.conns[j].t == SWITCHED && s.db[s.polls[j].fd] == s.polls[i].fd
    requires Decides(s, env, i, r) && OnlyHungUp(r)
    ensures Wait(s, env).Done?
    ensures var fd, partner := s.polls[i].fd, s.polls[j].fd;
            var s' := Wait(s, env).s;
            var j' := if j == |s.polls| - 1 then i else j;
            && Wait(s, env).value == Event(DISCONNECTION, i, fd, None)
            && Inv(s') && |s'.polls| == |s.polls| - 1
            && !IsTracked(s', fd) && fd !in s'.open && !HasFor(s'.tx, fd)
            && s'.db == s.db && s'.log.handed == s.log.handed
            && s'.polls[j'].fd == partner && s'.conns[j'].t == SWITCHED
  {
    var armed := Arm(s);
    var s' := Removed(armed, i);
    assert Wait(s, env) == Done(s', Event(DISCONNECTION, i, s.polls[i].fd, None)) by {
      ArmKeeps(s);
      DecidedBy(s, env, i, r);
    }
    assert Inv(s') && !IsTracked(s', s.polls[i].fd) by {
      ArmKeeps(s);
      RemovedKeeps(armed, i, {});
    }
    assert !HasFor(s'.tx, s.polls[i].fd) by { PurgeExact(armed.tx, s.polls[i].fd); }
  }

  /** Slot i hangs up, a plain connection gets its number, and the other end of
      the pair, slot j, receives a packet. */
  function StrangerRun(s: State, i: nat, j: nat, path: Option<string>, recv: Recv): seq<Action>
    requires i < |s.polls| && j < |s.polls|
  {
    var n := |s.polls|;
    [Ready(n, i, HUNG_UP, RecvError),
     ConnectTo(Connection(IPC, path), s.polls[i].fd),
     Ready(n, if j == n - 1 then i else j, READABLE, recv),
     Ready(n, n - 1, WRITABLE, RecvError)]
  }

  /** ... and once the number is in use again, whoever has it is sent what the
      surviving end receives: from every good state in which slots i and j are a
      pair, and for every usable packet, that run is legal and ends with the
      packet written to a connection that was never paired. */
  lemma StrangerReceives(s: State, i: nat, j: nat, path: Option<string>, recv: Recv)
    requires Inv(s) && i < |s.polls| && j < |s.polls| && i != j
    requires s.conns[i].t == SWITCHED && s.conns[j].t == SWITCHED && s.db[s.polls[j].fd] == s.polls[i].fd
    requires ZigSwitch.SwitchedIn(recv).Some?
    ensures HandsOver(s, StrangerRun(s, i, j, path, recv), s.polls[i].fd, ZigSwitch.SwitchedIn(recv).value)
  {
    var n, fd := |s.polls|, s.polls[i].fd;
    var actions := StrangerRun(s, i, j, path, recv);
    ReadyIsLegal(s, i, HUNG_UP, RecvError);
    HangUpThenReuse(s, i, j, path, actions[0].env);
    var s1 := Wait(s, actions[0].env).s;
    var s2 := Connect(s1, Connection(IPC, path), fd);
    ReceivedForStranger(s2, if j == n - 1 then i else j, recv, actions[2..]);
    assert actions[1..][1..] == actions[2..];
    LegalFirst(s1, actions[1..], s2);
    LegalFirst(s, actions, s1);
  }

  /** The run is legal and ends with one more write than s: to fd, which is not
      switched, and with the bytes of frame. */
  ghost predicate HandsOver(s: State, actions: seq<Action>, fd: Fd, frame: seq<Byte>)
    requires |frame| >= ZigWire.HEADER_SIZE
  {
    && LegalRun(s, actions) && Run(s, actions).Done?
    && Run(s, actions).s.log.handed == s.log.handed +
         [Delivery(fd, Message(fd, frame[ZigWire.HEADER_SIZE..]), false, Take(frame, ZigWire.MAX_MESSAGE_SIZE))]
  }

  /** Slot j forwards to the last slot, which is a plain connection. */
  ghost predicate ForwardsToLast(s: State, j: nat) {
    && Inv(s) && j < |s.polls| - 1 && s.conns[j].t == SWITCHED
    && s.conns[|s.polls| - 1].t == IPC
    && s.db[s.polls[j].fd] == s.polls[|s.polls| - 1].fd && !HasFor(s.tx, s.polls[|s.polls| - 1].fd)
  }

  lemma HangUpThenReuse(s: State, i: nat, j: nat, path: Option<string>, env: Env)
    requires Inv(s) && i < |s.polls| && j < |s.polls| && i != j
    requires s.conns[i].t == SWITCHED && s.conns[j].t == SWITCHED && s.db[s.polls[j].fd] == s.polls[i].fd
    requires Decides(s, env, i, HUNG_UP)
    ensures Wait(s, env).Done?
    ensures var fd := s.polls[i].fd;
            var s1 := Wait(s, env).s;
            var s2 := Connect(s1, Connection(IPC, path), fd);
            && !IsTracked(s1, fd)
            && ForwardsToLast(s2, if j == |s.polls| - 1 then i else j)
            && |s2.polls| == |s.polls| && s2.polls[|s2.polls| - 1].fd == fd
            && s2.log.handed == s.log.handed
  {
    HangUpLeavesTheOtherEnd(s, i, j, env, HUNG_UP);
    ConnectKeeps(Wait(s, env).s, Connection(IPC, path), s.polls[i].fd);
  }

  lemma ReceivedForStranger(s: State, j: nat, recv: Recv, actions: seq<Action>)
    requires ForwardsToLast(s, j) && ZigSwitch.SwitchedIn(recv).Some?
    requires actions == [Ready(|s.polls|, j, READABLE, recv), Ready(|s.polls|, |s.polls| - 1, WRITABLE, RecvError)]
    ensures HandsOver(s, actions, s.polls[|s.polls| - 1].fd, ZigSwitch.SwitchedIn(recv).value)
  {
    var last := |s.polls| - 1;
    ReadyIsLegal(s, j, READABLE, recv);
    Relayed(s, j, last, actions[0].env, READABLE, actions[1].env, WRITABLE);
    var s1 := Wait(s, actions[0].env).s;
    assert s1.tx[|s1.tx| - 1].fd == s.polls[last].fd;
    ReadyIsLegal(s1, last, WRITABLE, RecvError);
    LegalFirst(s1, actions[1..], Wait(s1, actions[1].env).s);
    LegalFirst(s, actions, s1);
    RunKeeps(s, actions);
  }

  // ----- runs that leave the contract -----

  /** Two slots of one descriptor; the second is armed, and messages can be
      written through the first. */
  ghost predicate TwoSlots(s: State, i: nat, j: nat) {
    && i < |s.polls| && j < |s.polls| && i != j && s.polls[i].fd == s.polls[j].fd
    && (s.conns[i].t == SWITCHED ==> s.polls[i].fd in s.db)
  }

  lemma WrittenThroughFirst(s: State, i: nat, j: nat)
    requires TwoSlots(s, i, j) && HasFor(s.tx, s.polls[i].fd)
    ensures var a := Ready(|s.polls|, i, WRITABLE, RecvError);
            && Shaped(s, a) && Legal(s, a) && Step(s, a).Done?
            && TwoSlots(Step(s, a).s, i, j) && Step(s, a).s.polls[j].wr
            && |Step(s, a).s.tx| < |s.tx|
  {
    ReadyIsLegal(s, i, WRITABLE, RecvError);
    DecidedBy(s, Ready(|s.polls|, i, WRITABLE, RecvError).env, i, WRITABLE);
  }

  /** Each message leaves through the first slot; once there is none, the second
      is still armed and finds no index. */
  lemma {:induction false} SecondSlotFindsNone(s: State, i: nat, j: nat)
    requires TwoSlots(s, i, j) && s.polls[j].wr
    ensures MayCrash(s, UndefinedIndex)
    decreases |s.tx|
  {
    if HasFor(s.tx, s.polls[i].fd) {
      var a := Ready(|s.polls|, i, WRITABLE, RecvError);
      WrittenThroughFirst(s, i, j);
      SecondSlotFindsNone(Step(s, a).s, i, j);
      MayCrashFirst(s, a, UndefinedIndex);
    } else {
      var a := Ready(|s.polls|, j, WRITABLE, RecvError);
      DecidedBy(s, a.env, j, WRITABLE);
      CrashesAt(s, a, UndefinedIndex);
    }
  }

  /** From every good state, whatever its queue: a descriptor tracked a second
      time makes some legal continuation use the undefined index. */
  lemma TrackedTwiceIsUndefined(s: State, c: Connection, fd: Fd)
    requires Inv(s) && IsTracked(s, fd)
    ensures MayCrash(Track(s, c, fd), UndefinedIndex)
  {
    var i :| 0 <= i < |s.polls| && s.polls[i].fd == fd;
    var j := |s.polls|;
    var m := Message(fd, []);
    var s1 := Track(s, c, fd);
    var s2 := Schedule(s1, m);
    assert s2.tx[|s1.tx|] == m;
    WrittenThroughFirst(s2, i, j);
    SecondSlotFindsNone(Step(s2, Ready(|s2.polls|, i, WRITABLE, RecvError)).s, i, j);
    MayCrashFirst(s2, Ready(|s2.polls|, i, WRITABLE, RecvError), UndefinedIndex);
    MayCrashFirst(s1, Queue(m), UndefinedIndex);
  }

  /** From every good state with a pair: one end is closed behind the context's
      back and the other disconnects. The table entries go, but fcntl fails on the
      closed descriptor, so its slot stays, switched and without a partner, and
      the next read there unwraps null. */
  lemma ClosedOutsideUnwrapsNull(s: State, i: nat, j: nat)
    requires Inv(s) && i < |s.polls| && j < |s.polls| && i != j
    requires s.conns[i].t == SWITCHED && s.conns[j].t == SWITCHED && s.db[s.polls[i].fd] == s.polls[j].fd
    ensures MayCrash(Step(s, CloseOutside(s.polls[j].fd)).s, NullUnwrap)
  {
    var s1 := Step(s, CloseOutside(s.polls[j].fd)).s;
    var a := Ready(|s.polls|, i, READABLE, ConnectionReset);
    ReadyIsLegal(s1, i, READABLE, ConnectionReset);
    DecidedBy(s1, a.env, i, READABLE);
    OneEndGone(Arm(s1), i, j, a.env);
    var j' := if j == |s.polls| - 1 then i else j;
    PartnerlessUnwrapsNull(Step(s1, a).s, j');
    MayCrashFirst(s1, a, NullUnwrap);
  }

  lemma OneEndGone(s: State, i: nat, j: nat, env: Env)
    requires Distinct(s.polls) && i < |s.polls| && j < |s.polls| && i != j
    requires s.conns[i].t == SWITCHED && s.conns[j].t == SWITCHED
    requires s.polls[i].fd in s.db && s.db[s.polls[i].fd] == s.polls[j].fd
    requires s.polls[i].fd in s.open && s.polls[j].fd !in s.open && env.recv == ConnectionReset
    ensures HandleRead(s, i, env).Done?
    ensures Partnerless(HandleRead(s, i, env).s, if j == |s.polls| - 1 then i else j)
  {
    var s0 := s.(db := Nuke(s.db, s.polls[i].fd));
    assert IndexOf(s0.polls, s.polls[i].fd) == Some(i);
    assert Teardown(s, s.polls[i].fd) == Done(Removed(s0, i), ());
  }
}
