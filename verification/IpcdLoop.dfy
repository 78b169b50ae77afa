/** The whole run of ipcd: waiting and serving until something makes it leave
    its loop. */
module IpcdLoop {
  import opened Wrappers
  import opened SendQueue
  import opened ZigTypes
  import opened ZigState
  import opened ZigInvariant
  import opened ZigNet
  import opened ZigWait
  import opened Ipcd
  import ZigContext
  import Routing
  import Text
  import ZigWire

  /** What the system answers during one turn of the loop. */
  datatype Turn = Turn(env: Env, lookup: LookupEnv)

  /** The loop goes on, or is left by a break or an error, or the program stops. */
  datatype After = On(s: State) | Left(s: State) | Stopped(fault: Fault)

  predicate ShapedTurn(s: State, t: Turn) {
    t.env.poll.Some? ==> |t.env.poll.value| == |s.polls|
  }

  function OneTurn(s: State, t: Turn): After
    requires ShapedTurn(s, t)
  {
    match Wait(s, t.env)
    case Failed(s', _) => Left(s')
    case Crash(f) => Stopped(f)
    case Done(s', e) =>
      match e.t
      case TIMER => On(s')
      case CONNECTION => On(s')
      case DISCONNECTION => On(s')
      case MESSAGE_TX => On(s')
      case MESSAGE_RX => (
        match Serve(s', e.origin, e.m, t.lookup)
        case Done(served, _) => On(served)
        case Failed(served, _) => Left(served)
        case Crash(f) => Stopped(f))
      case _ => Left(s')
  }

  /** Which events leave the loop, in any state. */
  lemma EventsLeave(s: State, t: Turn)
    requires ShapedTurn(s, t) && Wait(s, t.env).Done? && Wait(s, t.env).value.t != MESSAGE_RX
    ensures var e := Wait(s, t.env).value;
            OneTurn(s, t) == if e.t in {EXTERNAL_EVENT, SWITCH_RX, SWITCH_TX, ERROR} then Left(Wait(s, t.env).s)
                             else On(Wait(s, t.env).s)
  {
  }

  function DaemonRun(s: State, turns: seq<Turn>): After
    decreases |turns|
  {
    if turns == [] || !ShapedTurn(s, turns[0]) then On(s)
    else match OneTurn(s, turns[0])
      case On(s') => DaemonRun(s', turns[1..])
      case other => other
  }

  /** poll and accept answer as Legal says, and connecting gives descriptors that
      are not in use. */
  ghost predicate LegalTurn(s: State, t: Turn) {
    && Legal(s, WaitEvent(t.env)) && ShapedTurn(s, t)
    && (Wait(s, t.env).Done? ==> Fresh(Wait(s, t.env).s, t.lookup))
  }

  ghost predicate LegalTurns(s: State, turns: seq<Turn>)
    decreases |turns|
  {
    turns == [] ||
    (LegalTurn(s, turns[0]) &&
     (OneTurn(s, turns[0]).On? ==> LegalTurns(OneTurn(s, turns[0]).s, turns[1..])))
  }

  // ----- what every turn keeps -----

  predicate Plain(c: Connection) {
    c.t == IPC || (c.t == SERVER && c.path.Some?)
  }

  /** Nothing is queued or switched, and exactly the tracked descriptors are open. */
  ghost predicate Tidy(n: Net) {
    && n.queue == multiset{} && n.db == map[]
    && n.open == n.tracked.Keys
    && forall fd :: fd in n.tracked ==> Plain(n.tracked[fd].conn)
  }

  ghost predicate Serving(s: State) {
    Inv(s) && Tidy(View(s))
  }

  lemma ArmServes(s: State)
    requires Serving(s)
    ensures Serving(Arm(s))
  {
    ArmKeeps(s);
    ArmRefines(s);
    assert View(Arm(s)).tracked.Keys == View(s).tracked.Keys;
  }

  lemma ForgettingIsTidy(n: Net, n': Net, fd: Fd)
    requires Tidy(n) && Forgets(n, n', {fd})
    ensures Tidy(n')
  {
    assert n'.queue == multiset{} by {
      forall m: Packet ensures n'.queue[m] == 0 {
      }
    }
    assert n'.tracked.Keys == n.tracked.Keys - {fd};
  }

  lemma JoiningIsTidy(n: Net, client: Fd)
    requires Tidy(n)
    ensures Tidy(Joined(n, client))
  {
    assert Joined(n, client).tracked.Keys == n.tracked.Keys + {client};
  }

  /** Nothing waits to be sent, so no entry is armed. */
  lemma NoneArmed(s: State, i: nat)
    requires Serving(s) && i < |s.polls|
    ensures !s.polls[i].wr && s.tx == [] && Plain(s.conns[i]) && s.polls[i].fd in Tracked(s)
  {
    TrackedAt(s, i);
    EmptyBag(s.tx);
  }

  lemma EmptyBag(tx: seq<Packet>)
    requires multiset(tx) == multiset{}
    ensures tx == []
  {
    assert |tx| == |multiset(tx)|;
  }

  /** A wait of a serving daemon leaves it serving, and reports only clients. */
  lemma WaitServes(s: State, env: Env)
    requires Serving(s) && Legal(s, WaitEvent(env))
    ensures !Wait(s, env).Crash? && Serving(Wait(s, env).s)
    ensures Wait(s, env).Done? ==>
              var e := Wait(s, env).value;
              && e.t in {TIMER, CONNECTION, DISCONNECTION, MESSAGE_RX, ERROR}
              && (e.t == MESSAGE_RX ==> e.m.Some? && IsTracked(Wait(s, env).s, e.origin))
  {
    WaitKeeps(s, env);
    ArmServes(s);
    if env.poll.Some? {
      WaitIsFirst(s, env);
      var first := FirstHandled(env.poll.value);
      if first.Some? {
        HandleServes(Arm(s), env.poll.value[first.value], first.value, env);
      }
    }
  }

  ghost predicate HandledWell(o: Outcome<Event>) {
    && !o.Crash? && Tidy(View(o.s))
    && (o.Done? ==>
          && o.value.t in {CONNECTION, DISCONNECTION, MESSAGE_RX, ERROR}
          && (o.value.t == MESSAGE_RX ==> o.value.m.Some? && IsTracked(o.s, o.value.origin)))
  }

  lemma HandleServes(s: State, r: Revents, i: nat, env: Env)
    requires Serving(s) && i < |s.polls| && Handled(r) && (r.wr ==> s.polls[i].wr)
    ensures HandledWell(Handle(s, r, i, env))
  {
    NoneArmed(s, i);
    if r.rd {
      ReadServes(s, i, env);
    } else if r.hup {
      ClosingServes(s, i);
    }
  }

  lemma ClosingServes(s: State, i: nat)
    requires Serving(s) && i < |s.polls|
    ensures Close(s, i) == Done(Removed(s, i), ()) && Tidy(View(Removed(s, i)))
  {
    CloseKeeps(s, i);
    RemovedRefines(s, i);
    ForgettingIsTidy(View(s), View(Removed(s, i)), s.polls[i].fd);
  }

  lemma ReadServes(s: State, i: nat, env: Env)
    requires Serving(s) && i < |s.polls|
    ensures HandledWell(HandleRead(s, i, env))
  {
    NoneArmed(s, i);
    if s.conns[i].t == SERVER {
      AcceptServes(s, i, env);
    } else {
      ClosingServes(s, i);
    }
  }

  lemma AcceptServes(s: State, i: nat, env: Env)
    requires Serving(s) && i < |s.polls| && s.conns[i].t == SERVER
    ensures HandledWell(Accept(s, i, env.accepted))
  {
    NoneArmed(s, i);
    AcceptExplained(s, i, env);
    if env.accepted.Some? {
      JoiningIsTidy(View(s), env.accepted.value);
    }
  }

  lemma ServedIsTidy(s: State, origin: Fd, m: Option<Packet>, lookup: LookupEnv)
    requires Serving(s) && Fresh(s, lookup) && IsTracked(s, origin)
    requires !Serve(s, origin, m, lookup).Crash?
    ensures Serving(Serve(s, origin, m, lookup).s)
  {
    ServeConserves(s, origin, m, lookup);
    var n, n' := View(s), View(Serve(s, origin, m, lookup).s);
    assert n'.queue == multiset{};
    assert n'.tracked.Keys == n.tracked.Keys - {origin};
  }

  /** Each turn leaves a tidy context, whichever way it ends; only a lookup
      without a scheme stops the program. */
  lemma TurnKeeps(s: State, t: Turn)
    requires Serving(s) && LegalTurn(s, t)
    ensures match OneTurn(s, t)
            case On(s') => Serving(s')
            case Left(s') => Serving(s')
            case Stopped(f) => f == NullUnwrap
  {
    WaitServes(s, t.env);
    var o := Wait(s, t.env);
    if o.Done? && o.value.t == MESSAGE_RX {
      var e := o.value;
      if Serve(o.s, e.origin, e.m, t.lookup).Crash? {
        ServeConserves(o.s, e.origin, e.m, t.lookup);
        FatalStops(o.s, e.origin, e.m.value, t.lookup);
      } else {
        ServedIsTidy(o.s, e.origin, e.m, t.lookup);
      }
    }
  }

  // ----- when the loop is left -----

  /** The daemon's answer cannot be read. */
  predicate Unanswered(reply: Recv) {
    !reply.Arrived? || ZigWire.ContextRead(reply.bytes).Refused?
  }

  /** Serving the lookup ends with an error. */
  predicate LookupFails(payload: Payload, lookup: LookupEnv) {
    match Routing.FinalDestination(AsText(payload))
    case None => false
    case Some(destination) =>
      match Text.ReadUri(destination)
      case None => false
      case Some(uri) =>
        if uri.protocol == "unix" then uri.address !in lookup.services
        else uri.protocol !in lookup.services || !lookup.sent || Unanswered(lookup.reply)
  }

  lemma ServeFailsExactly(s: State, origin: Fd, m: Packet, lookup: LookupEnv)
    requires Inv(s) && Fresh(s, lookup) && IsTracked(s, origin)
    ensures Serve(s, origin, Some(m), lookup).Failed? <==> LookupFails(m.payload, lookup)
  {
    ServeConserves(s, origin, Some(m), lookup);
    var d := Routing.FinalDestination(AsText(m.payload));
    if d.Some? && Text.ReadUri(d.value).Some? {
      ContactFailsExactly(s, d.value, lookup);
    }
  }

  /** A request without a message is answered, and fails only if that does. */
  lemma EmptyRequest(s: State, origin: Fd, lookup: LookupEnv)
    requires Inv(s) && Fresh(s, lookup) && IsTracked(s, origin)
    ensures Serve(s, origin, None, lookup).Failed? <==> !lookup.sent
    ensures Serve(s, origin, None, lookup).Done? ==> Serve(s, origin, None, lookup).value == None
  {
    ServeConserves(s, origin, None, lookup);
  }

  lemma ContactFailsExactly(s: State, destination: string, lookup: LookupEnv)
    requires Inv(s) && Fresh(s, lookup) && Text.ReadUri(destination).Some?
    ensures var uri := Text.ReadUri(destination).value;
            Contact(s, destination, lookup).Failed? <==>
              if uri.protocol == "unix" then uri.address !in lookup.services
              else uri.protocol !in lookup.services || !lookup.sent || Unanswered(lookup.reply)
  {
    Text.ProtocolIsProper(destination);
    var uri := Text.ReadUri(destination).value;
    if uri.protocol == "unix" {
      HandOverFailsExactly(s, uri.address, lookup);
    } else {
      RelayFailsExactly(s, uri.protocol, lookup);
    }
  }

  lemma HandOverFailsExactly(s: State, service: string, lookup: LookupEnv)
    requires Inv(s) && Fresh(s, lookup)
    ensures HandOver(s, service, lookup).Failed? <==> service !in lookup.services
  {
    if service in lookup.services {
      var fd := lookup.services[service];
      ConnectedThenClosed(s, ZigState.Connect(s, Connection(IPC, None), fd), fd);
    }
  }

  lemma RelayFailsExactly(s: State, protocol: string, lookup: LookupEnv)
    requires Inv(s) && Fresh(s, lookup)
    ensures Relay(s, protocol, lookup).Failed? <==>
            protocol !in lookup.services || !lookup.sent || Unanswered(lookup.reply)
  {
    if protocol in lookup.services {
      var fd := lookup.services[protocol];
      var s1 := ZigState.Connect(s, Connection(IPC, None), fd);
      ConnectedThenClosed(s, s1, fd);
      ConverseUnchanged(s1, fd, lookup);
      assert s1.polls[|s.polls|].fd == fd;
      ReadsNewEntry(s, s1, fd, lookup);
    }
  }

  lemma ReadsNewEntry(s: State, s1: State, fd: Fd, lookup: LookupEnv)
    requires !IsTracked(s, fd) && s1 == ZigState.Connect(s, Connection(IPC, None), fd)
    ensures Converse(s1, fd, lookup).Failed? <==> !lookup.sent || Unanswered(lookup.reply)
  {
    assert s1.polls[|s.polls|].fd == fd;
    assert IndexOf(s1.polls, fd) == Some(|s.polls|);
  }

  /** What makes the daemon leave its loop: poll fails or reports only POLLERR or
      nothing before the second is over; accept fails; a client's packet is
      refused or cannot be read; a lookup fails; or POLLNVAL. */
  ghost predicate Leaves(s: State, t: Turn)
    requires ShapedTurn(s, t)
  {
    match t.env.poll
    case None => true
    case Some(revents) =>
      match FirstHandled(revents)
      case None => !t.env.timedOut || exists k :: 0 <= k < |revents| && revents[k].err
      case Some(i) =>
        if !revents[i].rd then !revents[i].hup
        else if s.conns[i].t == SERVER then t.env.accepted == None
        else if MessageIn(t.env.recv).Some? then LookupFails(MessageIn(t.env.recv).value, t.lookup)
        else !SaysGoodbye(t.env.recv)
  }

  /** ... and what stops it: a lookup whose destination has no scheme. */
  ghost predicate Stops(s: State, t: Turn)
    requires ShapedTurn(s, t)
  {
    && t.env.poll.Some? && FirstHandled(t.env.poll.value).Some?
    && var i := FirstHandled(t.env.poll.value).value;
       && t.env.poll.value[i].rd && s.conns[i].t != SERVER
       && MessageIn(t.env.recv).Some? && Fatal(Some(Message(s.polls[i].fd, MessageIn(t.env.recv).value)))
  }

  /** The conditions are exact. */
  lemma TurnExact(s: State, t: Turn)
    requires Serving(s) && LegalTurn(s, t)
    ensures OneTurn(s, t).Left? <==> Leaves(s, t)
    ensures OneTurn(s, t).Stopped? <==> Stops(s, t)
  {
    WaitServes(s, t.env);
    ArmServes(s);
    if t.env.poll.Some? {
      WaitIsFirst(s, t.env);
      var first := FirstHandled(t.env.poll.value);
      if first.Some? {
        HandledTurn(s, t, first.value);
      }
    }
  }

  lemma HandledTurn(s: State, t: Turn, i: nat)
    requires Serving(s) && Serving(Arm(s)) && LegalTurn(s, t) && t.env.poll.Some?
    requires i < |t.env.poll.value| && Decides(s, t.env, i, t.env.poll.value[i])
    ensures OneTurn(s, t).Left? <==> Leaves(s, t)
    ensures OneTurn(s, t).Stopped? <==> Stops(s, t)
  {
    var armed, r := Arm(s), t.env.poll.value[i];
    DecidedBy(s, t.env, i, r);
    NoneArmed(armed, i);
    HandleServes(armed, r, i, t.env);
    if r.rd && s.conns[i].t == IPC {
      ReadTurn(s, t, i);
    } else if !r.rd && r.hup {
      CloseKeeps(armed, i);
    }
  }

  lemma ReadTurn(s: State, t: Turn, i: nat)
    requires Serving(s) && Serving(Arm(s)) && LegalTurn(s, t) && t.env.poll.Some?
    requires i < |s.polls| == |t.env.poll.value| && Decides(s, t.env, i, t.env.poll.value[i])
    requires t.env.poll.value[i].rd && s.conns[i].t == IPC
    ensures OneTurn(s, t).Left? <==> Leaves(s, t)
    ensures OneTurn(s, t).Stopped? <==> Stops(s, t)
  {
    var armed := Arm(s);
    assert Wait(s, t.env) == HandleRead(armed, i, t.env) by { DecidedBy(s, t.env, i, t.env.poll.value[i]); }
    if MessageIn(t.env.recv).Some? {
      var m := Message(s.polls[i].fd, MessageIn(t.env.recv).value);
      assert HandleRead(armed, i, t.env) == Done(armed, Event(MESSAGE_RX, i, m.fd, Some(m)));
      MessageTurn(s, t, m, i);
    } else {
      assert HandleRead(armed, i, t.env).Done? <==> SaysGoodbye(t.env.recv) by { CloseKeeps(armed, i); }
    }
  }

  lemma MessageTurn(s: State, t: Turn, m: Packet, i: nat)
    requires Serving(Arm(s)) && LegalTurn(s, t) && i < |s.polls| && s.polls[i].fd == m.fd
    requires Wait(s, t.env) == Done(Arm(s), Event(MESSAGE_RX, i, m.fd, Some(m)))
    ensures OneTurn(s, t).Left? <==> LookupFails(m.payload, t.lookup)
    ensures OneTurn(s, t).Stopped? <==> Fatal(Some(m))
  {
    assert Arm(s).polls[i].fd == m.fd;
    ServeFailsExactly(Arm(s), m.fd, m, t.lookup);
    assert Serve(Arm(s), m.fd, Some(m), t.lookup).Crash? <==> Fatal(Some(m)) by {
      ServeConserves(Arm(s), m.fd, Some(m), t.lookup);
    }
  }

  // ----- whole runs -----

  /** No turn makes the daemon leave or stop. */
  ghost predicate GoesOn(s: State, turns: seq<Turn>)
    decreases |turns|
  {
    turns != [] && ShapedTurn(s, turns[0]) ==>
      && !Leaves(s, turns[0]) && !Stops(s, turns[0])
      && (OneTurn(s, turns[0]).On? ==> GoesOn(OneTurn(s, turns[0]).s, turns[1..]))
  }

  /** Over every run: the daemon is still serving if and only if no turn has met
      one of these conditions; and whichever way it leaves, deinit closes every
      descriptor it has ever had and leaves nothing queued. */
  lemma {:induction false} EveryDaemonRun(s: State, turns: seq<Turn>)
    requires Serving(s) && LegalTurns(s, turns)
    ensures DaemonRun(s, turns).On? <==> GoesOn(s, turns)
    ensures var after := DaemonRun(s, turns);
            if after.Stopped? then after.fault == NullUnwrap
            else Serving(after.s) && CloseAll(after.s).Done?
                 && CloseAll(after.s).s.open == {} && CloseAll(after.s).s.tx == [] && CloseAll(after.s).s.polls == []
    decreases |turns|
  {
    if turns == [] {
      NothingLeaks(s);
    } else {
      TurnKeeps(s, turns[0]);
      TurnExact(s, turns[0]);
      match OneTurn(s, turns[0])
      case On(s') => EveryDaemonRun(s', turns[1..]);
      case Left(s') => NothingLeaks(s');
      case Stopped(_) =>
    }
  }

  lemma NothingLeaks(s: State)
    requires Serving(s)
    ensures CloseAll(s).Done?
    ensures CloseAll(s).s.open == {} && CloseAll(s).s.tx == [] && CloseAll(s).s.polls == []
  {
    CloseAllKeeps(s);
    forall fd ensures fd !in CloseAll(s).s.open {
      TrackedIff(s, fd);
    }
    EmptyBag(s.tx);
    var left := CloseAll(s).s.tx;
    assert multiset(left) == multiset{} by {
      forall m: Packet ensures multiset(left)[m] == 0 {
      }
    }
    EmptyBag(left);
  }

  /** server_init ("ipc"). */
  function Started(path: string, fd: Fd): State {
    ZigState.Connect(INITIAL, Connection(SERVER, Some(path)), fd)
  }

  lemma StartsServing(path: string, fd: Fd)
    ensures Serving(Started(path, fd))
  {
    var c := Connection(SERVER, Some(path));
    ConnectKeeps(INITIAL, c, fd);
    var s0 := INITIAL.(open := {fd});
    TrackRefines(s0, c, fd);
    assert Tracked(s0) == map[];
    assert View(Started(path, fd)).tracked == map[fd := Slot(c, true, false)];
  }

  // ----- the program -----

  ghost predicate ShapedTurns(s: State, turns: seq<Turn>)
    decreases |turns|
  {
    turns != [] ==> ShapedTurn(s, turns[0]) &&
                    (OneTurn(s, turns[0]).On? ==> ShapedTurns(OneTurn(s, turns[0]).s, turns[1..]))
  }

  datatype Exit = Goodbye | Thrown | Halted(fault: Fault)

  /** One turn of the loop; goodbye is false while it goes on. */
  method TakeTurn(ctx: ZigContext.Context, t: Turn) returns (exit: Option<Exit>)
    requires ctx.Valid() && ShapedTurn(ctx.Now(), t)
    modifies ctx, ctx.switchdb
    ensures ctx.Valid()
    ensures match OneTurn(old(ctx.Now()), t)
            case On(s) => exit == None && ctx.Now() == s
            case Left(s) => exit in {Some(Goodbye), Some(Thrown)} && ctx.Now() == s
            case Stopped(f) => exit == Some(Halted(f))
  {
    var event := ctx.WaitEvent(t.env);
    match event {
      case Error(_) => exit := Some(Thrown);
      case Panic(f) => exit := Some(Halted(f));
      case Value(e) =>
        match e.t {
          case TIMER => exit := None;
          case CONNECTION => exit := None;
          case DISCONNECTION => exit := None;
          case MESSAGE_TX => exit := None;
          case MESSAGE_RX =>
            var served := ServeLookup(ctx, e.origin, e.m, t.lookup);
            exit := match served
                    case Value(_) => None
                    case Error(_) => Some(Thrown)
                    case Panic(f) => Some(Halted(f));
          case _ => exit := Some(Goodbye);
        }
    }
  }

  /** create_service: the loop, one turn for each element of turns, until it is
      left or the daemon is asked to quit; then deinit. */
  method CreateService(path: string, fd: Fd, turns: seq<Turn>) returns (ctx: ZigContext.Context, halted: Option<Fault>)
    requires ShapedTurns(Started(path, fd), turns)
    ensures fresh(ctx) && ctx.Valid()
    ensures match DaemonRun(Started(path, fd), turns)
            case Stopped(f) => halted == Some(f)
            case other =>
              match CloseAll(other.s)
              case Crash(f) => halted == Some(f)
              case closed => halted == None && ctx.Now() == closed.s
  {
    ctx := new ZigContext.Context();
    ctx.AddNew(Connection(SERVER, Some(path)), fd);
    ghost var start := ctx.Now();
    assert start == Started(path, fd);
    var i := 0;
    var exit: Option<Exit> := None;
    while i < |turns| && exit == None
      invariant i <= |turns| && fresh(ctx) && fresh(ctx.switchdb) && ctx.Valid()
      invariant exit == None ==>
        ShapedTurns(ctx.Now(), turns[i..]) && DaemonRun(ctx.Now(), turns[i..]) == DaemonRun(start, turns)
      invariant exit.Some? ==>
        match exit.value
        case Halted(f) => DaemonRun(start, turns) == Stopped(f)
        case _ => DaemonRun(start, turns) == Left(ctx.Now())
      decreases |turns| - i
    {
      assert turns[i..][0] == turns[i] && turns[i..][1..] == turns[i + 1..];
      exit := TakeTurn(ctx, turns[i]);
      i := i + 1;
    }
    if exit.Some? && exit.value.Halted? {
      return ctx, Some(exit.value.fault);
    }
    var closed := ctx.CloseAll();
    halted := if closed.Panic? then Some(closed.fault) else None;
  }
}
