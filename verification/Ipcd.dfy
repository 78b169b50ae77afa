/** ipcd serving one lookup: find the destination, connect, hand the descriptor
    over, and close what was opened, together with the requester. */
module Ipcd {
  import opened Wrappers
  import opened SendQueue
  import opened ZigTypes
  import opened ZigState
  import opened ZigInvariant
  import opened ZigNet
  import opened ZigContext
  import Routing
  import Text
  import ZigWire
  import SlotMap

  /** What the system answers while the lookup is served. */
  datatype LookupEnv = LookupEnv(
    services: map<string, Fd>,  // the services that accept, and the new descriptor
    sent: bool,                 // whether writing succeeds
    reply: Recv)                // what the protocol daemon answers

  function AsText(p: Payload): (t: string)
    ensures |t| == |p| && forall i :: 0 <= i < |p| ==> t[i] as int == p[i]
  {
    seq(|p|, i requires 0 <= i < |p| => p[i] as char)
  }

  // ----- the effect on the context; the value is the descriptor handed over -----

  /** defer close_fd (fd) catch {}: runs on success and on error. */
  function Deferred(o: Outcome<Option<Fd>>, fd: Fd): Outcome<Option<Fd>> {
    if o.Crash? then o
    else match CloseFd(o.s, fd)
      case Crash(f) => Crash(f)
      case closed => if o.Done? then Done(closed.s, o.value) else Failed(closed.s, o.error)
  }

  function Serve(s: State, origin: Fd, m: Option<Packet>, env: LookupEnv): Outcome<Option<Fd>> {
    Deferred(Answer(s, m, env), origin)
  }

  function Answer(s: State, m: Option<Packet>, env: LookupEnv): Outcome<Option<Fd>> {
    match m
    case None => if env.sent then Done(s, None) else Failed(s, WriteFailed)
    case Some(packet) =>
      match Routing.FinalDestination(AsText(packet.payload))
      case None => Done(s, None)
      case Some(destination) => Contact(s, destination, env)
  }

  function Contact(s: State, destination: string, env: LookupEnv): Outcome<Option<Fd>> {
    match Text.ReadUri(destination)
    case None => Crash(NullUnwrap)
    case Some(uri) =>
      if uri.protocol == destination then HandOver(s, destination, env)
      else if uri.protocol == "unix" then HandOver(s, uri.address, env)
      else Relay(s, uri.protocol, env)
  }

  function HandOver(s: State, service: string, env: LookupEnv): Outcome<Option<Fd>> {
    if service !in env.services then Failed(s, ConnectFailed)
    else
      var fd := env.services[service];
      match CloseFd(ZigState.Connect(s, Connection(IPC, None), fd), fd)
      case Done(s', _) => Done(s', Some(fd))
      case Failed(s', e) => Failed(s', e)
      case Crash(f) => Crash(f)
  }

  function Relay(s: State, protocol: string, env: LookupEnv): Outcome<Option<Fd>> {
    if protocol !in env.services then Failed(s, ConnectFailed)
    else
      var fd := env.services[protocol];
      Deferred(Converse(ZigState.Connect(s, Connection(IPC, None), fd), fd, env), fd)
  }

  /** Send the destination to the daemon and wait for its "ok". */
  function Converse(s: State, fd: Fd, env: LookupEnv): Outcome<Option<Fd>> {
    if !env.sent then Failed(s, WriteFailed)
    else match IndexOf(s.polls, fd)
      case None => Failed(s, IndexNotFound)
      case Some(i) =>
        match ZigState.Read(s, i, env.reply)
        case Done(_, Some(r)) => Done(s, if AsText(r.payload) == "ok" then Some(fd) else None)
        case Done(_, None) => Done(s, None)
        case Failed(_, e) => Failed(s, e)
        case Crash(f) => Crash(f)
  }

  // ----- conservation of descriptors -----

  ghost predicate Fresh(s: State, env: LookupEnv) {
    forall service :: service in env.services ==>
      env.services[service] !in s.open && !IsTracked(s, env.services[service])
  }

  /** s' is s without the descriptors of fds; those that s does not track or have
      open have come and gone in between. */
  ghost predicate Gave(s: State, s': State, fds: set<Fd>) {
    Inv(s') && Forgets(View(s), View(s'), fds)
  }

  /** Closing a descriptor of a good state, quietly or not. */
  lemma CloseFdGives(s: State, fd: Fd)
    requires Inv(s) && IsTracked(s, fd)
    ensures CloseFd(s, fd).Done? && Gave(s, CloseFd(s, fd).s, {fd})
  {
    var i := IndexOf(s.polls, fd).value;
    CloseKeeps(s, i);
    RemovedRefines(s, i);
  }

  lemma ConnectedThenClosed(s: State, s1: State, fd: Fd)
    requires Inv(s) && fd !in s.open && !IsTracked(s, fd)
    requires s1 == ZigState.Connect(s, Connection(IPC, None), fd)
    ensures Inv(s1) && IsTracked(s1, fd)
    ensures CloseFd(s1, fd).Done? && Gave(s, CloseFd(s1, fd).s, {fd})
  {
    ConnectKeeps(s, Connection(IPC, None), fd);
    assert s1.polls[|s.polls|].fd == fd;
    CloseFdGives(s1, fd);
    var s2 := CloseFd(s1, fd).s;
    assert Forgets(View(s), View(s2), {fd}) by {
      ConnectedView(s, s1, fd);
      ForgottenAgain(View(s), View(s1), View(s2), fd, Slot(Connection(IPC, None), true, false));
    }
  }

  lemma ConnectedView(s: State, s1: State, fd: Fd)
    requires s1 == ZigState.Connect(s, Connection(IPC, None), fd)
    ensures View(s1) == View(s).(tracked := Tracked(s)[fd := Slot(Connection(IPC, None), true, false)],
                                 open := s.open + {fd})
  {
    var s0 := s.(open := s.open + {fd});
    TrackRefines(s0, Connection(IPC, None), fd);
    SameArrays(s, s0);
  }

  lemma ForgottenAgain(a: Net, b: Net, c: Net, fd: Fd, slot: Slot)
    requires b == a.(tracked := a.tracked[fd := slot], open := a.open + {fd})
    requires Forgets(b, c, {fd})
    ensures Forgets(a, c, {fd})
  {
  }

  /** Nothing but descriptors that were not open before has come and gone. */
  ghost predicate Returned(s: State, o: Outcome<Option<Fd>>) {
    && !o.Crash?
    && exists fds :: fds !! s.open && Gave(s, o.s, fds)
  }

  lemma ReturnedOne(s: State, o: Outcome<Option<Fd>>, fd: Fd)
    requires !o.Crash? && fd !in s.open && Gave(s, o.s, {fd})
    ensures Returned(s, o)
  {
  }

  lemma Unchanged(s: State, o: Outcome<Option<Fd>>)
    requires Inv(s) && !o.Crash? && o.s == s
    ensures Returned(s, o)
  {
    NothingGiven(s);
    assert {} !! s.open;
  }

  lemma HandOverGives(s: State, service: string, env: LookupEnv)
    requires Inv(s) && Fresh(s, env)
    ensures Returned(s, HandOver(s, service, env))
  {
    if service in env.services {
      var fd := env.services[service];
      ConnectedThenClosed(s, ZigState.Connect(s, Connection(IPC, None), fd), fd);
      ReturnedOne(s, HandOver(s, service, env), fd);
    } else {
      Unchanged(s, HandOver(s, service, env));
    }
  }

  lemma ConverseUnchanged(s: State, fd: Fd, env: LookupEnv)
    ensures !Converse(s, fd, env).Crash? && Converse(s, fd, env).s == s
  {
  }

  lemma RelayGives(s: State, protocol: string, env: LookupEnv)
    requires Inv(s) && Fresh(s, env)
    ensures Returned(s, Relay(s, protocol, env))
  {
    if protocol in env.services {
      var fd := env.services[protocol];
      var s1 := ZigState.Connect(s, Connection(IPC, None), fd);
      ConnectedThenClosed(s, s1, fd);
      ConverseUnchanged(s1, fd, env);
      ReturnedOne(s, Relay(s, protocol, env), fd);
    } else {
      Unchanged(s, Relay(s, protocol, env));
    }
  }

  lemma ContactGives(s: State, destination: string, env: LookupEnv)
    requires Inv(s) && Fresh(s, env)
    ensures var o := Contact(s, destination, env);
            && (o.Crash? <==> !Text.Contains(destination, Text.SCHEME))
            && (!o.Crash? ==> Returned(s, o))
  {
    Text.ReadUriPanics(destination);
    var uri := Text.ReadUri(destination);
    if uri.Some? {
      Text.ProtocolIsProper(destination);
      HandOverGives(s, uri.value.address, env);
      RelayGives(s, uri.value.protocol, env);
    }
  }

  lemma NothingGiven(s: State)
    requires Inv(s)
    ensures Gave(s, s, {})
  {
  }

  /** Whether the lookup names a destination that stops the program. */
  ghost predicate Fatal(m: Option<Packet>) {
    && m.Some?
    && var d := Routing.FinalDestination(AsText(m.value.payload));
       d.Some? && !Text.Contains(d.value, Text.SCHEME)
  }

  /** When a well-formed lookup stops the program: when the last entry named after
      the service has a target without a scheme. */
  lemma FatalLookups(m: Packet, service: string, entries: seq<Routing.Entry>, spaced: seq<bool>)
    requires ';' !in service && |entries| == |spaced|
    requires forall i :: 0 <= i < |entries| ==> Routing.CleanEntry(entries[i])
    requires AsText(m.payload) == Routing.Lookup(service, Routing.Network(entries, spaced))
    ensures Fatal(Some(m)) <==>
            exists i :: 0 <= i < |entries| && entries[i].name == service
                        && !Text.Contains(entries[i].target, Text.SCHEME)
                        && forall j :: i < j < |entries| ==> entries[j].name != service
  {
    Routing.LookupRoundTrip(service, entries, spaced);
  }

  lemma FatalStops(s: State, origin: Fd, m: Packet, env: LookupEnv)
    requires Fatal(Some(m))
    ensures Serve(s, origin, Some(m), env) == Crash(NullUnwrap)
  {
    Text.ReadUriPanics(Routing.FinalDestination(AsText(m.payload)).value);
  }

  /** A client that names a bare host stops the daemon in every state, whatever
      the system answers. */
  lemma BareHostStops(s: State, origin: Fd, m: Packet, env: LookupEnv, service: string, host: string)
    requires Routing.Clean(service) && Routing.Clean(host) && !Text.Contains(host, Text.SCHEME)
    requires AsText(m.payload) == Routing.Lookup(service, service + " " + host)
    ensures Serve(s, origin, Some(m), env) == Crash(NullUnwrap)
  {
    var entries := [Routing.Entry(service, host)];
    assert Routing.Network(entries, [false]) == service + " " + host;
    assert entries[0].name == service && entries[0].target == host;
    FatalLookups(m, service, entries, [false]);
    FatalStops(s, origin, m, env);
  }

  lemma SimpleLookup(service: string, target: string)
    requires Routing.Clean(service) && Routing.Clean(target)
    ensures Routing.FinalDestination(Routing.Lookup(service, service + " " + target)) == Some(target)
  {
    var entries := [Routing.Entry(service, target)];
    assert Routing.Network(entries, [false]) == service + " " + target;
    assert entries[0].name == service && entries[0].target == target;
    Routing.LookupRoundTrip(service, entries, [false]);
  }

  /** The lookup of a local service, "pong;pong unix://pong" for instance: the
      requester gets a connection to the very service named, or an error. */
  lemma UnixLookupHandsOver(s: State, origin: Fd, m: Packet, env: LookupEnv, service: string, address: string)
    requires Inv(s) && Fresh(s, env) && IsTracked(s, origin)
    requires Routing.Clean(service) && Routing.Clean(address) && '/' !in address
    requires AsText(m.payload) == Routing.Lookup(service, service + " " + ("unix" + "://" + address))
    ensures var o := Serve(s, origin, Some(m), env);
            if address in env.services then o.Done? && o.value == Some(env.services[address])
            else o.Failed? && o.error == ConnectFailed
  {
    SimpleLookup(service, "unix" + "://" + address);
    UnixHasNoScheme();
    Text.UriWithoutPath("unix", address);
    UnixContact(s, "unix" + "://" + address, address, env);
    ServeConserves(s, origin, Some(m), env);
  }

  lemma UnixHasNoScheme()
    ensures !Text.Contains("unix", Text.SCHEME)
  {
    Text.NoSlashNoScheme("unix");
  }

  lemma UnixContact(s: State, destination: string, address: string, env: LookupEnv)
    requires Inv(s) && Fresh(s, env)
    requires Text.ReadUri(destination) == Some(Text.Uri("unix", address, ""))
    ensures var o := Contact(s, destination, env);
            if address in env.services then o.Done? && o.value == Some(env.services[address])
            else o == Failed(s, ConnectFailed)
  {
    Text.ProtocolIsProper(destination);
    if address in env.services {
      var fd := env.services[address];
      ConnectedThenClosed(s, ZigState.Connect(s, Connection(IPC, None), fd), fd);
    }
  }

  /** The lookup of a remote one: the requester gets the connection to the daemon
      of the protocol, and only if that has answered "ok". */
  lemma RemoteLookupRelays(s: State, origin: Fd, m: Packet, env: LookupEnv,
                           service: string, protocol: string, address: string)
    requires Inv(s) && Fresh(s, env) && IsTracked(s, origin)
    requires Routing.Clean(service) && Routing.Clean(protocol) && Routing.Clean(address) && '/' !in address
    requires protocol != "unix" && !Text.Contains(protocol, Text.SCHEME)
    requires AsText(m.payload) == Routing.Lookup(service, service + " " + (protocol + "://" + address))
    ensures var o := Serve(s, origin, Some(m), env);
            o.Done? ==> protocol in env.services
                        && o.value == if SaysOk(env.reply) then Some(env.services[protocol]) else None
  {
    SimpleLookup(service, protocol + "://" + address);
    Text.UriWithoutPath(protocol, address);
    ServeConserves(s, origin, Some(m), env);
    if Contact(s, protocol + "://" + address, env).Done? {
      HandedDescriptor(s, protocol + "://" + address, env);
    }
  }

  /** The text "pong;pong host", say. */
  lemma PongStops(s: State, origin: Fd, m: Packet, env: LookupEnv)
    requires AsText(m.payload) == "pong" + ";" + ("pong" + " " + "host")
    ensures Serve(s, origin, Some(m), env) == Crash(NullUnwrap)
  {
    forall i: nat ensures !Text.At("host", Text.SCHEME, i) {
      assert i + 3 <= 4 ==> "host"[i] != ':';
    }
    BareHostStops(s, origin, m, env, "pong", "host");
  }

  /** Serving a lookup, on success and on error alike: the requester is gone and
      whatever was opened for it is gone again; every other descriptor, the switch
      table and the other messages are as before. The one exception is a
      destination without a scheme, which stops the program. */
  lemma ServeConserves(s: State, origin: Fd, m: Option<Packet>, env: LookupEnv)
    requires Inv(s) && Fresh(s, env) && IsTracked(s, origin)
    ensures var o := Serve(s, origin, m, env);
            && (o.Crash? <==> Fatal(m))
            && (!o.Crash? ==>
                  && Inv(o.s)
                  && Tracked(o.s) == Tracked(s) - {origin}
                  && o.s.open == s.open - {origin}
                  && o.s.db == s.db
                  && !HasFor(o.s.tx, origin)
                  && multiset(o.s.tx) <= multiset(s.tx)
                  && forall p: Packet :: p.fd in s.open - {origin} ==> multiset(o.s.tx)[p] == multiset(s.tx)[p])
  {
    Unchanged(s, Done(s, None));
    if m.Some? {
      var d := Routing.FinalDestination(AsText(m.value.payload));
      if d.Some? {
        ContactGives(s, d.value, env);
      }
    }
    var answer := Answer(s, m, env);
    if !answer.Crash? {
      var fds :| fds !! s.open && Gave(s, answer.s, fds);
      RequesterLast(s, answer.s, fds, origin);
    }
  }

  lemma RequesterLast(s: State, s1: State, fds: set<Fd>, origin: Fd)
    requires Inv(s) && IsTracked(s, origin) && fds !! s.open && Gave(s, s1, fds)
    ensures CloseFd(s1, origin).Done?
    ensures var s' := CloseFd(s1, origin).s;
            && Inv(s')
            && Tracked(s') == Tracked(s) - {origin}
            && s'.open == s.open - {origin}
            && s'.db == s.db
            && !HasFor(s'.tx, origin)
            && multiset(s'.tx) <= multiset(s.tx)
            && forall p: Packet :: p.fd in s.open - {origin} ==> multiset(s'.tx)[p] == multiset(s.tx)[p]
  {
    OnlyOpenTracked(s, fds);
    TrackedIff(s, origin);
    TrackedIff(s1, origin);
    CloseFdGives(s1, origin);
    var s' := CloseFd(s1, origin).s;
    forall k | 0 <= k < |s'.tx| ensures s'.tx[k].fd != origin {
      assert multiset(s'.tx)[s'.tx[k]] > 0;
    }
  }

  lemma OnlyOpenTracked(s: State, fds: set<Fd>)
    requires Inv(s) && fds !! s.open
    ensures Tracked(s) - fds == Tracked(s) && s.open - fds == s.open
    ensures Tracked(s).Keys <= s.open
  {
    forall fd | fd in Tracked(s) ensures fd in s.open && fd !in fds {
      TrackedIff(s, fd);
    }
    SlotMap.SameMap(Tracked(s) - fds, Tracked(s));
  }

  /** An error leaves the event loop, and deinit closes the context: no entry is
      left, exactly the descriptors that were open without being tracked are
      still open, and of the messages for descriptors open before, exactly those
      for the untracked ones are still queued. */
  lemma ErrorExitLeavesNothing(s: State, origin: Fd, m: Option<Packet>, env: LookupEnv)
    requires Inv(s) && Fresh(s, env) && IsTracked(s, origin)
    requires Serve(s, origin, m, env).Failed?
    ensures var end := CloseAll(Serve(s, origin, m, env).s);
            && end.Done? && end.s.polls == [] && end.s.conns == []
            && end.s.open == s.open - Tracked(s).Keys
            && (forall fd :: IsTracked(s, fd) ==> !HasFor(end.s.tx, fd))
            && forall p: Packet :: p.fd in s.open ==>
                 multiset(end.s.tx)[p] == if IsTracked(s, p.fd) then 0 else multiset(s.tx)[p]
  {
    ServeConserves(s, origin, m, env);
    var s' := Serve(s, origin, m, env).s;
    assert Tracked(s') == Tracked(s) - {origin};
    ClosedAfterwards(s, s', origin);
  }

  lemma ClosedAfterwards(s: State, s': State, origin: Fd)
    requires Inv(s') && IsTracked(s, origin)
    requires Tracked(s') == Tracked(s) - {origin} && s'.open == s.open - {origin} && !HasFor(s'.tx, origin)
    requires forall p: Packet :: p.fd in s.open - {origin} ==> multiset(s'.tx)[p] == multiset(s.tx)[p]
    ensures var end := CloseAll(s');
            && end.Done? && end.s.polls == [] && end.s.conns == []
            && end.s.open == s.open - Tracked(s).Keys
            && (forall fd :: IsTracked(s, fd) ==> !HasFor(end.s.tx, fd))
            && forall p: Packet :: p.fd in s.open ==>
                 multiset(end.s.tx)[p] == if IsTracked(s, p.fd) then 0 else multiset(s.tx)[p]
  {
    var end := CloseAll(s');
    assert end.Done? && end.s.polls == [] && end.s.conns == [] by { CloseAllKeeps(s'); }
    assert end.s.open == s.open - Tracked(s).Keys by { OpenAfterwards(s, s', origin); }
    QueueAfterwards(s, s', origin);
  }

  lemma OpenAfterwards(s: State, s': State, origin: Fd)
    requires Inv(s') && IsTracked(s, origin)
    requires Tracked(s') == Tracked(s) - {origin} && s'.open == s.open - {origin}
    ensures CloseAll(s').Done? && CloseAll(s').s.open == s.open - Tracked(s).Keys
  {
    TrackedAfterwards(s, s', origin);
    OpenLeft(s', Tracked(s).Keys, origin);
    TrackedIff(s, origin);
    assert s.open - {origin} - Tracked(s).Keys == s.open - Tracked(s).Keys;
  }

  lemma OpenLeft(s: State, fds: set<Fd>, origin: Fd)
    requires Inv(s) && forall fd :: IsTracked(s, fd) <==> fd in fds - {origin}
    requires origin !in s.open
    ensures CloseAll(s).Done? && CloseAll(s).s.open == s.open - fds
  {
    CloseAllKeeps(s);
    var left := CloseAll(s).s.open;
    forall fd ensures fd in left <==> fd in s.open - fds {
      assert fd in left <==> fd in s.open && !IsTracked(s, fd);
    }
  }

  lemma QueueAfterwards(s: State, s': State, origin: Fd)
    requires Inv(s') && IsTracked(s, origin) && !HasFor(s'.tx, origin)
    requires Tracked(s') == Tracked(s) - {origin}
    requires forall p: Packet :: p.fd in s.open - {origin} ==> multiset(s'.tx)[p] == multiset(s.tx)[p]
    ensures CloseAll(s').Done?
    ensures forall fd :: IsTracked(s, fd) ==> !HasFor(CloseAll(s').s.tx, fd)
    ensures forall p: Packet :: p.fd in s.open ==>
              multiset(CloseAll(s').s.tx)[p] == if IsTracked(s, p.fd) then 0 else multiset(s.tx)[p]
  {
    assert forall fd :: IsTracked(s', fd) <==> IsTracked(s, fd) && fd != origin by {
      TrackedAfterwards(s, s', origin);
    }
    CloseAllKeeps(s');
    NothingQueuedFor(s'.tx, origin);
  }

  lemma TrackedAfterwards(s: State, s': State, origin: Fd)
    requires Tracked(s') == Tracked(s) - {origin}
    ensures forall fd :: IsTracked(s', fd) <==> IsTracked(s, fd) && fd != origin
    ensures forall fd :: IsTracked(s', fd) <==> fd in Tracked(s).Keys - {origin}
  {
    forall fd ensures IsTracked(s', fd) <==> IsTracked(s, fd) && fd != origin
      ensures fd in Tracked(s).Keys <==> IsTracked(s, fd) {
      TrackedIff(s, fd);
      TrackedIff(s', fd);
    }
  }

  lemma NothingQueuedFor(tx: seq<Packet>, fd: Fd)
    requires !HasFor(tx, fd)
    ensures forall p: Packet :: p.fd == fd ==> multiset(tx)[p] == 0
  {
    forall p: Packet | p.fd == fd ensures multiset(tx)[p] == 0 {
      assert p in tx ==> HasFor(tx, fd);
    }
  }

  /** Which descriptor the requester receives: a connection to the address of a
      unix destination; for any other protocol, the connection to its daemon, and
      only after the daemon has answered "ok". */
  lemma HandedDescriptor(s: State, destination: string, env: LookupEnv)
    requires Contact(s, destination, env).Done?
    ensures var uri := Text.ReadUri(destination).value;
            var handed := Contact(s, destination, env).value;
            if uri.protocol == "unix" then
              uri.address in env.services && handed == Some(env.services[uri.address])
            else
              && uri.protocol in env.services
              && handed == if SaysOk(env.reply) then Some(env.services[uri.protocol]) else None
  {
    Text.ProtocolIsProper(destination);
    var uri := Text.ReadUri(destination).value;
    if uri.protocol != "unix" {
      assert Contact(s, destination, env) == Relay(s, uri.protocol, env);
      AnswerOfDaemon(ZigState.Connect(s, Connection(IPC, None), env.services[uri.protocol]),
                     env.services[uri.protocol], env);
    }
  }

  lemma AnswerOfDaemon(s: State, fd: Fd, env: LookupEnv)
    ensures Converse(s, fd, env).Done? ==>
              Converse(s, fd, env).value == if SaysOk(env.reply) then Some(fd) else None
  {
  }

  predicate SaysOk(reply: Recv) {
    && reply.Arrived?
    && ZigWire.ContextRead(reply.bytes).Got?
    && AsText(ZigWire.ContextRead(reply.bytes).payload) == "ok"
  }

  // ----- the daemon itself -----

  method ServeLookup(ctx: Context, origin: Fd, m: Option<Packet>, env: LookupEnv) returns (r: Reply<Option<Fd>>)
    requires ctx.Valid()
    modifies ctx, ctx.switchdb
    ensures ctx.Valid() && Matches(Serve(old(ctx.Now()), origin, m, env), ctx.Now(), r)
  {
    r := AnswerLookup(ctx, m, env);
    if !r.Panic? {
      var closed := ctx.CloseFd(origin);
      if closed.Panic? {
        r := Panic(closed.fault);
      }
    }
  }

  method AnswerLookup(ctx: Context, m: Option<Packet>, env: LookupEnv) returns (r: Reply<Option<Fd>>)
    requires ctx.Valid()
    modifies ctx, ctx.switchdb
    ensures ctx.Valid() && Matches(Answer(old(ctx.Now()), m, env), ctx.Now(), r)
  {
    if m == None {
      return if env.sent then Value(None) else Error(WriteFailed);
    }
    var _, finalDestination := Routing.FindDestination(AsText(m.value.payload));
    if finalDestination == None {
      return Value(None);
    }
    var destination := finalDestination.value;
    var parsed := Text.ReadUri(destination);
    if parsed == None {
      return Panic(NullUnwrap);
    }
    var uri := parsed.value;
    if uri.protocol == destination {
      r := HandOverTo(ctx, destination, env);
    } else if uri.protocol == "unix" {
      r := HandOverTo(ctx, uri.address, env);
    } else {
      r := RelayTo(ctx, uri.protocol, env);
    }
  }

  method HandOverTo(ctx: Context, service: string, env: LookupEnv) returns (r: Reply<Option<Fd>>)
    requires ctx.Valid()
    modifies ctx, ctx.switchdb
    ensures ctx.Valid() && Matches(HandOver(old(ctx.Now()), service, env), ctx.Now(), r)
  {
    if service !in env.services {
      return Error(ConnectFailed);
    }
    var newfd := env.services[service];
    ctx.AddNew(Connection(IPC, None), newfd);
    var closed := ctx.CloseFd(newfd);
    r := match closed
         case Value(_) => Value(Some(newfd))
         case Error(e) => Error(e)
         case Panic(f) => Panic(f);
  }

  method RelayTo(ctx: Context, protocol: string, env: LookupEnv) returns (r: Reply<Option<Fd>>)
    requires ctx.Valid()
    modifies ctx, ctx.switchdb
    ensures ctx.Valid() && Matches(Relay(old(ctx.Now()), protocol, env), ctx.Now(), r)
  {
    if protocol !in env.services {
      return Error(ConnectFailed);
    }
    var servicefd := env.services[protocol];
    ctx.AddNew(Connection(IPC, None), servicefd);
    r := Dialogue(ctx, servicefd, env);
    if !r.Panic? {
      var closed := ctx.CloseFd(servicefd);
      if closed.Panic? {
        r := Panic(closed.fault);
      }
    }
  }

  method Dialogue(ctx: Context, servicefd: Fd, env: LookupEnv) returns (r: Reply<Option<Fd>>)
    requires ctx.Valid()
    ensures Matches(Converse(ctx.Now(), servicefd, env), ctx.Now(), r)
  {
    if !env.sent {
      return Error(WriteFailed);
    }
    var index := ctx.FdToIndex(servicefd);
    if index == None {
      return Error(IndexNotFound);
    }
    var response := ctx.Read(index.value, env.reply);
    match response {
      case Value(Some(answer)) =>
        r := Value(if AsText(answer.payload) == "ok" then Some(servicefd) else None);
      case Value(None) => r := Value(None);
      case Error(e) => r := Error(e);
      case Panic(f) => r := Panic(f);
    }
  }
}
