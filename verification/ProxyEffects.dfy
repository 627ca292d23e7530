/** What each update does to the proxy, service by service, without the words of the implementation. */
module ProxyEffects {
  import opened Basics
  import opened SniRouter
  import opened ProxyMappings
  import opened ProxyHolds
  import opened ProxyPorts
  import opened ProxyRuns

  /** The router that serves a port: the main one for the main port, none where no listener is open. */
  function Serving(cfg: Config, net: Net, port: int): Option<Table> {
    if port == 0 || port == cfg.mainPort then Some(net.main)
    else if port in net.routers then Some(net.routers[port]) else None
  }

  /** The route that a connection for the service takes, if one is installed for that host on that port. */
  function RouteAt(cfg: Config, net: Net, port: int, h: string, s: string): Option<Route> {
    match Serving(cfg, net, port)
    case None => None
    case Some(t) => Find(t, h, s)
  }

  function FallbackAt(cfg: Config, net: Net, port: int): Option<Route> {
    match Serving(cfg, net, port)
    case None => None
    case Some(t) => t.fallback
  }

  // ----- When a set-up succeeds -----

  /** A listener may run on the port, and there is something to connect it to. */
  predicate Offerable(cfg: Config, m: Mapping) {
    1 <= m.port <= 65535 && m.target != "" && (cfg.wireguardPort == 0 || m.port != cfg.wireguardPort)
  }

  lemma SetupOkIff(cfg: Config, st: State, m: Mapping, o: Outcome)
    ensures SetupRoutes(cfg, st, m, o).ok <==>
            match m.mode
            case Http => m.hasPath ==> o.authOk
            case Udp => Offerable(cfg, m) && o.bindOk && o.dialOk
            case _ => Offerable(cfg, m) && (Serving(cfg, st.net, m.port).Some? || o.bindOk)
  {
  }

  /** A CREATED succeeds exactly under these conditions. */
  lemma CreatedOkIff(cfg: Config, st: State, m: Mapping, o: Outcome)
    ensures Succeeds(cfg, st, Created(m, o)) <==>
            && o.peerOk
            && match m.mode
               case Http => m.hasPath ==> o.authOk
               case Udp => Offerable(cfg, m) && o.bindOk && o.dialOk
               case _ => Offerable(cfg, m) && (Serving(cfg, st.net, m.port).Some? || o.bindOk)
  {
    SetupOkIff(cfg, st, m, o);
  }

  // ----- What a set-up installs -----

  /** What the service is offered as, after an update that succeeded. */
  ghost predicate Installed(cfg: Config, st: State, m: Mapping) {
    && m.id in st.stored && st.stored[m.id] == m
    && match m.mode
       case Tcp =>
         && FallbackAt(cfg, st.net, m.port) == Some(Route(TcpRoute, m.account, m.id, m.domain, m.target))
         && m.id in st.net.svcPorts && st.net.svcPorts[m.id] == [m.port]
       case Tls =>
         && (m.domain != "" ==>
               RouteAt(cfg, st.net, m.port, Lower(m.domain), m.id) == Some(Route(TcpRoute, m.account, m.id, m.domain, m.target)))
         && Serving(cfg, st.net, m.port).Some?
         && (m.port != cfg.mainPort ==> m.id in st.net.svcPorts && st.net.svcPorts[m.id] == [m.port])
       case Http =>
         m.hasPath && m.domain != "" ==>
           Find(st.net.main, Lower(m.domain), m.id) == Some(Route(HttpRoute, m.account, m.id, m.domain, ""))
       case Udp =>
         m.id in st.relays && st.relays[m.id] == m.port
  }

  lemma TcpInstalls(cfg: Config, st: State, m: Mapping, o: Outcome)
    requires m.mode.Tcp? && SetupTcp(cfg, st, m, o).ok
    ensures Installed(cfg, Finish(cfg, SetupTcp(cfg, st, m, o), m), m)
  {
  }

  lemma TlsInstalls(cfg: Config, st: State, m: Mapping, o: Outcome)
    requires m.mode.Tls? && SetupTls(cfg, st, m, o).ok
    ensures Installed(cfg, Finish(cfg, SetupTls(cfg, st, m, o), m), m)
  {
    LowerOnlyEmpty(m.domain);
    FindAddRoute(OpenedTable(cfg, st.net, m.port), m.domain, Route(TcpRoute, m.account, m.id, m.domain, m.target),
                 Lower(m.domain), m.id);
  }

  lemma HttpInstalls(cfg: Config, st: State, m: Mapping, o: Outcome)
    requires m.mode.Http? && SetupHttp(cfg, st, m, o).ok
    ensures Installed(cfg, Finish(cfg, SetupHttp(cfg, st, m, o), m), m)
  {
    LowerOnlyEmpty(m.domain);
    FindAddRoute(st.net.main, m.domain, Route(HttpRoute, m.account, m.id, m.domain, ""), Lower(m.domain), m.id);
  }

  lemma SetupInstalls(cfg: Config, st: State, m: Mapping, o: Outcome)
    requires SetupRoutes(cfg, st, m, o).ok
    ensures Installed(cfg, Finish(cfg, SetupRoutes(cfg, st, m, o), m), m)
  {
    match m.mode {
      case Tcp => TcpInstalls(cfg, st, m, o);
      case Tls => TlsInstalls(cfg, st, m, o);
      case Http => HttpInstalls(cfg, st, m, o);
      case Udp =>
    }
  }

  /** Every CREATED or MODIFIED that succeeds installs its mapping: a TCP service as the fallback of its port, a TLS
      service under its host on its port, both with the mapping's target; an HTTP service under its host on the main
      router; a UDP service as a relay on its port. */
  lemma UpdateInstalls(cfg: Config, st: State, u: Update)
    requires Succeeds(cfg, st, u)
    ensures Installed(cfg, Step(cfg, st, u), u.m)
  {
    match u {
      case Created(m, o) => SetupInstalls(cfg, st, m, o);
      case Modified(m, o) => SetupInstalls(cfg, Cleanup(cfg, st, Previous(st, m)), m, o);
    }
  }

  /** A CREATED whose NetBird peer cannot be set up changes nothing. */
  lemma PeerFailure(cfg: Config, st: State, m: Mapping, o: Outcome)
    requires !o.peerOk
    ensures Step(cfg, st, Created(m, o)) == st
  {
  }

  // ----- What an update leaves alone -----

  /** Everything the proxy has for a service, apart from being some port's fallback, is the same in both states. */
  ghost predicate SameFor(cfg: Config, a: State, b: State, s: string) {
    && (s in a.stored <==> s in b.stored) && (s in a.stored ==> a.stored[s] == b.stored[s])
    && (s in a.net.svcPorts <==> s in b.net.svcPorts) && (s in a.net.svcPorts ==> a.net.svcPorts[s] == b.net.svcPorts[s])
    && (s in a.relays <==> s in b.relays) && (s in a.relays ==> a.relays[s] == b.relays[s])
    && (s in a.holds.refs <==> s in b.holds.refs) && (s in a.holds.tracked <==> s in b.holds.tracked)
    && forall p, h :: RouteAt(cfg, a.net, p, h, s) == RouteAt(cfg, b.net, p, h, s)
  }

  lemma SameTrans(cfg: Config, a: State, b: State, c: State, s: string)
    requires SameFor(cfg, a, b, s) && SameFor(cfg, b, c, s)
    ensures SameFor(cfg, a, c, s)
  {
    forall p, h ensures RouteAt(cfg, a.net, p, h, s) == RouteAt(cfg, c.net, p, h, s) {
      assert RouteAt(cfg, a.net, p, h, s) == RouteAt(cfg, b.net, p, h, s);
    }
  }

  lemma PutRoutes(cfg: Config, net: Net, port: int, t: Table, s: string)
    requires forall h :: Find(t, h, s) == RouteAt(cfg, net, port, h, s)
    ensures forall p, h :: RouteAt(cfg, PutTable(cfg, net, port, t), p, h, s) == RouteAt(cfg, net, p, h, s)
  {
    forall p, h ensures RouteAt(cfg, PutTable(cfg, net, port, t), p, h, s) == RouteAt(cfg, net, p, h, s) {
      assert Find(t, h, s) == RouteAt(cfg, net, port, h, s);
      if IsMain(cfg, p) && IsMain(cfg, port) { assert RouteAt(cfg, net, p, h, s) == RouteAt(cfg, net, port, h, s); }
    }
  }

  lemma OpenedRoutes(cfg: Config, net: Net, port: int, h: string, s: string)
    ensures Find(OpenedTable(cfg, net, port), h, s) == RouteAt(cfg, net, port, h, s)
  {
  }

  ghost predicate SameRoutes(cfg: Config, a: Net, b: Net, s: string) {
    forall p, h :: RouteAt(cfg, a, p, h, s) == RouteAt(cfg, b, p, h, s)
  }

  lemma ListingIgnored(cfg: Config, a: Net, b: Net, s: string)
    requires a.main == b.main && a.routers == b.routers
    ensures SameRoutes(cfg, a, b, s)
  {
  }

  lemma TcpOthers(cfg: Config, net: Net, m: Mapping, s: string)
    requires s != m.id
    ensures SameRoutes(cfg, net, NetTcp(cfg, net, m), s)
  {
    var t := SetFallback(OpenedTable(cfg, net, m.port), RouteOf(m));
    forall h ensures Find(t, h, s) == RouteAt(cfg, net, m.port, h, s) { OpenedRoutes(cfg, net, m.port, h, s); }
    PutRoutes(cfg, net, m.port, t, s);
    ListingIgnored(cfg, PutTable(cfg, net, m.port, t), NetTcp(cfg, net, m), s);
    assert SameRoutes(cfg, net, PutTable(cfg, net, m.port, t), s);
    RoutesTrans(cfg, net, PutTable(cfg, net, m.port, t), NetTcp(cfg, net, m), s);
  }

  lemma TlsOthers(cfg: Config, net: Net, m: Mapping, s: string)
    requires s != m.id
    ensures SameRoutes(cfg, net, NetTls(cfg, net, m), s)
  {
    var t := AddRoute(OpenedTable(cfg, net, m.port), m.domain, RouteOf(m));
    forall h ensures Find(t, h, s) == RouteAt(cfg, net, m.port, h, s) {
      OpenedRoutes(cfg, net, m.port, h, s);
      FindAddRoute(OpenedTable(cfg, net, m.port), m.domain, RouteOf(m), h, s);
    }
    PutRoutes(cfg, net, m.port, t, s);
    ListingIgnored(cfg, PutTable(cfg, net, m.port, t), NetTls(cfg, net, m), s);
    assert SameRoutes(cfg, net, PutTable(cfg, net, m.port, t), s);
    RoutesTrans(cfg, net, PutTable(cfg, net, m.port, t), NetTls(cfg, net, m), s);
  }

  lemma RoutesTrans(cfg: Config, a: Net, b: Net, c: Net, s: string)
    requires SameRoutes(cfg, a, b, s) && SameRoutes(cfg, b, c, s)
    ensures SameRoutes(cfg, a, c, s)
  {
    forall p, h ensures RouteAt(cfg, a, p, h, s) == RouteAt(cfg, c, p, h, s) {
      assert RouteAt(cfg, a, p, h, s) == RouteAt(cfg, b, p, h, s);
    }
  }

  lemma HttpOthers(cfg: Config, net: Net, m: Mapping, s: string)
    requires s != m.id
    ensures SameRoutes(cfg, net, NetHttp(net, m), s)
  {
    forall p, h ensures RouteAt(cfg, net, p, h, s) == RouteAt(cfg, NetHttp(net, m), p, h, s) {
      FindAddRoute(net.main, m.domain, RouteOf(m), h, s);
    }
  }

  lemma SetupNet(cfg: Config, st: State, m: Mapping, o: Outcome)
    ensures var net := SetupRoutes(cfg, st, m, o).st.net;
            || net == st.net
            || (m.mode.Tcp? && net == NetTcp(cfg, st.net, m))
            || (m.mode.Tls? && net == NetTls(cfg, st.net, m))
            || (m.mode.Http? && net == NetHttp(st.net, m))
  {
  }

  lemma SetupRoutesOthers(cfg: Config, st: State, m: Mapping, o: Outcome, s: string)
    requires s != m.id
    ensures SameRoutes(cfg, st.net, SetupRoutes(cfg, st, m, o).st.net, s)
  {
    SetupNet(cfg, st, m, o);
    match m.mode {
      case Tcp => TcpOthers(cfg, st.net, m, s);
      case Tls => TlsOthers(cfg, st.net, m, s);
      case Http => HttpOthers(cfg, st.net, m, s);
      case Udp =>
    }
  }

  lemma SetupOthers(cfg: Config, st: State, m: Mapping, o: Outcome, s: string)
    requires s != m.id
    ensures SameFor(cfg, st, SetupRoutes(cfg, st, m, o).st, s)
  {
    SetupKeeps(cfg, st, m, o);
    SetupNet(cfg, st, m, o);
    SetupRoutesOthers(cfg, st, m, o, s);
    assert SameRoutes(cfg, st.net, SetupRoutes(cfg, st, m, o).st.net, s);
  }

  lemma StrippedRoute(m: Mapping, t: Table, h: string, s: string)
    requires s != m.id
    ensures Find(Stripped(m, t), h, s) == Find(t, h, s)
    ensures IsEmpty(Stripped(m, t)) ==> Find(t, h, s).None?
  {
    FindRemoveRoute(t, m.domain, m.id, h, s);
  }

  lemma CloseEntryOthers(cfg: Config, net: Net, m: Mapping, port: int, s: string)
    requires s != m.id
    ensures forall p, h :: RouteAt(cfg, CloseEntry(cfg, net, m, port), p, h, s) == RouteAt(cfg, net, p, h, s)
    ensures CloseEntry(cfg, net, m, port).svcPorts == net.svcPorts
  {
    var t := TableAt(cfg, net, port);
    if t.Some? {
      forall h
        ensures Find(Stripped(m, t.value), h, s) == RouteAt(cfg, net, port, h, s)
        ensures IsEmpty(Stripped(m, t.value)) ==> RouteAt(cfg, net, port, h, s).None?
      {
        StrippedRoute(m, t.value, h, s);
      }
      PutRoutes(cfg, net, port, Stripped(m, t.value), s);
    }
  }

  lemma {:induction false} CloseEntriesOthers(cfg: Config, net: Net, m: Mapping, ports: seq<int>, s: string)
    requires s != m.id
    ensures forall p, h :: RouteAt(cfg, CloseEntries(cfg, net, m, ports), p, h, s) == RouteAt(cfg, net, p, h, s)
    ensures CloseEntries(cfg, net, m, ports).svcPorts == net.svcPorts
    decreases |ports|
  {
    if ports != [] {
      var net1 := CloseEntry(cfg, net, m, ports[0]);
      CloseEntryOthers(cfg, net, m, ports[0], s);
      CloseEntriesOthers(cfg, net1, m, ports[1..], s);
      forall p, h ensures RouteAt(cfg, CloseEntries(cfg, net, m, ports), p, h, s) == RouteAt(cfg, net, p, h, s) {
        assert RouteAt(cfg, net1, p, h, s) == RouteAt(cfg, net, p, h, s);
      }
    }
  }

  lemma CleanupOthers(cfg: Config, st: State, m: Mapping, s: string)
    requires s != m.id
    ensures SameFor(cfg, st, Cleanup(cfg, st, m), s)
  {
    var net1 := Unlisted(st.net, m);
    forall p, h ensures RouteAt(cfg, net1, p, h, s) == RouteAt(cfg, st.net, p, h, s) {
      FindRemoveRoute(st.net.main, m.domain, m.id, h, s);
    }
    CloseEntriesOthers(cfg, net1, m, PortsOf(st.net, m.id), s);
    forall p, h ensures RouteAt(cfg, CleanNet(cfg, st.net, m), p, h, s) == RouteAt(cfg, st.net, p, h, s) {
      assert RouteAt(cfg, net1, p, h, s) == RouteAt(cfg, st.net, p, h, s);
    }
  }

  lemma FinishOthers(cfg: Config, st: State, m: Mapping, o: Outcome, s: string)
    requires s != m.id
    ensures SameFor(cfg, st, Finish(cfg, SetupRoutes(cfg, st, m, o), m), s)
  {
    var r := SetupRoutes(cfg, st, m, o);
    SetupOthers(cfg, st, m, o, s);
    if !r.ok {
      CleanupOthers(cfg, r.st, m, s);
      SameTrans(cfg, st, r.st, Cleanup(cfg, r.st, m), s);
    }
  }

  /** Whatever an update does, failed or not, every other service keeps its routes on every port, its listing, its
      relay, its stored mapping and its hold. */
  lemma OthersUntouched(cfg: Config, st: State, u: Update, s: string)
    requires s != u.m.id && StoredById(st.stored)
    ensures SameFor(cfg, st, Step(cfg, st, u), s)
  {
    var was := Previous(st, u.m);
    match u {
      case Created(m, o) => if o.peerOk { FinishOthers(cfg, st, m, o, s); }
      case Modified(m, o) =>
        CleanupOthers(cfg, st, was, s);
        FinishOthers(cfg, Cleanup(cfg, st, was), m, o, s);
        SameTrans(cfg, st, Cleanup(cfg, st, was), Step(cfg, st, u), s);
      case Removed(m) => CleanupOthers(cfg, st.(stored := st.stored - {m.id}), was, s);
    }
  }

  // ----- What a removal takes away -----

  lemma CloseEntryOwn(cfg: Config, net: Net, m: Mapping, port: int, p: int)
    ensures var net' := CloseEntry(cfg, net, m, port);
            if m.domain != "" then
              (p == port || RouteAt(cfg, net, p, Lower(m.domain), m.id).None? ==>
                 RouteAt(cfg, net', p, Lower(m.domain), m.id).None?)
            else
              (p == port || FallbackAt(cfg, net, p).None? ==> FallbackAt(cfg, net', p).None?)
  {
    var t := TableAt(cfg, net, port);
    if t.Some? { FindRemoveRoute(t.value, m.domain, m.id, Lower(m.domain), m.id); }
  }

  lemma {:induction false} CloseEntriesOwn(cfg: Config, net: Net, m: Mapping, ports: seq<int>, p: int)
    ensures var net' := CloseEntries(cfg, net, m, ports);
            if m.domain != "" then
              (p in ports || RouteAt(cfg, net, p, Lower(m.domain), m.id).None? ==>
                 RouteAt(cfg, net', p, Lower(m.domain), m.id).None?)
            else
              (p in ports || FallbackAt(cfg, net, p).None? ==> FallbackAt(cfg, net', p).None?)
    decreases |ports|
  {
    if ports != [] {
      CloseEntryOwn(cfg, net, m, ports[0], p);
      CloseEntriesOwn(cfg, CloseEntry(cfg, net, m, ports[0]), m, ports[1..], p);
    }
  }

  /** After a removal the service is not stored, not listed, has no relay and no hold; on the main router and on every
      port it was listed on, its route under the stored domain is gone or, without a domain, the port's fallback. */
  lemma RemovalTakesDown(cfg: Config, st: State, m: Mapping, p: int)
    requires StoredById(st.stored) && HoldsAgree(st.holds)
    ensures var st', was := Step(cfg, st, Removed(m)), if m.id in st.stored then st.stored[m.id] else m;
            && m.id !in st'.stored && m.id !in st'.net.svcPorts && m.id !in st'.relays && m.id !in st'.holds.refs
            && (was.domain != "" ==> Find(st'.net.main, Lower(was.domain), m.id).None?)
            && (m.id in st.net.svcPorts && p in st.net.svcPorts[m.id] ==>
                  if was.domain != "" then RouteAt(cfg, st'.net, p, Lower(was.domain), m.id).None?
                  else FallbackAt(cfg, st'.net, p).None?)
  {
    var was := Previous(st, m);
    var net1, ports := Unlisted(st.net, was), PortsOf(st.net, m.id);
    FindRemoveRoute(st.net.main, was.domain, m.id, Lower(was.domain), m.id);
    CloseEntriesOwn(cfg, net1, was, ports, p);
    CloseEntriesOwn(cfg, net1, was, ports, 0);
    ListingGone(cfg, net1, was, ports);
  }

  lemma {:induction false} ListingGone(cfg: Config, net: Net, m: Mapping, ports: seq<int>)
    ensures CloseEntries(cfg, net, m, ports).svcPorts == net.svcPorts
    decreases |ports|
  {
    if ports != [] { ListingGone(cfg, CloseEntry(cfg, net, m, ports[0]), m, ports[1..]); }
  }

  // ----- Holds -----

  lemma SetupHolds(cfg: Config, st: State, m: Mapping, o: Outcome)
    requires SetupRoutes(cfg, st, m, o).ok
    ensures SetupRoutes(cfg, st, m, o).st.holds ==
            if m.mode.Http? && !m.hasPath then st.holds else Acquire(cfg, st.holds, m, o)
  {
  }

  lemma AcquireTakes(cfg: Config, hs: Holds, m: Mapping, o: Outcome)
    ensures m.id in Acquire(cfg, hs, m, o).refs <==>
            m.id in hs.refs || (m.crowdsec && cfg.crowdsecAvailable && (hs.refs != {} || o.bouncerOk))
  {
  }

  /** After a CREATED or MODIFIED that succeeds, the service holds the bouncer exactly if it asked for CrowdSec where
      CrowdSec is available and the bouncer runs or could be started, or, after a CREATED, held it already. */
  lemma HoldTaken(cfg: Config, st: State, u: Update)
    requires Succeeds(cfg, st, u) && HoldsAgree(st.holds) && StoredById(st.stored)
    ensures var before := if u.Created? then st.holds.refs else st.holds.refs - {u.m.id};
            u.m.id in Step(cfg, st, u).holds.refs <==>
            || u.m.id in before
            || (&& (u.m.mode.Http? ==> u.m.hasPath)
                && u.m.crowdsec && cfg.crowdsecAvailable && (before != {} || u.o.bouncerOk))
  {
    var st0 := if u.Modified? then Cleanup(cfg, st, Previous(st, u.m)) else st;
    if u.Modified? { ReleaseHolds(st.holds, u.m.id); }
    SetupHolds(cfg, st0, u.m, u.o);
    AcquireTakes(cfg, st0.holds, u.m, u.o);
  }

  /** A set-up that fails leaves no hold of the service. */
  lemma FailureReleases(cfg: Config, st: State, u: Update)
    requires !u.Removed? && !Succeeds(cfg, st, u) && (u.Created? ==> u.o.peerOk) && HoldsAgree(st.holds) && StoredById(st.stored)
    ensures u.m.id !in Step(cfg, st, u).holds.refs && u.m.id !in Step(cfg, st, u).relays
  {
    var st0 := if u.Modified? then Cleanup(cfg, st, Previous(st, u.m)) else st;
    if u.Modified? { ReleaseHolds(st.holds, u.m.id); }
    SetupKeeps(cfg, st0, u.m, u.o);
    AcquireHolds(cfg, st0.holds, u.m, u.o);
    ReleaseHolds(SetupRoutes(cfg, st0, u.m, u.o).st.holds, u.m.id);
  }
}
