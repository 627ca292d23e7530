/** The per-port routers against the bookkeeping: the routers that the proxy maintains
    update by update are compared with the routers its stored mappings call for. */
module ProxyPorts {
  import opened Basics
  import opened SniRouter
  import opened ProxyMappings

  predicate Listed(net: Net, svc: string, port: int) {
    svc in net.svcPorts && net.svcPorts[svc] == [port]
  }

  predicate TcpAt(net: Net, stored: Stored, svc: string, port: int) {
    Listed(net, svc, port) && svc in stored && stored[svc].mode.Tcp?
  }

  /** Every port entry is explained by the stored mapping of its service. */
  ghost predicate Booked(cfg: Config, net: Net, stored: Stored) {
    forall svc :: svc in net.svcPorts ==>
      && svc in stored
      && var m := stored[svc];
      && m.id == svc && ValidPort(m.port) && Listed(net, svc, m.port)
      && (m.mode.Tcp? || (m.mode.Tls? && m.domain != "" && m.port != cfg.mainPort))
  }

  /** The route the bookkeeping calls for at one host of one port: the reference that the
      incrementally maintained router is compared with. */
  function Expected(net: Net, stored: Stored, port: int, h: string, svc: string): Option<Route> {
    if Listed(net, svc, port) && svc in stored && stored[svc].mode.Tls? && Lower(stored[svc].domain) == h
    then Some(RouteOf(stored[svc]))
    else None
  }

  ghost predicate RoutesExact(net: Net, stored: Stored, port: int, t: Table) {
    WellFormed(t) && forall h, svc :: Find(t, h, svc) == Expected(net, stored, port, h, svc)
  }

  ghost predicate FallbackExact(net: Net, stored: Stored, port: int, fallback: Option<Route>) {
    match fallback
    case Some(r) => TcpAt(net, stored, r.service, port) && r == RouteOf(stored[r.service])
    case None => forall svc :: !TcpAt(net, stored, svc, port)
  }

  ghost predicate TableExact(net: Net, stored: Stored, port: int, t: Table) {
    RoutesExact(net, stored, port, t) && FallbackExact(net, stored, port, t.fallback)
  }

  ghost predicate PortExact(net: Net, stored: Stored, port: int) {
    && (port in net.routers <==> exists svc :: Listed(net, svc, port))
    && (port in net.routers ==> TableExact(net, stored, port, net.routers[port]))
  }

  /** The open per-port routers are exactly the non-main ports listed for some service,
      and each holds exactly the routes and the fallback of those services. */
  ghost predicate Exact(cfg: Config, net: Net, stored: Stored) {
    && Booked(cfg, net, stored)
    && (forall p :: p in net.routers ==> !IsMain(cfg, p))
    && (forall p :: !IsMain(cfg, p) ==> PortExact(net, stored, p))
    && FallbackExact(net, stored, cfg.mainPort, net.main.fallback)
  }

  /** The fallback of the mapping's port is the mapping's own. */
  predicate OwnsFallback(cfg: Config, net: Net, m: Mapping) {
    OpenedTable(cfg, net, m.port).fallback == Some(RouteOf(m))
  }

  /** Whether cleaning up after `m`, for the service listed with the mapping that is stored, takes away exactly what
      the service has. A clean-up looks at the domain of the mapping it is given and at nothing else of it. */
  ghost predicate Tidy(cfg: Config, net: Net, stored: Stored, m: Mapping) {
    m.id in stored &&
    var was := stored[m.id];
    if was.mode.Tls? then Lower(m.domain) == Lower(was.domain)
    else if m.domain == "" then forall s :: TcpAt(net, stored, s, was.port) ==> s == m.id
    else !OwnsFallback(cfg, net, was)
  }

  // ----- Cleaning up one service -----

  /** A booked service has at most one tracked port. */
  lemma CloseBooked(cfg: Config, net: Net, stored: Stored, m: Mapping)
    requires Booked(cfg, net, stored)
    ensures CleanNet(cfg, net, m) ==
            if m.id in net.svcPorts then CloseEntry(cfg, Unlisted(net, m), m, stored[m.id].port) else Unlisted(net, m)
  {
    if m.id in net.svcPorts {
      var p := stored[m.id].port;
      assert Listed(net, m.id, p);
      assert [p][1..] == [];
      var closed := CloseEntry(cfg, Unlisted(net, m), m, p);
      assert CloseEntries(cfg, closed, m, []) == closed;
    }
  }

  lemma CleanNetListing(cfg: Config, net: Net, stored: Stored, m: Mapping)
    requires Booked(cfg, net, stored)
    ensures CleanNet(cfg, net, m).svcPorts == net.svcPorts - {m.id}
  {
    CloseBooked(cfg, net, stored, m);
  }

  ghost predicate SameAt<K, V>(a: map<K, V>, b: map<K, V>, k: K) {
    (k in a <==> k in b) && (k in a ==> a[k] == b[k])
  }

  lemma CleanNetOtherPort(cfg: Config, net: Net, stored: Stored, m: Mapping, q: int)
    requires Booked(cfg, net, stored)
    requires !Listed(net, m.id, q)
    ensures SameAt(CleanNet(cfg, net, m).routers, net.routers, q)
  {
    CloseBooked(cfg, net, stored, m);
  }

  lemma CleanNetMainTable(cfg: Config, net: Net, stored: Stored, m: Mapping)
    requires Booked(cfg, net, stored)
    ensures var t := CleanNet(cfg, net, m).main; var t0 := Unlisted(net, m).main;
            t == if m.id in net.svcPorts && IsMain(cfg, stored[m.id].port) then Stripped(m, t0) else t0
  {
    CloseBooked(cfg, net, stored, m);
  }

  /** The main router only ever loses the service's own route. */
  lemma CleanNetMain(cfg: Config, net: Net, stored: Stored, m: Mapping, h: string, s: string)
    requires Booked(cfg, net, stored)
    ensures Find(CleanNet(cfg, net, m).main, h, s) ==
            if m.domain != "" && h == Lower(m.domain) && s == m.id then None else Find(net.main, h, s)
  {
    CleanNetMainTable(cfg, net, stored, m);
    if m.domain != "" {
      FindRemoveRoute(net.main, m.domain, m.id, h, s);
      FindRemoveRoute(RemoveRoute(net.main, m.domain, m.id), m.domain, m.id, h, s);
    }
  }

  /** Exactness of one port only depends on its router and on the services that list it. */
  lemma PortFrame(net: Net, net': Net, stored: Stored, stored': Stored, q: int)
    requires SameAt(net'.routers, net.routers, q)
    requires forall s :: Listed(net', s, q) <==> Listed(net, s, q)
    requires forall s :: Listed(net, s, q) ==> SameAt(stored', stored, s)
    ensures PortExact(net', stored', q) <==> PortExact(net, stored, q)
    ensures forall s :: TcpAt(net', stored', s, q) <==> TcpAt(net, stored, s, q)
  {
    assert forall s :: TcpAt(net', stored', s, q) <==> TcpAt(net, stored, s, q);
    assert forall h, s :: Expected(net', stored', q, h, s) == Expected(net, stored, q, h, s);
  }

  /** An exact table is empty exactly when no service lists its port. */
  lemma EmptyIffUnlisted(cfg: Config, net: Net, stored: Stored, p: int, t: Table)
    requires Booked(cfg, net, stored) && TableExact(net, stored, p, t)
    ensures IsEmpty(t) <==> forall s :: !Listed(net, s, p)
  {
    EmptyIffNothingFound(t);
    if s :| Listed(net, s, p) {
      var m := stored[s];
      if m.mode.Tls? {
        assert Expected(net, stored, p, Lower(m.domain), s).Some?;
        assert Find(t, Lower(m.domain), s).Some?;
      } else {
        assert TcpAt(net, stored, s, p);
      }
    } else {
      forall h, s ensures Find(t, h, s).None? {
        assert Find(t, h, s) == Expected(net, stored, p, h, s);
      }
    }
  }

  /** The routes are right after a clean-up unless a TLS service was cleaned up under another host. */
  lemma StrippedRoutes(cfg: Config, net: Net, stored: Stored, m: Mapping, net': Net, p: int, t: Table)
    requires Booked(cfg, net, stored) && m.id in net.svcPorts && Listed(net, m.id, p)
    requires net'.svcPorts == net.svcPorts - {m.id}
    requires RoutesExact(net, stored, p, t)
    ensures RoutesExact(net', stored, p, Stripped(m, t)) <==>
            (stored[m.id].mode.Tls? ==> Lower(m.domain) == Lower(stored[m.id].domain))
  {
    var was := stored[m.id];
    var t' := Stripped(m, t);
    forall h, s ensures Find(t', h, s) == if m.domain != "" && h == Lower(m.domain) && s == m.id then None else Find(t, h, s) {
      if m.domain != "" { FindRemoveRoute(t, m.domain, m.id, h, s); }
    }
    assert forall h, s :: Find(t, h, s) == Expected(net, stored, p, h, s);
    if was.mode.Tls? && Lower(m.domain) != Lower(was.domain) {
      assert Find(t', Lower(was.domain), m.id) == Find(t, Lower(was.domain), m.id);
      assert Expected(net', stored, p, Lower(was.domain), m.id).None?;
    } else {
      forall h, s ensures Find(t', h, s) == Expected(net', stored, p, h, s) {
        LowerOnlyEmpty(m.domain);
      }
    }
  }

  lemma LowerOnlyEmpty(s: string)
    ensures Lower(s) == "" <==> s == ""
  {
    assert |Lower(s)| == |s|;
  }

  /** The repair of the fallback is right exactly when the clean-up is tidy. */
  lemma StrippedFallback(cfg: Config, net: Net, stored: Stored, m: Mapping, net': Net, p: int, t: Table)
    requires Booked(cfg, net, stored) && m.id in net.svcPorts && Listed(net, m.id, p)
    requires net'.svcPorts == net.svcPorts - {m.id}
    requires FallbackExact(net, stored, p, t.fallback) && OpenedTable(cfg, net, p).fallback == t.fallback
    requires stored[m.id].mode.Tls? ==> m.domain != ""
    ensures FallbackExact(net', stored, p, Stripped(m, t).fallback) <==> stored[m.id].mode.Tls? || Tidy(cfg, net, stored, m)
  {
    assert p == stored[m.id].port;
    assert forall s :: TcpAt(net', stored, s, p) <==> TcpAt(net, stored, s, p) && s != m.id;
    if stored[m.id].mode.Tcp? {
      assert TcpAt(net, stored, m.id, p);
    }
  }

  lemma StrippedTable(cfg: Config, net: Net, stored: Stored, m: Mapping, net': Net, p: int, t: Table)
    requires Booked(cfg, net, stored) && m.id in net.svcPorts && Listed(net, m.id, p)
    requires net'.svcPorts == net.svcPorts - {m.id}
    requires TableExact(net, stored, p, t) && OpenedTable(cfg, net, p).fallback == t.fallback
    ensures TableExact(net', stored, p, Stripped(m, t)) <==> Tidy(cfg, net, stored, m)
    ensures !Tidy(cfg, net, stored, m) && IsEmpty(Stripped(m, t)) ==> exists s :: Listed(net', s, p)
  {
    var was, t' := stored[m.id], Stripped(m, t);
    StrippedRoutes(cfg, net, stored, m, net', p, t);
    LowerOnlyEmpty(m.domain);
    LowerOnlyEmpty(was.domain);
    if was.mode.Tls? && Lower(m.domain) != Lower(was.domain) {
      assert Find(t, Lower(was.domain), m.id) == Expected(net, stored, p, Lower(was.domain), m.id);
      if m.domain != "" { FindRemoveRoute(t, m.domain, m.id, Lower(was.domain), m.id); }
      assert Find(t', Lower(was.domain), m.id).Some?;
    } else {
      StrippedFallback(cfg, net, stored, m, net', p, t);
      if !Tidy(cfg, net, stored, m) && m.domain == "" {
        var s :| TcpAt(net, stored, s, was.port) && s != m.id;
        assert Listed(net', s, p);
      }
    }
  }

  lemma CleanNetOwnPort(cfg: Config, net: Net, stored: Stored, m: Mapping)
    requires Exact(cfg, net, stored) && m.id in net.svcPorts && !IsMain(cfg, stored[m.id].port)
    ensures PortExact(CleanNet(cfg, net, m), stored, stored[m.id].port) <==> Tidy(cfg, net, stored, m)
  {
    var net' := CleanNet(cfg, net, m);
    var p := stored[m.id].port;
    CloseBooked(cfg, net, stored, m);
    CleanNetListing(cfg, net, stored, m);
    assert PortExact(net, stored, p) && Listed(net, m.id, p);
    var t := net.routers[p];
    var t' := Stripped(m, t);
    assert SameAt(net'.routers, if IsEmpty(t') then map[] else map[p := t'], p);
    StrippedTable(cfg, net, stored, m, net', p, t);
    assert Booked(cfg, net', stored);
    if Tidy(cfg, net, stored, m) {
      EmptyIffUnlisted(cfg, net', stored, p, t');
    }
  }

  lemma CleanNetMainFallback(cfg: Config, net: Net, stored: Stored, m: Mapping)
    requires Exact(cfg, net, stored)
    ensures FallbackExact(CleanNet(cfg, net, m), stored, cfg.mainPort, CleanNet(cfg, net, m).main.fallback) <==>
            (m.id in net.svcPorts && IsMain(cfg, stored[m.id].port) ==> Tidy(cfg, net, stored, m))
  {
    var net' := CleanNet(cfg, net, m);
    CleanNetMainTable(cfg, net, stored, m);
    CleanNetListing(cfg, net, stored, m);
    if m.id in net.svcPorts && IsMain(cfg, stored[m.id].port) {
      assert stored[m.id].port == cfg.mainPort;
      StrippedFallback(cfg, net, stored, m, net', cfg.mainPort, Unlisted(net, m).main);
    } else {
      assert net'.main.fallback == net.main.fallback;
      assert forall s :: TcpAt(net', stored, s, cfg.mainPort) <==> TcpAt(net, stored, s, cfg.mainPort);
    }
  }

  /** Cleaning up a listed service keeps the routers exact if and only if the clean-up is tidy. After a TCP mapping
      with a domain that owns its port's fallback it never is. */
  lemma CleanupExactIff(cfg: Config, net: Net, stored: Stored, m: Mapping)
    requires Exact(cfg, net, stored) && m.id in net.svcPorts
    ensures Exact(cfg, CleanNet(cfg, net, m), stored) <==> Tidy(cfg, net, stored, m)
  {
    var p := stored[m.id].port;
    var net' := CleanNet(cfg, net, m);
    CleanNetListing(cfg, net, stored, m);
    CleanNetMainFallback(cfg, net, stored, m);
    if !IsMain(cfg, p) { CleanNetOwnPort(cfg, net, stored, m); }
    forall q | q != p ensures PortExact(net', stored, q) <==> PortExact(net, stored, q) {
      CleanNetOtherPort(cfg, net, stored, m, q);
      PortFrame(net, net', stored, stored, q);
    }
    CloseBooked(cfg, net, stored, m);
    assert net'.routers.Keys <= net.routers.Keys;
    assert Booked(cfg, net', stored);
  }

  /** After a clean-up that was not tidy only the port of the service is wrong, and there only the fallback, unless a
      TLS route was left behind. */
  lemma CleanupExactBut(cfg: Config, net: Net, stored: Stored, m: Mapping)
    requires Exact(cfg, net, stored) && m.id in net.svcPorts
    requires stored[m.id].mode.Tls? ==> Lower(m.domain) == Lower(stored[m.id].domain)
    ensures ExactBut(cfg, CleanNet(cfg, net, m), stored, stored[m.id].port)
  {
    var p := stored[m.id].port;
    var net' := CleanNet(cfg, net, m);
    CleanNetListing(cfg, net, stored, m);
    CleanNetMainFallback(cfg, net, stored, m);
    forall q | q != p ensures PortExact(net', stored, q) <==> PortExact(net, stored, q) {
      CleanNetOtherPort(cfg, net, stored, m, q);
      PortFrame(net, net', stored, stored, q);
    }
    CloseBooked(cfg, net, stored, m);
    assert net'.routers.Keys <= net.routers.Keys;
    assert Booked(cfg, net', stored);
    if !IsMain(cfg, p) {
      assert PortExact(net, stored, p) && Listed(net, m.id, p);
      var t := net.routers[p];
      StrippedRoutes(cfg, net, stored, m, net', p, t);
      if IsEmpty(Stripped(m, t)) {
        assert OpenedTable(cfg, net', p) == EMPTY_TABLE;
        assert forall h, s :: Find(Stripped(m, t), h, s) == Find(EMPTY_TABLE, h, s);
      } else {
        assert OpenedTable(cfg, net', p) == Stripped(m, t);
      }
    }
  }

  // ----- Frames -----

  /** Exact but for what port `p` holds besides its routes. */
  ghost predicate ExactBut(cfg: Config, net: Net, stored: Stored, p: int) {
    && Booked(cfg, net, stored)
    && (forall q :: q in net.routers ==> !IsMain(cfg, q))
    && (forall q :: !IsMain(cfg, q) && q != p ==> PortExact(net, stored, q))
    && (p != cfg.mainPort ==> FallbackExact(net, stored, cfg.mainPort, net.main.fallback))
    && (!IsMain(cfg, p) ==> RoutesExact(net, stored, p, OpenedTable(cfg, net, p)))
  }

  lemma ExactIsExactBut(cfg: Config, net: Net, stored: Stored, p: int)
    requires Exact(cfg, net, stored)
    ensures ExactBut(cfg, net, stored, p)
  {
    if !IsMain(cfg, p) {
      assert PortExact(net, stored, p);
      if p !in net.routers { assert forall s :: !Listed(net, s, p); }
    }
  }

  /** Exactness only looks at the routers, the entries, the main fallback, and the stored
      mappings of listed services. */
  lemma ExactFrame(cfg: Config, net: Net, stored: Stored, net': Net, stored': Stored)
    requires Exact(cfg, net, stored)
    requires net'.routers == net.routers && net'.svcPorts == net.svcPorts && net'.main.fallback == net.main.fallback
    requires forall s :: s in net.svcPorts ==> SameAt(stored', stored, s)
    ensures Exact(cfg, net', stored')
  {
    forall q ensures PortExact(net', stored', q) <==> PortExact(net, stored, q) {
      PortFrame(net, net', stored, stored', q);
    }
    assert forall s, q :: TcpAt(net', stored', s, q) <==> TcpAt(net, stored, s, q);
  }
}
