/** Installing a mapping, for a new service and for one that is still listed: exactly when the routers stay exact. */
module ProxyInstalls {
  import opened Basics
  import opened SniRouter
  import opened ProxyMappings
  import opened ProxyPorts

  /** A TLS mapping that gets an entry for its port. */
  predicate SideTls(cfg: Config, m: Mapping) {
    m.mode.Tls? && m.port != cfg.mainPort
  }

  /** Whether setting up `m` leaves every router exact: what the service is still listed with is replaced by the
      set-up itself, or nothing of it is in any router. */
  predicate InstallFits(cfg: Config, net: Net, stored: Stored, m: Mapping) {
    if m.id !in net.svcPorts then SideTls(cfg, m) ==> m.domain != ""
    else
      m.id in stored &&
      var was := stored[m.id];
      || (m.mode.Tcp? && was.mode.Tcp? && was.port == m.port)
      || (SideTls(cfg, m) && was.mode.Tls? && was.port == m.port && Lower(was.domain) == Lower(m.domain))
      || ((m.mode.Tcp? || (SideTls(cfg, m) && m.domain != "")) && was.mode.Tcp? && !OwnsFallback(cfg, net, was))
  }

  // ----- One port -----

  /** `net'` is `net` with `m` listed on its port and the router there replaced by `t`. */
  ghost predicate ListedOn(cfg: Config, net: Net, m: Mapping, t: Table, net': Net) {
    && net'.svcPorts == net.svcPorts[m.id := [m.port]]
    && net'.routers == PutTable(cfg, net, m.port, t).routers
    && net'.main.fallback == PutTable(cfg, net, m.port, t).main.fallback
  }

  /** Installing on one port leaves every other port as exact as it was. */
  lemma ListedOtherPort(cfg: Config, net: Net, stored: Stored, m: Mapping, t: Table, net': Net, q: int)
    requires Booked(cfg, net, stored) && ListedOn(cfg, net, m, t, net') && q != m.port
    requires m.id in net.svcPorts ==> stored[m.id].port == m.port
    ensures PortExact(net', stored[m.id := m], q) <==> PortExact(net, stored, q)
    ensures forall s :: TcpAt(net', stored[m.id := m], s, q) <==> TcpAt(net, stored, s, q)
  {
    PortFrame(net, net', stored, stored[m.id := m], q);
  }

  /** Installing on a port is exact everywhere once it is exact there. */
  lemma InstallExact(cfg: Config, net: Net, stored: Stored, m: Mapping, t: Table, net': Net)
    requires ExactBut(cfg, net, stored, m.port) && ListedOn(cfg, net, m, t, net') && ValidPort(m.port)
    requires m.id in net.svcPorts ==> stored[m.id].port == m.port
    requires m.mode.Tcp? || (SideTls(cfg, m) && m.domain != "")
    requires if IsMain(cfg, m.port) then FallbackExact(net', stored[m.id := m], m.port, t.fallback)
             else TableExact(net', stored[m.id := m], m.port, t)
    ensures Exact(cfg, net', stored[m.id := m])
  {
    var stored' := stored[m.id := m];
    forall q | q != m.port ensures PortExact(net', stored', q) <==> PortExact(net, stored, q) {
      ListedOtherPort(cfg, net, stored, m, t, net', q);
    }
    if m.port != cfg.mainPort {
      ListedOtherPort(cfg, net, stored, m, t, net', cfg.mainPort);
      assert forall s :: TcpAt(net', stored', s, cfg.mainPort) ==> TcpAt(net, stored, s, cfg.mainPort);
    }
    assert Listed(net', m.id, m.port);
    InstallBooked(cfg, net, stored, m, net');
    assert !IsMain(cfg, m.port) ==> PortExact(net', stored', m.port);
  }

  lemma InstallBooked(cfg: Config, net: Net, stored: Stored, m: Mapping, net': Net)
    requires Booked(cfg, net, stored) && ValidPort(m.port) && (m.mode.Tcp? || (SideTls(cfg, m) && m.domain != ""))
    requires net'.svcPorts == net.svcPorts[m.id := [m.port]]
    ensures Booked(cfg, net', stored[m.id := m])
  {
    assert forall s :: s != m.id && s in net.svcPorts ==> Listed(net', s, stored[s].port);
  }

  /** A TCP set-up makes its port exact again, whatever its fallback was. */
  lemma InstallTcpExact(cfg: Config, net: Net, stored: Stored, m: Mapping)
    requires ExactBut(cfg, net, stored, m.port) && m.mode.Tcp? && ValidPort(m.port)
    requires m.id in net.svcPorts ==> stored[m.id].mode.Tcp? && stored[m.id].port == m.port
    ensures Exact(cfg, NetTcp(cfg, net, m), stored[m.id := m])
  {
    var p := m.port;
    var net', stored' := NetTcp(cfg, net, m), stored[m.id := m];
    var t0 := OpenedTable(cfg, net, p);
    var t := SetFallback(t0, RouteOf(m));
    assert TcpAt(net', stored', m.id, p);
    if !IsMain(cfg, p) {
      forall h, s ensures Find(t, h, s) == Expected(net', stored', p, h, s) {
        assert Find(t, h, s) == Find(t0, h, s) == Expected(net, stored, p, h, s);
      }
    }
    InstallExact(cfg, net, stored, m, t, net');
  }

  lemma InstallTlsExact(cfg: Config, net: Net, stored: Stored, m: Mapping)
    requires Exact(cfg, net, stored) && SideTls(cfg, m) && m.domain != "" && ValidPort(m.port)
    requires m.id in net.svcPorts ==>
               stored[m.id].mode.Tls? && stored[m.id].port == m.port && Lower(stored[m.id].domain) == Lower(m.domain)
    ensures Exact(cfg, NetTls(cfg, net, m), stored[m.id := m])
  {
    var p := m.port;
    var net', stored' := NetTls(cfg, net, m), stored[m.id := m];
    var t0 := OpenedTable(cfg, net, p);
    var t := AddRoute(t0, m.domain, RouteOf(m));
    ExactIsExactBut(cfg, net, stored, p);
    LowerOnlyEmpty(m.domain);
    assert forall s :: TcpAt(net', stored', s, p) <==> TcpAt(net, stored, s, p);
    forall h, s ensures Find(t, h, s) == Expected(net', stored', p, h, s) {
      FindAddRoute(t0, m.domain, RouteOf(m), h, s);
      assert Find(t0, h, s) == Expected(net, stored, p, h, s);
    }
    assert PortExact(net, stored, p);
    InstallExact(cfg, net, stored, m, t, net');
  }

  // ----- A service that is still listed -----

  /** Forgetting the entry of a service and nothing else keeps the routers exact when no router holds anything of it. */
  lemma ForgetExact(cfg: Config, net: Net, stored: Stored, svc: string)
    requires Exact(cfg, net, stored) && svc in net.svcPorts
    requires stored[svc].mode.Tcp? && !OwnsFallback(cfg, net, stored[svc])
    ensures Exact(cfg, net.(svcPorts := net.svcPorts - {svc}), stored)
  {
    var net' := net.(svcPorts := net.svcPorts - {svc});
    var p := stored[svc].port;
    assert TcpAt(net, stored, svc, p);
    assert forall s, q :: TcpAt(net', stored, s, q) <==> TcpAt(net, stored, s, q) && s != svc;
    forall q | q != p ensures PortExact(net', stored, q) <==> PortExact(net, stored, q) {
      PortFrame(net, net', stored, stored, q);
    }
    if !IsMain(cfg, p) {
      assert PortExact(net, stored, p);
      var t := net.routers[p];
      assert t.fallback.Some? && TcpAt(net, stored, t.fallback.value.service, p);
      assert Listed(net', t.fallback.value.service, p);
      assert forall h, s :: Expected(net', stored, p, h, s) == Expected(net, stored, p, h, s);
    }
  }

  /** A leftover fallback makes its port inexact. */
  lemma LeftFallback(cfg: Config, net: Net, stored: Stored, was: Mapping)
    requires OwnsFallback(cfg, net, was) && !TcpAt(net, stored, was.id, was.port)
    requires IsMain(cfg, was.port) ==> was.port == cfg.mainPort
    ensures !Exact(cfg, net, stored)
  {
    if !IsMain(cfg, was.port) { assert !PortExact(net, stored, was.port); }
  }

  /** So does a leftover route. */
  lemma LeftRoute(cfg: Config, net: Net, stored: Stored, p: int, h: string, svc: string)
    requires !IsMain(cfg, p) && p in net.routers && Find(net.routers[p], h, svc).Some? && Expected(net, stored, p, h, svc).None?
    ensures !Exact(cfg, net, stored)
  {
    assert !PortExact(net, stored, p);
  }

  /** The route of a listed TLS service is in the router of its port. */
  lemma TlsRoutePresent(cfg: Config, net: Net, stored: Stored, svc: string)
    requires Exact(cfg, net, stored) && svc in net.svcPorts && stored[svc].mode.Tls?
    ensures var was := stored[svc];
            !IsMain(cfg, was.port) && was.port in net.routers && Find(net.routers[was.port], Lower(was.domain), svc).Some?
  {
    var was := stored[svc];
    assert Listed(net, svc, was.port) && PortExact(net, stored, was.port);
    assert Find(net.routers[was.port], Lower(was.domain), svc) == Expected(net, stored, was.port, Lower(was.domain), svc);
  }

  /** A set-up that makes an entry does not look at the old one. */
  lemma EntryReplaced(cfg: Config, net: Net, m: Mapping)
    ensures var net0 := net.(svcPorts := net.svcPorts - {m.id});
            && NetTcp(cfg, net0, m) == NetTcp(cfg, net, m)
            && (m.port != cfg.mainPort ==> NetTls(cfg, net0, m) == NetTls(cfg, net, m))
  {
    assert (net.svcPorts - {m.id})[m.id := [m.port]] == net.svcPorts[m.id := [m.port]];
  }

  lemma CreateTcpFails(cfg: Config, net: Net, stored: Stored, m: Mapping)
    requires Exact(cfg, net, stored) && m.mode.Tcp? && ValidPort(m.port) && !InstallFits(cfg, net, stored, m)
    ensures !Exact(cfg, NetTcp(cfg, net, m), stored[m.id := m])
  {
    var was, net', stored' := stored[m.id], NetTcp(cfg, net, m), stored[m.id := m];
    if was.mode.Tls? {
      TlsRoutePresent(cfg, net, stored, m.id);
      LeftRoute(cfg, net', stored', was.port, Lower(was.domain), m.id);
    } else {
      assert OwnsFallback(cfg, net', was);
      LeftFallback(cfg, net', stored', was);
    }
  }

  /** Setting up a TCP mapping keeps every router exact if and only if the service is not listed, or is listed as TCP
      on the same port, or as TCP without owning the fallback of its port. */
  lemma CreateTcpExactIff(cfg: Config, net: Net, stored: Stored, m: Mapping)
    requires Exact(cfg, net, stored) && m.mode.Tcp? && ValidPort(m.port)
    ensures Exact(cfg, NetTcp(cfg, net, m), stored[m.id := m]) <==> InstallFits(cfg, net, stored, m)
  {
    if InstallFits(cfg, net, stored, m) { CreateTcpHolds(cfg, net, stored, m); } else { CreateTcpFails(cfg, net, stored, m); }
  }

  lemma CreateTcpElsewhere(cfg: Config, net: Net, stored: Stored, m: Mapping)
    requires Exact(cfg, net, stored) && m.mode.Tcp? && ValidPort(m.port)
    requires m.id in net.svcPorts && stored[m.id].mode.Tcp? && !OwnsFallback(cfg, net, stored[m.id])
    ensures Exact(cfg, NetTcp(cfg, net, m), stored[m.id := m])
  {
    var net0 := net.(svcPorts := net.svcPorts - {m.id});
    ForgetExact(cfg, net, stored, m.id);
    ExactIsExactBut(cfg, net0, stored, m.port);
    InstallTcpExact(cfg, net0, stored, m);
    EntryReplaced(cfg, net, m);
  }

  lemma CreateTcpHolds(cfg: Config, net: Net, stored: Stored, m: Mapping)
    requires Exact(cfg, net, stored) && m.mode.Tcp? && ValidPort(m.port) && InstallFits(cfg, net, stored, m)
    ensures Exact(cfg, NetTcp(cfg, net, m), stored[m.id := m])
  {
    if m.id in net.svcPorts && stored[m.id].port != m.port {
      CreateTcpElsewhere(cfg, net, stored, m);
    } else {
      ExactIsExactBut(cfg, net, stored, m.port);
      InstallTcpExact(cfg, net, stored, m);
    }
  }

  lemma CreateTlsFails(cfg: Config, net: Net, stored: Stored, m: Mapping)
    requires Exact(cfg, net, stored) && SideTls(cfg, m) && ValidPort(m.port) && !InstallFits(cfg, net, stored, m)
    ensures !Exact(cfg, NetTls(cfg, net, m), stored[m.id := m])
  {
    var net', stored' := NetTls(cfg, net, m), stored[m.id := m];
    if m.domain == "" {
      assert m.id in net'.svcPorts;
    } else {
      var was := stored[m.id];
      if was.mode.Tls? {
        TlsRoutePresent(cfg, net, stored, m.id);
        FindAddRoute(OpenedTable(cfg, net, m.port), m.domain, RouteOf(m), Lower(was.domain), m.id);
        LeftRoute(cfg, net', stored', was.port, Lower(was.domain), m.id);
      } else {
        assert OwnsFallback(cfg, net', was);
        LeftFallback(cfg, net', stored', was);
      }
    }
  }

  /** Setting up a TLS mapping on a side port keeps every router exact if and only if it has a domain and the service is
      not listed, or is listed as TLS with the same port and host, or as TCP without owning the fallback of its port. */
  lemma CreateTlsExactIff(cfg: Config, net: Net, stored: Stored, m: Mapping)
    requires Exact(cfg, net, stored) && SideTls(cfg, m) && ValidPort(m.port)
    ensures Exact(cfg, NetTls(cfg, net, m), stored[m.id := m]) <==> InstallFits(cfg, net, stored, m)
  {
    if InstallFits(cfg, net, stored, m) { CreateTlsHolds(cfg, net, stored, m); } else { CreateTlsFails(cfg, net, stored, m); }
  }

  lemma CreateTlsOverTcp(cfg: Config, net: Net, stored: Stored, m: Mapping)
    requires Exact(cfg, net, stored) && SideTls(cfg, m) && ValidPort(m.port) && m.domain != ""
    requires m.id in net.svcPorts && stored[m.id].mode.Tcp? && !OwnsFallback(cfg, net, stored[m.id])
    ensures Exact(cfg, NetTls(cfg, net, m), stored[m.id := m])
  {
    var net0 := net.(svcPorts := net.svcPorts - {m.id});
    ForgetExact(cfg, net, stored, m.id);
    InstallTlsExact(cfg, net0, stored, m);
    EntryReplaced(cfg, net, m);
  }

  lemma CreateTlsHolds(cfg: Config, net: Net, stored: Stored, m: Mapping)
    requires Exact(cfg, net, stored) && SideTls(cfg, m) && ValidPort(m.port) && InstallFits(cfg, net, stored, m)
    ensures Exact(cfg, NetTls(cfg, net, m), stored[m.id := m])
  {
    if m.id in net.svcPorts && stored[m.id].mode.Tcp? {
      CreateTlsOverTcp(cfg, net, stored, m);
    } else {
      LowerOnlyEmpty(m.domain);
      if m.id in net.svcPorts { LowerOnlyEmpty(stored[m.id].domain); }
      InstallTlsExact(cfg, net, stored, m);
    }
  }

  /** Set-ups that make no entry keep every router exact if and only if the service has none. */
  lemma CreateOtherExactIff(cfg: Config, net: Net, stored: Stored, m: Mapping, net': Net)
    requires Exact(cfg, net, stored) && !m.mode.Tcp? && !SideTls(cfg, m)
    requires net'.routers == net.routers && net'.svcPorts == net.svcPorts && net'.main.fallback == net.main.fallback
    ensures Exact(cfg, net', stored[m.id := m]) <==> InstallFits(cfg, net, stored, m)
  {
    if m.id !in net.svcPorts {
      ExactFrame(cfg, net, stored, net', stored[m.id := m]);
    } else {
      assert m.id in net'.svcPorts && stored[m.id := m][m.id] == m;
    }
  }

  lemma NetTlsMain(cfg: Config, net: Net, m: Mapping)
    requires m.port == cfg.mainPort
    ensures var net' := NetTls(cfg, net, m);
            net'.routers == net.routers && net'.svcPorts == net.svcPorts && net'.main.fallback == net.main.fallback
  {
  }

  /** Whatever the mode: a set-up that succeeds keeps every router exact if and only if it fits. */
  lemma SetupExactIff(cfg: Config, st: State, m: Mapping, o: Outcome)
    requires Exact(cfg, st.net, st.stored) && SetupRoutes(cfg, st, m, o).ok
    ensures Exact(cfg, SetupRoutes(cfg, st, m, o).st.net, st.stored[m.id := m]) <==> InstallFits(cfg, st.net, st.stored, m)
  {
    var net' := SetupRoutes(cfg, st, m, o).st.net;
    match m.mode {
      case Tcp => CreateTcpExactIff(cfg, st.net, st.stored, m);
      case Tls =>
        if SideTls(cfg, m) {
          CreateTlsExactIff(cfg, st.net, st.stored, m);
        } else {
          NetTlsMain(cfg, st.net, m);
          CreateOtherExactIff(cfg, st.net, st.stored, m, net');
        }
      case _ => CreateOtherExactIff(cfg, st.net, st.stored, m, net');
    }
  }
}
