/** The proxy server object: mutable routers, maps and CrowdSec registry, each method
    proved to take the step that ProxyMappings defines. */
module ProxyServer {
  import opened Basics
  import opened SniRouter
  import opened ProxyMappings
  import opened ProxyHolds
  import opened ProxySnapshot

  /** proxy/internal/crowdsec/registry.go: one shared bouncer, running while it is referenced. */
  class Registry {
    const available: bool
    var refs: set<string>
    var running: bool

    ghost predicate Valid()
      reads this
    {
      running <==> refs != {}
    }

    constructor (available: bool)
      ensures Valid() && this.available == available && refs == {}
    {
      this.available, refs, running := available, {}, false;
    }

    method Acquire(svc: string, bouncerOk: bool) returns (ok: bool)
      requires Valid()
      modifies this
      ensures Valid()
      ensures ok <==> available && (old(refs) != {} || bouncerOk)
      ensures refs == if ok then old(refs) + {svc} else old(refs)
    {
      if !available { return false; }
      if svc in refs {
        assert refs + {svc} == refs;
        return true;
      }
      if !running {
        running := bouncerOk;
      }
      if !running { return false; }
      refs := refs + {svc};
      return true;
    }

    method Release(svc: string)
      requires Valid()
      modifies this
      ensures Valid() && refs == old(refs) - {svc}
    {
      refs := refs - {svc};
      if refs == {} && running {
        running := false;
      }
    }
  }

  lemma PutTwice(cfg: Config, net: Net, port: int, t: Table, t': Table)
    ensures OpenedTable(cfg, PutTable(cfg, net, port, t), port) == t
    ensures PutTable(cfg, PutTable(cfg, net, port, t), port, t') == PutTable(cfg, net, port, t')
  {
  }

  class Server {
    const cfg: Config
    const registry: Registry
    const mainRouter: Router
    var portRouters: map<int, Router>
    var svcPorts: map<string, seq<int>>
    var lastMappings: map<string, Mapping>
    var udpRelays: map<string, int>
    var crowdsecServices: set<string>
    ghost var history: seq<HoldEvent>

    ghost function Objects(): set<object>
      reads this`portRouters
    {
      {this, registry, mainRouter} + portRouters.Values
    }

    /** No two ports share a router object and none uses the main one. */
    ghost predicate Valid()
      reads this`portRouters, registry
    {
      && registry.Valid() && registry.available == cfg.crowdsecAvailable
      && (forall p :: p in portRouters ==> portRouters[p] != mainRouter)
      && (forall p, q :: p in portRouters && q in portRouters && p != q ==> portRouters[p] != portRouters[q])
    }

    ghost function Tables(): map<int, Table>
      reads this`portRouters, portRouters.Values
    {
      map p | p in portRouters :: portRouters[p].Content()
    }

    ghost function NetView(): Net
      reads this`portRouters, this`svcPorts, mainRouter, portRouters.Values
    {
      Net(mainRouter.Content(), Tables(), svcPorts)
    }

    ghost function View(): State
      reads this, Objects()
    {
      State(NetView(), lastMappings, udpRelays, Holds(crowdsecServices, registry.refs, history))
    }

    constructor (cfg: Config)
      ensures Valid() && this.cfg == cfg && fresh(Objects())
      ensures View() == INITIAL
    {
      this.cfg := cfg;
      registry := new Registry(cfg.crowdsecAvailable);
      mainRouter := new Router();
      portRouters, svcPorts, lastMappings, udpRelays := map[], map[], map[], map[];
      crowdsecServices, history := {}, [];
    }

    /** routerForPort: the main router, the open one, or a new one if the bind succeeds. */
    method RouterForPort(port: int, bindOk: bool) returns (ok: bool)
      requires Valid()
      modifies this`portRouters
      ensures Valid() && fresh(Objects() - old(Objects()))
      ensures ok <==> old(TableAt(cfg, NetView(), port)).Some? || bindOk
      ensures NetView() ==
              if ok then PutTable(cfg, old(NetView()), port, OpenedTable(cfg, old(NetView()), port)) else old(NetView())
    {
      if IsMain(cfg, port) { return true; }
      if port in portRouters {
        assert Tables() == Tables()[port := portRouters[port].Content()];
        return true;
      }
      if !bindOk { return false; }
      var r := new Router();
      portRouters := portRouters[port := r];
      assert Tables() == old(Tables())[port := EMPTY_TABLE];
      ok := true;
    }

    function RouterAt(port: int): (r: Router)
      requires IsMain(cfg, port) || port in portRouters
      reads this
      ensures r in Objects()
    {
      if IsMain(cfg, port) then mainRouter else portRouters[port]
    }

    /** Changing one router leaves the tables of all the others alone. */
    twostate lemma OthersKept(port: int)
      requires old(Valid()) && unchanged(this) && (IsMain(cfg, port) || port in portRouters)
      requires forall r: Router :: r in old(Objects()) && r != RouterAt(port) ==> unchanged(r)
      ensures Tables() == if IsMain(cfg, port) then old(Tables()) else old(Tables())[port := RouterAt(port).Content()]
    {
      forall p | p in portRouters && (IsMain(cfg, port) || p != port)
        ensures portRouters[p].Content() == old(portRouters[p].Content())
      {
        assert portRouters[p] != RouterAt(port) && portRouters[p] in old(Objects());
        assert unchanged(portRouters[p]);
      }
    }

    method SetFallbackAt(port: int, route: Route)
      requires Valid() && (IsMain(cfg, port) || port in portRouters)
      modifies RouterAt(port)
      ensures Valid()
      ensures NetView() == PutTable(cfg, old(NetView()), port, SetFallback(OpenedTable(cfg, old(NetView()), port), route))
    {
      RouterAt(port).InstallFallback(route);
      OthersKept(port);
    }

    method AddRouteAt(port: int, host: string, route: Route)
      requires Valid() && (IsMain(cfg, port) || port in portRouters)
      modifies RouterAt(port)
      ensures Valid()
      ensures NetView() == PutTable(cfg, old(NetView()), port, AddRoute(OpenedTable(cfg, old(NetView()), port), host, route))
    {
      RouterAt(port).Add(host, route);
      OthersKept(port);
    }

    /** Takes the service's route, or the fallback, off an open router. */
    method StripAt(port: int, m: Mapping)
      requires Valid() && (IsMain(cfg, port) || port in portRouters)
      modifies RouterAt(port)
      ensures Valid() && NetView() == PutTable(cfg, old(NetView()), port, Stripped(m, OpenedTable(cfg, old(NetView()), port)))
    {
      if m.domain != "" {
        RouterAt(port).Remove(m.domain, m.id);
      } else {
        RouterAt(port).ClearFallback();
      }
      OthersKept(port);
    }

    /** parseRestrictions, as far as the CrowdSec hold is concerned. */
    method ParseRestrictions(m: Mapping, o: Outcome)
      requires Valid()
      modifies this`crowdsecServices, this`history, registry
      ensures Valid() && View() == old(View()).(holds := Acquire(cfg, old(View().holds), m, o))
    {
      if m.crowdsec {
        ghost var before := registry.refs;
        var ok := registry.Acquire(m.id, o.bouncerOk);
        if ok {
          crowdsecServices := crowdsecServices + {m.id};
          history := if m.id in before then history else history + [Held(m.id)];
        }
        assert NetView() == old(NetView());
      }
    }

    method ReleaseCrowdSec(svc: string)
      requires Valid()
      modifies this`crowdsecServices, this`history, registry
      ensures Valid() && View() == old(View()).(holds := Release(old(View().holds), svc))
    {
      var had := svc in crowdsecServices;
      crowdsecServices := crowdsecServices - {svc};
      if had {
        registry.Release(svc);
        history := history + [Released(svc)];
      }
    }

    method SetupHttpMapping(m: Mapping, o: Outcome) returns (ok: bool)
      requires Valid()
      modifies Objects()
      ensures Valid() && portRouters == old(portRouters)
      ensures Setup(View(), ok) == SetupHttp(cfg, old(View()), m, o)
    {
      if !m.hasPath { return true; }
      AddRouteAt(cfg.mainPort, m.domain, RouteOf(m));
      ParseRestrictions(m, o);
      ok := o.authOk;
    }

    /** Opens the port if need be and takes the hold. */
    method OpenHeld(m: Mapping, o: Outcome) returns (ok: bool)
      requires Valid()
      modifies Objects()
      ensures Valid() && fresh(Objects() - old(Objects()))
      ensures ok <==> old(TableAt(cfg, NetView(), m.port)).Some? || o.bindOk
      ensures ok ==> IsMain(cfg, m.port) || m.port in NetView().routers
      ensures View() == var was := old(View()); if !ok then was else
        was.(net := PutTable(cfg, was.net, m.port, OpenedTable(cfg, was.net, m.port)), holds := Acquire(cfg, was.holds, m, o))
    {
      ok := RouterForPort(m.port, o.bindOk);
      if !ok { return; }
      assert IsMain(cfg, m.port) || m.port in NetView().routers;
      ParseRestrictions(m, o);
    }

    /** Opens the port if need be, takes the hold and makes the mapping the port's fallback. */
    method OpenFallback(m: Mapping, o: Outcome) returns (ok: bool)
      requires Valid()
      modifies Objects()
      ensures Valid() && fresh(Objects() - old(Objects()))
      ensures ok <==> old(TableAt(cfg, NetView(), m.port)).Some? || o.bindOk
      ensures View() == var was := old(View()); if !ok then was else
        was.(net := PutTable(cfg, was.net, m.port, SetFallback(OpenedTable(cfg, was.net, m.port), RouteOf(m))),
             holds := Acquire(cfg, was.holds, m, o))
    {
      ghost var net := NetView();
      ok := OpenHeld(m, o);
      if !ok { return; }
      PutTwice(cfg, net, m.port, OpenedTable(cfg, net, m.port), SetFallback(OpenedTable(cfg, net, m.port), RouteOf(m)));
      SetFallbackAt(m.port, RouteOf(m));
    }

    method SetupTcpMapping(m: Mapping, o: Outcome) returns (ok: bool)
      requires Valid()
      modifies Objects()
      ensures Valid() && fresh(Objects() - old(Objects()))
      ensures Setup(View(), ok) == SetupTcp(cfg, old(View()), m, o)
    {
      if !ValidPort(m.port) || m.target == "" || TunnelPort(cfg, m.port) { return false; }
      ok := OpenFallback(m, o);
      if ok {
        svcPorts := svcPorts[m.id := [m.port]];
      }
    }

    /** Opens the port if need be, takes the hold and adds the mapping's SNI route. */
    method OpenRoute(m: Mapping, o: Outcome) returns (ok: bool)
      requires Valid()
      modifies Objects()
      ensures Valid() && fresh(Objects() - old(Objects()))
      ensures ok <==> old(TableAt(cfg, NetView(), m.port)).Some? || o.bindOk
      ensures View() == var was := old(View()); if !ok then was else
        was.(net := PutTable(cfg, was.net, m.port, AddRoute(OpenedTable(cfg, was.net, m.port), m.domain, RouteOf(m))),
             holds := Acquire(cfg, was.holds, m, o))
    {
      ghost var net := NetView();
      ok := OpenHeld(m, o);
      if !ok { return; }
      PutTwice(cfg, net, m.port, OpenedTable(cfg, net, m.port), AddRoute(OpenedTable(cfg, net, m.port), m.domain, RouteOf(m)));
      AddRouteAt(m.port, m.domain, RouteOf(m));
    }

    method SetupTlsMapping(m: Mapping, o: Outcome) returns (ok: bool)
      requires Valid()
      modifies Objects()
      ensures Valid() && fresh(Objects() - old(Objects()))
      ensures Setup(View(), ok) == SetupTls(cfg, old(View()), m, o)
    {
      if !ValidPort(m.port) || m.target == "" || TunnelPort(cfg, m.port) { return false; }
      ok := OpenRoute(m, o);
      if ok && m.port != cfg.mainPort {
        svcPorts := svcPorts[m.id := [m.port]];
      }
    }

    method SetupUdpMapping(m: Mapping, o: Outcome) returns (ok: bool)
      requires Valid()
      modifies this`udpRelays, this`crowdsecServices, this`history, registry
      ensures Valid()
      ensures Setup(View(), ok) == SetupUdp(cfg, old(View()), m, o)
    {
      if !ValidPort(m.port) || m.target == "" { return false; }
      if TunnelPort(cfg, m.port) { return false; }
      udpRelays := udpRelays - {m.id};
      if !o.bindOk || !o.dialOk { return false; }
      ParseRestrictions(m, o);
      udpRelays := udpRelays[m.id := m.port];
      assert NetView() == old(NetView());
      ok := true;
    }

    method SetupMappingRoutes(m: Mapping, o: Outcome) returns (ok: bool)
      requires Valid()
      modifies Objects()
      ensures Valid() && fresh(Objects() - old(Objects()))
      ensures Setup(View(), ok) == SetupRoutes(cfg, old(View()), m, o)
    {
      match m.mode
      case Tcp => ok := SetupTcpMapping(m, o);
      case Udp => ok := SetupUdpMapping(m, o);
      case Tls => ok := SetupTlsMapping(m, o);
      case Http => ok := SetupHttpMapping(m, o);
    }

    /** One tracked port: strip the service's route, then close the router if it is empty. */
    method CloseEntryAt(m: Mapping, port: int)
      requires Valid()
      modifies Objects() - {this, registry}, this`portRouters
      ensures Valid() && Objects() <= old(Objects())
      ensures NetView() == CloseEntry(cfg, old(NetView()), m, port)
    {
      if !IsMain(cfg, port) && port !in portRouters { return; }
      StripAt(port, m);
      if IsMain(cfg, port) { return; }
      if IsEmpty(portRouters[port].Content()) {
        ghost var tables := Tables();
        portRouters := portRouters - {port};
        assert Tables() == tables - {port};
      }
    }

    method CloseTracked(m: Mapping, ports: seq<int>)
      requires Valid()
      modifies Objects() - {this, registry}, this`portRouters
      ensures Valid() && Objects() <= old(Objects())
      ensures NetView() == CloseEntries(cfg, old(NetView()), m, ports)
    {
      var i := 0;
      assert ports[0..] == ports;
      while i < |ports|
        invariant 0 <= i <= |ports|
        invariant Valid() && Objects() <= old(Objects())
        invariant CloseEntries(cfg, NetView(), m, ports[i..]) == CloseEntries(cfg, old(NetView()), m, ports)
      {
        assert ports[i..][1..] == ports[i + 1..];
        CloseEntryAt(m, ports[i]);
        i := i + 1;
      }
      assert ports[i..] == [];
    }

    /** Takes the service off the main router and out of the port bookkeeping. */
    method Unlist(m: Mapping) returns (entries: seq<int>)
      requires Valid()
      modifies mainRouter, this`svcPorts
      ensures Valid()
      ensures entries == PortsOf(old(NetView()), m.id) && NetView() == Unlisted(old(NetView()), m)
    {
      entries := if m.id in svcPorts then svcPorts[m.id] else [];
      if m.domain != "" {
        StripAt(cfg.mainPort, m);
      }
      svcPorts := svcPorts - {m.id};
    }

    /** Takes the service off every router. */
    method CleanNetwork(m: Mapping)
      requires Valid()
      modifies Objects() - {this, registry}, this`svcPorts, this`portRouters
      ensures Valid() && Objects() <= old(Objects())
      ensures NetView() == CleanNet(cfg, old(NetView()), m)
    {
      var entries := Unlist(m);
      CloseTracked(m, entries);
    }

    method CleanupMappingRoutes(m: Mapping)
      requires Valid()
      modifies Objects()
      ensures Valid() && Objects() <= old(Objects())
      ensures View() == Cleanup(cfg, old(View()), m)
    {
      CleanNetwork(m);
      udpRelays := udpRelays - {m.id};
      ReleaseCrowdSec(m.id);
    }

    /** Sets the mapping up and stores it, or takes down whatever the failed set-up left. */
    method Install(m: Mapping, o: Outcome) returns (ok: bool)
      requires Valid()
      modifies Objects()
      ensures Valid() && fresh(Objects() - old(Objects()))
      ensures View() == Finish(cfg, SetupRoutes(cfg, old(View()), m, o), m)
      ensures ok == SetupRoutes(cfg, old(View()), m, o).ok
    {
      ok := SetupMappingRoutes(m, o);
      if !ok {
        CleanupMappingRoutes(m);
      } else {
        lastMappings := lastMappings[m.id := m];
      }
    }

    method AddMapping(m: Mapping, o: Outcome) returns (ok: bool)
      requires Valid()
      modifies Objects()
      ensures Valid() && fresh(Objects() - old(Objects()))
      ensures View() == Step(cfg, old(View()), Created(m, o))
      ensures ok == Succeeds(cfg, old(View()), Created(m, o))
    {
      if !o.peerOk { return false; }
      ok := Install(m, o);
    }

    method ModifyMapping(m: Mapping, o: Outcome) returns (ok: bool)
      requires Valid()
      modifies Objects()
      ensures Valid() && fresh(Objects() - old(Objects()))
      ensures View() == Step(cfg, old(View()), Modified(m, o))
      ensures ok == Succeeds(cfg, old(View()), Modified(m, o))
    {
      if m.id in lastMappings {
        CleanupMappingRoutes(lastMappings[m.id]);
      } else {
        CleanupMappingRoutes(m);
      }
      ok := Install(m, o);
    }

    method RemoveMapping(m: Mapping)
      requires Valid()
      modifies Objects()
      ensures Valid() && Objects() <= old(Objects())
      ensures View() == Step(cfg, old(View()), Removed(m))
    {
      var stored := if m.id in lastMappings then lastMappings[m.id] else m;
      lastMappings := lastMappings - {m.id};
      CleanupMappingRoutes(stored);
    }

    method ProcessMapping(u: Update)
      requires Valid()
      modifies Objects()
      ensures Valid() && fresh(Objects() - old(Objects()))
      ensures View() == Step(cfg, old(View()), u)
    {
      match u
      case Created(m, o) => var _ := AddMapping(m, o);
      case Modified(m, o) => var _ := ModifyMapping(m, o);
      case Removed(m) => RemoveMapping(m);
    }

    method ProcessMappings(us: seq<Update>)
      requires Valid()
      modifies Objects()
      ensures Valid() && fresh(Objects() - old(Objects()))
      ensures View() == Run(cfg, old(View()), us)
    {
      var i := 0;
      assert us[0..] == us;
      while i < |us|
        invariant 0 <= i <= |us|
        invariant Valid() && fresh(Objects() - old(Objects()))
        invariant Run(cfg, View(), us[i..]) == Run(cfg, old(View()), us)
      {
        assert us[i..][1..] == us[i + 1..];
        ProcessMapping(us[i]);
        i := i + 1;
      }
      assert us[i..] == [];
    }

    /** Removes the stored mappings absent from the snapshot; `order` is the order in which
        the map happened to be iterated. */
    method ReconcileSnapshot(ids: set<string>) returns (order: seq<string>)
      requires Valid()
      modifies Objects()
      ensures Valid() && Objects() <= old(Objects())
      ensures Lists(order, Stale(old(View()), ids))
      ensures View() == RemoveListed(cfg, old(View()), old(lastMappings), order)
    {
      var was := lastMappings;
      order := Enumerate(was.Keys - ids);
      RemoveInOrder(was, order);
    }

    method RemoveInOrder(was: map<string, Mapping>, order: seq<string>)
      requires Valid() && forall k :: k in order ==> k in was
      modifies Objects()
      ensures Valid() && Objects() <= old(Objects())
      ensures View() == RemoveListed(cfg, old(View()), was, order)
    {
      assert order[0..] == order;
      for i := 0 to |order|
        invariant Valid() && Objects() <= old(Objects())
        invariant forall k :: k in order ==> k in was
        invariant RemoveListed(cfg, View(), was, order[i..]) == RemoveListed(cfg, old(View()), was, order)
      {
        assert order[i..][1..] == order[i + 1..];
        RemoveMapping(was[order[i]]);
      }
      assert order[|order|..] == [];
    }

    method ShutdownCrowdSec() returns (order: seq<string>)
      requires Valid()
      modifies this`crowdsecServices, this`history, registry
      ensures Valid() && Lists(order, old(crowdsecServices))
      ensures View() == old(View()).(holds := ReleaseAll(old(View().holds), order))
    {
      order := [];
      ghost var was := View();
      while crowdsecServices != {}
        invariant Valid() && View() == was.(holds := ReleaseAll(was.holds, order))
        invariant Distinct(order) && forall k :: k in old(crowdsecServices) <==> k in order || k in crowdsecServices
        invariant forall k :: k in order ==> k !in crowdsecServices
        decreases |crowdsecServices|
      {
        var svc :| svc in crowdsecServices;
        ReleaseAllAppend(was.holds, order, svc);
        order := order + [svc];
        ReleaseCrowdSec(svc);
      }
    }

    /** Shutdown closes every per-port router, forgets all bookkeeping and releases every hold. */
    method Shutdown() returns (order: seq<string>)
      requires Valid()
      modifies Objects()
      ensures Valid() && Lists(order, old(crowdsecServices))
      ensures View() == State(Net(old(mainRouter.Content()), map[], map[]), map[], map[], ReleaseAll(old(View().holds), order))
    {
      udpRelays := map[];
      portRouters, svcPorts, lastMappings := map[], map[], map[];
      order := ShutdownCrowdSec();
    }
  }

  lemma {:induction false} ReleaseAllAppend(hs: Holds, order: seq<string>, svc: string)
    ensures ReleaseAll(hs, order + [svc]) == Release(ReleaseAll(hs, order), svc)
    decreases |order|
  {
    if order == [] {
      assert ([] + [svc])[1..] == [];
      assert ReleaseAll(hs, [svc]) == ReleaseAll(Release(hs, svc), []);
    } else {
      assert (order + [svc])[1..] == order[1..] + [svc];
      ReleaseAllAppend(Release(hs, order[0]), order[1..], svc);
    }
  }

  /** The per-stream tracker of the initial sync (snapshotTracker). */
  class Tracker {
    var snapshotIDs: set<string>
    var done: bool

    constructor ()
      ensures snapshotIDs == {} && !done
    {
      snapshotIDs, done := {}, false;
    }

    method CollectNames(updates: seq<Update>)
      modifies this`snapshotIDs
      ensures snapshotIDs == old(snapshotIDs) + Named(updates)
    {
      for i := 0 to |updates|
        invariant snapshotIDs == old(snapshotIDs) + Named(updates[..i])
      {
        snapshotIDs := snapshotIDs + {updates[i].m.id};
        assert updates[..i + 1] == updates[..i] + [updates[i]];
      }
      assert updates[..|updates|] == updates;
    }

    /** Collects the names of a processed batch and, on the completing one, reconciles. */
    method RecordBatch(server: Server, updates: seq<Update>, complete: bool) returns (order: seq<string>)
      requires server.Valid() && this !in server.Objects()
      modifies this, server.Objects()
      ensures server.Valid() && server.Objects() <= old(server.Objects())
      ensures var was := Stream(old(server.View()), old(snapshotIDs), old(done));
              && RecordFits(was, updates, complete, order)
              && Stream(server.View(), snapshotIDs, done) == Recorded(server.cfg, was, updates, complete, order)
    {
      order := [];
      if done { return; }
      CollectNames(updates);
      if !complete { return; }
      order := server.ReconcileSnapshot(snapshotIDs);
      snapshotIDs := {};
      done := true;
    }

    method HandleBatch(server: Server, updates: seq<Update>, complete: bool) returns (order: seq<string>)
      requires server.Valid() && this !in server.Objects()
      modifies this, server.Objects()
      ensures server.Valid() && fresh(server.Objects() - old(server.Objects()))
      ensures var was := Stream(old(server.View()), old(snapshotIDs), old(done));
              var b := Batch(updates, complete, order);
              OrderFits(server.cfg, was, b) && Stream(server.View(), snapshotIDs, done) == OnBatch(server.cfg, was, b)
    {
      server.ProcessMappings(updates);
      assert this !in server.Objects();
      order := RecordBatch(server, updates, complete);
    }
  }
}
