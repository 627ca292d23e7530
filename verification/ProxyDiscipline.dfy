/** A discipline of the sender under which every update fits, and the updates for which the discipline is needed. */
module ProxyDiscipline {
  import opened Basics
  import opened SniRouter
  import opened ProxyMappings
  import opened ProxyPorts
  import opened ProxyInstalls
  import opened ProxyHolds
  import opened ProxyRuns

  predicate SameShape(m: Mapping, m': Mapping) {
    m.mode == m'.mode && m.domain == m'.domain && m.port == m'.port
  }

  /** A TCP mapping without domain, a TLS mapping with one. */
  predicate WellShaped(m: Mapping) {
    (m.mode.Tcp? ==> m.domain == "") && (m.mode.Tls? ==> m.domain != "")
  }

  ghost predicate PortFree(st: State, m: Mapping) {
    m.mode.Tcp? ==> forall s :: TcpAt(st.net, st.stored, s, m.port) ==> s == m.id
  }

  /** Listed TCP services have no domain, and no two of them share a port. */
  ghost predicate TcpPlain(st: State) {
    && (forall s, p :: TcpAt(st.net, st.stored, s, p) ==> st.stored[s].domain == "")
    && (forall s, s', p :: TcpAt(st.net, st.stored, s, p) && TcpAt(st.net, st.stored, s', p) ==> s == s')
  }

  /** TCP mappings without domain and TLS mappings with one, a TCP port taken by one service only, and a repeated
      CREATED that keeps mode, domain and port. */
  ghost predicate Disciplined(st: State, u: Update) {
    match u
    case Created(m, _) => WellShaped(m) && PortFree(st, m) && (m.id in st.stored ==> SameShape(m, st.stored[m.id]))
    case Modified(m, _) => WellShaped(m) && PortFree(st, m)
    case Removed(m) => true
  }

  ghost predicate DisciplinedRun(cfg: Config, st: State, us: seq<Update>)
    decreases |us|
  {
    us == [] || (Disciplined(st, us[0]) && DisciplinedRun(cfg, Step(cfg, st, us[0]), us[1..]))
  }

  lemma DisciplinedFits(cfg: Config, st: State, u: Update)
    requires Inv(cfg, st) && TcpPlain(st) && Disciplined(st, u)
    ensures Admissible(cfg, st, u)
  {
    var m := u.m;
    assert SoundFor(st, m.id);
    if m.id in st.net.svcPorts {
      var was := st.stored[m.id];
      assert Listed(st.net, m.id, was.port);
      if was.mode.Tcp? { assert TcpAt(st.net, st.stored, m.id, was.port); }
    }
  }

  /** `st'` has the entries of `st`, but for service `m.id`, which as a TCP service can only have `m`'s. */
  ghost predicate Relisted(st: State, st': State, m: Mapping) {
    && (forall s :: s != m.id ==> SameAt(st'.net.svcPorts, st.net.svcPorts, s) && SameAt(st'.stored, st.stored, s))
    && (forall p :: TcpAt(st'.net, st'.stored, m.id, p) ==> m.mode.Tcp? && p == m.port && st'.stored[m.id] == m)
  }

  lemma RelistedPlain(st: State, st': State, m: Mapping)
    requires TcpPlain(st) && WellShaped(m) && PortFree(st, m) && Relisted(st, st', m)
    ensures TcpPlain(st')
  {
    forall s, p | TcpAt(st'.net, st'.stored, s, p) && s != m.id
      ensures TcpAt(st.net, st.stored, s, p) && st'.stored[s] == st.stored[s]
    {
      assert SameAt(st'.net.svcPorts, st.net.svcPorts, s);
    }
    assert forall s, p :: TcpAt(st'.net, st'.stored, s, p) ==> st'.stored[s].domain == "";
  }

  lemma SetupListing(cfg: Config, st: State, m: Mapping, o: Outcome)
    ensures var ports := SetupRoutes(cfg, st, m, o).st.net.svcPorts;
            && (ports == st.net.svcPorts || ports == st.net.svcPorts[m.id := [m.port]])
            && (SetupRoutes(cfg, st, m, o).ok && m.mode.Tcp? ==> ports == st.net.svcPorts[m.id := [m.port]])
  {
  }

  lemma FinishListing(cfg: Config, st: State, m: Mapping, o: Outcome)
    requires Booked(cfg, st.net, st.stored)
    ensures Relisted(st, Finish(cfg, SetupRoutes(cfg, st, m, o), m), m)
  {
    var r := SetupRoutes(cfg, st, m, o);
    SetupKeeps(cfg, st, m, o);
    SetupListing(cfg, st, m, o);
    if !r.ok {
      FailedSetup(cfg, st, m, o);
      CleanNetListing(cfg, r.st.net, st.stored, m);
    }
  }

  lemma ModifiedListing(cfg: Config, st: State, m: Mapping, o: Outcome)
    requires Booked(cfg, st.net, st.stored) && StoredById(st.stored)
    ensures Relisted(st, Step(cfg, st, Modified(m, o)), m)
  {
    var st1 := Cleanup(cfg, st, Previous(st, m));
    CleanNetListing(cfg, st.net, st.stored, Previous(st, m));
    assert Booked(cfg, st1.net, st1.stored);
    FinishListing(cfg, st1, m, o);
    var st' := Step(cfg, st, Modified(m, o));
    forall s | s != m.id ensures SameAt(st'.net.svcPorts, st.net.svcPorts, s) && SameAt(st'.stored, st.stored, s) {
      assert SameAt(st'.net.svcPorts, st1.net.svcPorts, s) && SameAt(st'.stored, st1.stored, s);
    }
  }

  lemma RemovedPlain(cfg: Config, st: State, m: Mapping)
    requires Booked(cfg, st.net, st.stored) && StoredById(st.stored) && TcpPlain(st)
    ensures TcpPlain(Step(cfg, st, Removed(m)))
  {
    var st' := Step(cfg, st, Removed(m));
    CleanNetListing(cfg, st.net, st.stored, Previous(st, m));
    assert forall s, p :: TcpAt(st'.net, st'.stored, s, p) ==> TcpAt(st.net, st.stored, s, p) && st'.stored[s] == st.stored[s];
  }

  lemma DisciplinedPlain(cfg: Config, st: State, u: Update)
    requires Inv(cfg, st) && TcpPlain(st) && Disciplined(st, u)
    ensures TcpPlain(Step(cfg, st, u))
  {
    match u {
      case Created(m, o) =>
        if o.peerOk {
          FinishListing(cfg, st, m, o);
          RelistedPlain(st, Step(cfg, st, u), m);
        }
      case Modified(m, o) =>
        ModifiedListing(cfg, st, m, o);
        RelistedPlain(st, Step(cfg, st, u), m);
      case Removed(m) => RemovedPlain(cfg, st, m);
    }
  }

  /** Disciplined updates keep the routers exact throughout, whatever fails, and everything in agreement. */
  lemma {:induction false} DisciplinedRunExact(cfg: Config, st: State, us: seq<Update>)
    requires Inv(cfg, st) && TcpPlain(st) && DisciplinedRun(cfg, st, us)
    ensures AlwaysExact(cfg, st, us) && AlwaysInv(cfg, st, us) && Inv(cfg, Run(cfg, st, us))
    decreases |us|
  {
    if us != [] {
      DisciplinedFits(cfg, st, us[0]);
      DisciplinedPlain(cfg, st, us[0]);
      StepInvIff(cfg, st, us[0]);
      DisciplinedRunExact(cfg, Step(cfg, st, us[0]), us[1..]);
    }
  }

  /** So do those sent to a proxy started from scratch. */
  lemma DisciplinedFromStart(cfg: Config, us: seq<Update>)
    requires DisciplinedRun(cfg, INITIAL, us)
    ensures AlwaysExact(cfg, INITIAL, us) && AlwaysInv(cfg, INITIAL, us)
  {
    FreshExact(cfg);
    DisciplinedRunExact(cfg, INITIAL, us);
  }

  // ----- Why the discipline is needed -----

  lemma RunTwo(cfg: Config, st: State, a: Update, b: Update)
    ensures Run(cfg, st, [a, b]) == Step(cfg, Step(cfg, st, a), b)
  {
    var st1 := Step(cfg, st, a);
    assert [a, b][1..] == [b] && [b][1..] == [];
    assert Run(cfg, st1, [b]) == Run(cfg, Step(cfg, st1, b), []);
  }

  const ALL_OK := Outcome(true, true, true, true, true)

  /** Any TCP mapping that carries a domain leaves its listener open after it is removed, still
      forwarding to the removed service, although no service lists the port any more. */
  lemma TcpDomainLeaks(cfg: Config, m: Mapping)
    requires m.mode.Tcp? && m.domain != "" && PortUsable(cfg, INITIAL.net, m, ALL_OK) && !IsMain(cfg, m.port)
    ensures var net := Run(cfg, INITIAL, [Created(m, ALL_OK), Removed(m)]).net;
            && net.svcPorts == map[]
            && m.port in net.routers && net.routers[m.port].fallback == Some(RouteOf(m))
  {
    var us := [Created(m, ALL_OK), Removed(m)];
    var st1 := Step(cfg, INITIAL, us[0]);
    RunTwo(cfg, INITIAL, us[0], us[1]);
    assert [m.port][1..] == [];
    var t := SetFallback(EMPTY_TABLE, RouteOf(m));
    assert st1.net.routers == map[m.port := t] && PortsOf(st1.net, m.id) == [m.port];
    var closed := CloseEntry(cfg, Unlisted(st1.net, m), m, m.port);
    assert CloseEntries(cfg, closed, m, []) == closed;
    assert CleanNet(cfg, st1.net, m) == closed;
  }

  /** Two TCP services on one port: removing the first closes the port under the second. */
  lemma SharedTcpPortCloses(cfg: Config, a: Mapping, b: Mapping)
    requires a.mode.Tcp? && b.mode.Tcp? && a.domain == b.domain == "" && a.port == b.port && a.id != b.id
    requires PortUsable(cfg, INITIAL.net, a, ALL_OK) && b.target != "" && !IsMain(cfg, a.port)
    ensures var net := Run(cfg, INITIAL, [Created(a, ALL_OK), Created(b, ALL_OK), Removed(a)]).net;
            Listed(net, b.id, b.port) && b.port !in net.routers
  {
    var us := [Created(a, ALL_OK), Created(b, ALL_OK), Removed(a)];
    var st1 := Step(cfg, INITIAL, us[0]);
    var st2 := Step(cfg, st1, us[1]);
    assert us[1..] == [us[1], us[2]];
    RunTwo(cfg, st1, us[1], us[2]);
    assert [a.port][1..] == [];
    assert st2.stored[a.id] == a && PortsOf(st2.net, a.id) == [a.port];
    var closed := CloseEntry(cfg, Unlisted(st2.net, a), a, a.port);
    assert CloseEntries(cfg, closed, a, []) == closed;
    assert CleanNet(cfg, st2.net, a) == closed;
  }

  /** A repeated CREATED that moves the service to another port strands the first listener. */
  lemma MovedByCreateStrands(cfg: Config, m: Mapping, port: int)
    requires m.mode.Tcp? && PortUsable(cfg, INITIAL.net, m, ALL_OK) && !IsMain(cfg, m.port)
    requires PortUsable(cfg, INITIAL.net, m.(port := port), ALL_OK) && port != m.port
    ensures var net := Run(cfg, INITIAL, [Created(m, ALL_OK), Created(m.(port := port), ALL_OK)]).net;
            m.port in net.routers && forall s :: !Listed(net, s, m.port)
  {
    var us := [Created(m, ALL_OK), Created(m.(port := port), ALL_OK)];
    var st1 := Step(cfg, INITIAL, us[0]);
    RunTwo(cfg, INITIAL, us[0], us[1]);
  }

  /** A repeated CREATED of a TLS service on the same port under another host leaves the old route in the router. */
  lemma RenamedByCreateStays(cfg: Config, m: Mapping, domain: string)
    requires SideTls(cfg, m) && m.domain != "" && Lower(domain) != Lower(m.domain) && PortUsable(cfg, INITIAL.net, m, ALL_OK)
    ensures var st := Run(cfg, INITIAL, [Created(m, ALL_OK), Created(m.(domain := domain), ALL_OK)]);
            && m.port in st.net.routers && Find(st.net.routers[m.port], Lower(m.domain), m.id) == Some(RouteOf(m))
            && !Exact(cfg, st.net, st.stored)
  {
    var n := m.(domain := domain);
    var us := [Created(m, ALL_OK), Created(n, ALL_OK)];
    var st1 := Step(cfg, INITIAL, us[0]);
    RunTwo(cfg, INITIAL, us[0], us[1]);
    var st2 := Step(cfg, st1, us[1]);
    LowerOnlyEmpty(m.domain);
    FindAddRoute(EMPTY_TABLE, m.domain, RouteOf(m), Lower(m.domain), m.id);
    FindAddRoute(st1.net.routers[m.port], domain, RouteOf(n), Lower(m.domain), m.id);
    LeftRoute(cfg, st2.net, st2.stored, m.port, Lower(m.domain), m.id);
  }

  /** A repeated CREATED of an HTTP service under another host leaves its old route in the main router. */
  lemma RenamedHttpStays(cfg: Config, m: Mapping, domain: string)
    requires m.mode.Http? && m.hasPath && m.domain != "" && Lower(domain) != Lower(m.domain)
    ensures var st := Run(cfg, INITIAL, [Created(m, ALL_OK), Created(m.(domain := domain), ALL_OK)]);
            && Find(st.net.main, Lower(m.domain), m.id) == Some(RouteOf(m))
            && !SoundFor(st, m.id)
  {
    var n := m.(domain := domain);
    var us := [Created(m, ALL_OK), Created(n, ALL_OK)];
    var st1 := Step(cfg, INITIAL, us[0]);
    RunTwo(cfg, INITIAL, us[0], us[1]);
    LowerOnlyEmpty(m.domain);
    FindAddRoute(INITIAL.net.main, m.domain, RouteOf(m), Lower(m.domain), m.id);
    FindAddRoute(st1.net.main, domain, RouteOf(n), Lower(m.domain), m.id);
    assert Step(cfg, st1, us[1]).stored[m.id] == n;
  }

  /** Removing a TLS mapping without a domain clears the fallback of a TCP service on its port and closes the port
      under that service. */
  lemma TlsWithoutDomainCloses(cfg: Config, a: Mapping, b: Mapping)
    requires a.mode.Tcp? && SideTls(cfg, b) && b.domain == "" && a.port == b.port && a.id != b.id
    requires PortUsable(cfg, INITIAL.net, a, ALL_OK) && b.target != ""
    ensures var net := Run(cfg, INITIAL, [Created(a, ALL_OK), Created(b, ALL_OK), Removed(b)]).net;
            Listed(net, a.id, a.port) && a.port !in net.routers
  {
    var us := [Created(a, ALL_OK), Created(b, ALL_OK), Removed(b)];
    var st1 := Step(cfg, INITIAL, us[0]);
    var st2 := Step(cfg, st1, us[1]);
    assert us[1..] == [us[1], us[2]];
    RunTwo(cfg, st1, us[1], us[2]);
    assert [b.port][1..] == [];
    assert st2.stored[b.id] == b && PortsOf(st2.net, b.id) == [b.port];
    var closed := CloseEntry(cfg, Unlisted(st2.net, b), b, b.port);
    assert CloseEntries(cfg, closed, b, []) == closed;
    assert CleanNet(cfg, st2.net, b) == closed;
  }
}
