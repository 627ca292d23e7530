/** Whole runs of mapping updates: exactly when the routers stay exact, and that no route, relay or hold outlives its
    mapping. */
module ProxyRuns {
  import opened Basics
  import opened SniRouter
  import opened ProxyMappings
  import opened ProxyPorts
  import opened ProxyInstalls
  import opened ProxyHolds

  // ----- One update -----

  /** A clean-up after `m` takes away exactly what the service has in the routers. */
  ghost predicate CleansUp(cfg: Config, st: State, m: Mapping) {
    m.id in st.net.svcPorts ==> Tidy(cfg, st.net, st.stored, m)
  }

  /** The set-up puts the service back on the TCP port it had. */
  predicate Returns(st: State, m: Mapping) {
    m.mode.Tcp? && m.id in st.stored && m.port == st.stored[m.id].port
  }

  /** Whether an update leaves every router exact. */
  ghost predicate UpdateFits(cfg: Config, st: State, u: Update) {
    match u
    case Created(m, o) =>
      o.peerOk ==> if Succeeds(cfg, st, u) then InstallFits(cfg, st.net, st.stored, m) else CleansUp(cfg, st, m)
    case Modified(m, o) =>
      && (Succeeds(cfg, st, u) && SideTls(cfg, m) ==> m.domain != "")
      && (CleansUp(cfg, st, Previous(st, m)) || (Succeeds(cfg, st, u) && Returns(st, m)))
    case Removed(m) => CleansUp(cfg, st, Previous(st, m))
  }

  /** A clean-up of a service without entry leaves routers and entries alone. */
  lemma CleanUnlisted(cfg: Config, net: Net, stored: Stored, m: Mapping)
    requires Booked(cfg, net, stored) && m.id !in net.svcPorts
    ensures var net' := CleanNet(cfg, net, m);
            net'.routers == net.routers && net'.svcPorts == net.svcPorts && net'.main.fallback == net.main.fallback
  {
    CloseBooked(cfg, net, stored, m);
  }

  lemma CleansUpIff(cfg: Config, st: State, m: Mapping)
    requires Exact(cfg, st.net, st.stored)
    ensures Exact(cfg, CleanNet(cfg, st.net, m), st.stored) <==> CleansUp(cfg, st, m)
  {
    if m.id in st.net.svcPorts {
      CleanupExactIff(cfg, st.net, st.stored, m);
    } else {
      CleanUnlisted(cfg, st.net, st.stored, m);
      ExactFrame(cfg, st.net, st.stored, CleanNet(cfg, st.net, m), st.stored);
    }
  }

  /** A set-up that fails leaves routers, entries and the main fallback alone. */
  lemma FailedSetup(cfg: Config, st: State, m: Mapping, o: Outcome)
    requires !SetupRoutes(cfg, st, m, o).ok
    ensures var st' := SetupRoutes(cfg, st, m, o).st;
            && st'.stored == st.stored && (st'.net == st.net || st'.net == NetHttp(st.net, m))
            && st'.net.routers == st.net.routers && st'.net.svcPorts == st.net.svcPorts
            && st'.net.main.fallback == st.net.main.fallback
  {
  }

  lemma TidyFrame(cfg: Config, net: Net, net': Net, stored: Stored, m: Mapping)
    requires net'.routers == net.routers && net'.svcPorts == net.svcPorts && net'.main.fallback == net.main.fallback
    ensures Tidy(cfg, net', stored, m) <==> Tidy(cfg, net, stored, m)
  {
    assert forall s, p :: TcpAt(net', stored, s, p) <==> TcpAt(net, stored, s, p);
  }

  lemma CreatedExactIff(cfg: Config, st: State, m: Mapping, o: Outcome)
    requires Exact(cfg, st.net, st.stored)
    ensures var st' := Step(cfg, st, Created(m, o));
            Exact(cfg, st'.net, st'.stored) <==> UpdateFits(cfg, st, Created(m, o))
  {
    var r := SetupRoutes(cfg, st, m, o);
    SetupKeeps(cfg, st, m, o);
    if r.ok {
      SetupExactIff(cfg, st, m, o);
    } else {
      FailedSetup(cfg, st, m, o);
      ExactFrame(cfg, st.net, st.stored, r.st.net, st.stored);
      TidyFrame(cfg, st.net, r.st.net, st.stored, m);
      CleansUpIff(cfg, r.st, m);
    }
  }

  lemma RemovedExactIff(cfg: Config, st: State, m: Mapping)
    requires Exact(cfg, st.net, st.stored) && StoredById(st.stored)
    ensures var st' := Step(cfg, st, Removed(m));
            Exact(cfg, st'.net, st'.stored) <==> UpdateFits(cfg, st, Removed(m))
  {
    var was, net' := Previous(st, m), CleanNet(cfg, st.net, Previous(st, m));
    CleansUpIff(cfg, st, was);
    CleanNetListing(cfg, st.net, st.stored, was);
    if Exact(cfg, net', st.stored) { ExactFrame(cfg, net', st.stored, net', st.stored - {m.id}); }
    if Exact(cfg, net', st.stored - {m.id}) { ExactFrame(cfg, net', st.stored - {m.id}, net', st.stored); }
  }

  /** A TCP service without the fallback of its port makes the port inexact. */
  lemma LostFallback(cfg: Config, net: Net, stored: Stored, s: string, p: int)
    requires TcpAt(net, stored, s, p) && OpenedTable(cfg, net, p).fallback.None? && (IsMain(cfg, p) ==> p == cfg.mainPort)
    ensures !Exact(cfg, net, stored)
  {
    if !IsMain(cfg, p) { assert !PortExact(net, stored, p); }
  }

  lemma InstallFallback(cfg: Config, st: State, m: Mapping, o: Outcome, p: int)
    requires SetupRoutes(cfg, st, m, o).ok && !(m.mode.Tcp? && m.port == p) && (IsMain(cfg, p) ==> p == cfg.mainPort)
    ensures var net' := SetupRoutes(cfg, st, m, o).st.net;
            && OpenedTable(cfg, net', p).fallback == OpenedTable(cfg, st.net, p).fallback
            && (net'.svcPorts == st.net.svcPorts || net'.svcPorts == st.net.svcPorts[m.id := [m.port]])
  {
    match m.mode {
      case Tcp => assert SetupRoutes(cfg, st, m, o).st.net == NetTcp(cfg, st.net, m);
      case Tls => assert SetupRoutes(cfg, st, m, o).st.net == NetTls(cfg, st.net, m);
      case _ =>
    }
  }

  /** After a clean-up, only a TCP set-up on the same port touches the fallback of the port. */
  lemma FinishFallback(cfg: Config, st: State, m: Mapping, o: Outcome, p: int)
    requires Booked(cfg, st.net, st.stored) && m.id !in st.net.svcPorts
    requires !(SetupRoutes(cfg, st, m, o).ok && m.mode.Tcp? && m.port == p) && (IsMain(cfg, p) ==> p == cfg.mainPort)
    ensures var st' := Finish(cfg, SetupRoutes(cfg, st, m, o), m);
            && OpenedTable(cfg, st'.net, p).fallback == OpenedTable(cfg, st.net, p).fallback
            && !TcpAt(st'.net, st'.stored, m.id, p)
            && forall s :: s != m.id && TcpAt(st.net, st.stored, s, p) ==> TcpAt(st'.net, st'.stored, s, p)
  {
    var r := SetupRoutes(cfg, st, m, o);
    SetupKeeps(cfg, st, m, o);
    if r.ok {
      InstallFallback(cfg, st, m, o, p);
    } else {
      FailedSetup(cfg, st, m, o);
      assert Booked(cfg, r.st.net, st.stored);
      CleanUnlisted(cfg, r.st.net, st.stored, m);
    }
  }

  /** What an untidy clean-up does wrong at the port of the service. */
  lemma UntidyFallback(cfg: Config, st: State, m: Mapping)
    requires Exact(cfg, st.net, st.stored) && m.id in st.net.svcPorts && m == st.stored[m.id]
    requires !Tidy(cfg, st.net, st.stored, m)
    ensures var net' := CleanNet(cfg, st.net, m);
            || OwnsFallback(cfg, net', m)
            || (OpenedTable(cfg, net', m.port).fallback.None? && exists s :: s != m.id && TcpAt(net', st.stored, s, m.port))
  {
    var net' := CleanNet(cfg, st.net, m);
    CloseBooked(cfg, st.net, st.stored, m);
    CleanNetListing(cfg, st.net, st.stored, m);
    assert Listed(st.net, m.id, m.port);
    if !IsMain(cfg, m.port) { assert PortExact(st.net, st.stored, m.port); }
    if m.domain == "" {
      var s :| TcpAt(st.net, st.stored, s, m.port) && s != m.id;
      assert TcpAt(net', st.stored, s, m.port);
    }
  }

  lemma ModifiedUntidy(cfg: Config, st: State, m: Mapping, o: Outcome)
    requires Exact(cfg, st.net, st.stored) && StoredById(st.stored) && !CleansUp(cfg, st, Previous(st, m))
    requires !(Succeeds(cfg, st, Modified(m, o)) && Returns(st, m))
    ensures var st' := Step(cfg, st, Modified(m, o)); !Exact(cfg, st'.net, st'.stored)
  {
    var was := st.stored[m.id];
    var st1 := Cleanup(cfg, st, was);
    var st' := Step(cfg, st, Modified(m, o));
    CleanNetListing(cfg, st.net, st.stored, was);
    assert Booked(cfg, st1.net, st1.stored);
    UntidyFallback(cfg, st, was);
    FinishFallback(cfg, st1, m, o, was.port);
    if OwnsFallback(cfg, st1.net, was) {
      assert OwnsFallback(cfg, st'.net, was);
      LeftFallback(cfg, st'.net, st'.stored, was);
    } else {
      var s :| s != was.id && TcpAt(st1.net, st.stored, s, was.port);
      LostFallback(cfg, st'.net, st'.stored, s, was.port);
    }
  }

  lemma ModifiedTidy(cfg: Config, st: State, m: Mapping, o: Outcome)
    requires Exact(cfg, st.net, st.stored) && StoredById(st.stored) && CleansUp(cfg, st, Previous(st, m))
    ensures var st' := Step(cfg, st, Modified(m, o));
            Exact(cfg, st'.net, st'.stored) <==> UpdateFits(cfg, st, Modified(m, o))
  {
    var was := Previous(st, m);
    var st1 := Cleanup(cfg, st, was);
    var r := SetupRoutes(cfg, st1, m, o);
    CleansUpIff(cfg, st, was);
    CleanNetListing(cfg, st.net, st.stored, was);
    SetupKeeps(cfg, st1, m, o);
    if r.ok {
      SetupExactIff(cfg, st1, m, o);
    } else {
      FailedSetup(cfg, st1, m, o);
      ExactFrame(cfg, st1.net, st1.stored, r.st.net, st1.stored);
      CleansUpIff(cfg, r.st, m);
    }
  }

  lemma ModifiedExactIff(cfg: Config, st: State, m: Mapping, o: Outcome)
    requires Exact(cfg, st.net, st.stored) && StoredById(st.stored)
    ensures var st' := Step(cfg, st, Modified(m, o));
            Exact(cfg, st'.net, st'.stored) <==> UpdateFits(cfg, st, Modified(m, o))
  {
    if CleansUp(cfg, st, Previous(st, m)) {
      ModifiedTidy(cfg, st, m, o);
    } else if Succeeds(cfg, st, Modified(m, o)) && Returns(st, m) {
      var was := st.stored[m.id];
      var st1 := Cleanup(cfg, st, was);
      CleanNetListing(cfg, st.net, st.stored, was);
      CleanupExactBut(cfg, st.net, st.stored, was);
      SetupKeeps(cfg, st1, m, o);
      InstallTcpExact(cfg, st1.net, st1.stored, m);
    } else {
      ModifiedUntidy(cfg, st, m, o);
    }
  }

  /** An update, failed or not, leaves every router exact if and only if it fits. */
  lemma StepExactIff(cfg: Config, st: State, u: Update)
    requires Exact(cfg, st.net, st.stored) && StoredById(st.stored)
    ensures var st' := Step(cfg, st, u); Exact(cfg, st'.net, st'.stored) <==> UpdateFits(cfg, st, u)
  {
    match u {
      case Created(m, o) => CreatedExactIff(cfg, st, m, o);
      case Modified(m, o) => ModifiedExactIff(cfg, st, m, o);
      case Removed(m) => RemovedExactIff(cfg, st, m);
    }
  }

  // ----- Whole runs -----

  /** The routers are exact now and after every update. */
  ghost predicate AlwaysExact(cfg: Config, st: State, us: seq<Update>)
    decreases |us|
  {
    Exact(cfg, st.net, st.stored) && (us == [] || AlwaysExact(cfg, Step(cfg, st, us[0]), us[1..]))
  }

  ghost predicate FittingRun(cfg: Config, st: State, us: seq<Update>)
    decreases |us|
  {
    us == [] || (UpdateFits(cfg, st, us[0]) && FittingRun(cfg, Step(cfg, st, us[0]), us[1..]))
  }

  /** Throughout a run the routers are exact if and only if every update of it fits when it arrives. */
  lemma {:induction false} AlwaysExactIff(cfg: Config, st: State, us: seq<Update>)
    requires Exact(cfg, st.net, st.stored) && StoredById(st.stored)
    ensures AlwaysExact(cfg, st, us) <==> FittingRun(cfg, st, us)
    decreases |us|
  {
    if us != [] {
      var st' := Step(cfg, st, us[0]);
      StepExactIff(cfg, st, us[0]);
      StepStored(cfg, st, us[0]);
      if Exact(cfg, st'.net, st'.stored) { AlwaysExactIff(cfg, st', us[1..]); }
    }
  }

  lemma FreshExact(cfg: Config)
    ensures Exact(cfg, INITIAL.net, INITIAL.stored) && Conserved(INITIAL)
  {
  }

  /** A proxy started from scratch keeps its routers exact throughout a run if and only if every update fits. */
  lemma PortsExactFromStart(cfg: Config, us: seq<Update>)
    ensures AlwaysExact(cfg, INITIAL, us) <==> FittingRun(cfg, INITIAL, us)
  {
    FreshExact(cfg);
    AlwaysExactIff(cfg, INITIAL, us);
  }

  // ----- Routes, relays and holds -----

  /** No route in the main router and no relay outlives or contradicts the stored mapping of its service. */
  ghost predicate SoundFor(st: State, s: string) {
    && (forall h :: Find(st.net.main, h, s).Some? ==> h != "" && s in st.stored && h == Lower(st.stored[s].domain))
    && (s in st.relays ==> s in st.stored && st.stored[s].mode.Udp?)
  }

  /** Routers, entries, main routes, relays, holds and stored mappings agree. */
  ghost predicate Inv(cfg: Config, st: State) {
    Exact(cfg, st.net, st.stored) && Conserved(st) && forall s :: SoundFor(st, s)
  }

  /** What the service still has in the main router and among the relays is replaced by the set-up itself. */
  ghost predicate Replaces(st: State, m: Mapping) {
    && (m.id in st.relays ==> m.mode.Udp?)
    && (forall h :: Find(st.net.main, h, m.id).Some? ==> h == Lower(m.domain))
  }

  /** Whether an update leaves main routes and relays in agreement with the stored mappings. */
  ghost predicate Agreeable(cfg: Config, st: State, u: Update) {
    u.Created? && Succeeds(cfg, st, u) ==> Replaces(st, u.m)
  }

  /** An update that fits and, if it is a CREATED that succeeds, replaces what is left of an earlier one. */
  ghost predicate Admissible(cfg: Config, st: State, u: Update) {
    UpdateFits(cfg, st, u) && Agreeable(cfg, st, u)
  }

  ghost predicate AdmissibleRun(cfg: Config, st: State, us: seq<Update>)
    decreases |us|
  {
    us == [] || (Admissible(cfg, st, us[0]) && AdmissibleRun(cfg, Step(cfg, st, us[0]), us[1..]))
  }

  lemma SetupMainTable(cfg: Config, st: State, m: Mapping, o: Outcome)
    ensures var t := SetupRoutes(cfg, st, m, o).st.net.main;
            t == st.net.main || t == SetFallback(st.net.main, RouteOf(m)) || t == AddRoute(st.net.main, m.domain, RouteOf(m))
  {
  }

  /** A set-up touches the main router only for the service's own route. */
  lemma SetupMain(cfg: Config, st: State, m: Mapping, o: Outcome, h: string, s: string)
    ensures var t := SetupRoutes(cfg, st, m, o).st.net.main;
            Find(t, h, s) == Find(st.net.main, h, s) || (s == m.id && h != "" && h == Lower(m.domain))
  {
    SetupMainTable(cfg, st, m, o);
    FindAddRoute(st.net.main, m.domain, RouteOf(m), h, s);
  }

  lemma SetupRelays(cfg: Config, st: State, m: Mapping, o: Outcome)
    ensures var st' := SetupRoutes(cfg, st, m, o).st;
            && (forall s :: s != m.id ==> (s in st'.relays <==> s in st.relays))
            && (m.id in st'.relays ==> m.mode.Udp? || m.id in st.relays)
  {
  }

  /** A clean-up takes away the main route and the relay of the service and leaves those of others. */
  lemma CleanupSound(cfg: Config, st: State, m: Mapping, s: string)
    requires Booked(cfg, st.net, st.stored)
    requires if s == m.id then forall h :: Find(st.net.main, h, s).Some? ==> h != "" && h == Lower(m.domain) else SoundFor(st, s)
    ensures SoundFor(Cleanup(cfg, st, m), s)
    ensures s == m.id ==> s !in Cleanup(cfg, st, m).relays && forall h :: Find(Cleanup(cfg, st, m).net.main, h, s).None?
  {
    var st' := Cleanup(cfg, st, m);
    forall h
      ensures Find(st'.net.main, h, s) ==
              if m.domain != "" && h == Lower(m.domain) && s == m.id then None else Find(st.net.main, h, s)
    {
      CleanNetMain(cfg, st.net, st.stored, m, h, s);
    }
    LowerOnlyEmpty(m.domain);
  }

  lemma SetupFinds(cfg: Config, st: State, m: Mapping, o: Outcome, s: string)
    ensures var t := SetupRoutes(cfg, st, m, o).st.net.main;
            forall h :: Find(t, h, s) == Find(st.net.main, h, s) || (s == m.id && h != "" && h == Lower(m.domain))
  {
    forall h
      ensures var t := SetupRoutes(cfg, st, m, o).st.net.main;
              Find(t, h, s) == Find(st.net.main, h, s) || (s == m.id && h != "" && h == Lower(m.domain))
    {
      SetupMain(cfg, st, m, o, h, s);
    }
  }

  /** A set-up that fails takes its own route and relay down again and leaves the rest as it was. */
  lemma FailedSound(cfg: Config, st: State, m: Mapping, o: Outcome, s: string)
    requires Booked(cfg, st.net, st.stored) && SoundFor(st, s) && !SetupRoutes(cfg, st, m, o).ok
    ensures SoundFor(Finish(cfg, SetupRoutes(cfg, st, m, o), m), s)
  {
    var r := SetupRoutes(cfg, st, m, o);
    var st' := Cleanup(cfg, r.st, m);
    SetupKeeps(cfg, st, m, o);
    SetupRelays(cfg, st, m, o);
    SetupFinds(cfg, st, m, o, s);
    FailedSetup(cfg, st, m, o);
    LowerOnlyEmpty(m.domain);
    forall h | Find(st'.net.main, h, s).Some? ensures Find(st.net.main, h, s).Some? {
      CleanNetMain(cfg, r.st.net, r.st.stored, m, h, s);
    }
  }

  /** A set-up that succeeds leaves the service in agreement if and only if it replaces what was left of it. */
  lemma InstalledSoundIff(cfg: Config, st: State, m: Mapping, o: Outcome)
    requires SoundFor(st, m.id) && SetupRoutes(cfg, st, m, o).ok
    ensures SoundFor(Finish(cfg, SetupRoutes(cfg, st, m, o), m), m.id) <==> Replaces(st, m)
  {
    var r := SetupRoutes(cfg, st, m, o);
    var st' := Finish(cfg, r, m);
    SetupKeeps(cfg, st, m, o);
    SetupRelaysBack(cfg, st, m, o);
    SetupFinds(cfg, st, m, o, m.id);
    if h :| Find(st.net.main, h, m.id).Some? && h != Lower(m.domain) {
      assert Find(st'.net.main, h, m.id).Some?;
    }
  }

  lemma SetupRelaysBack(cfg: Config, st: State, m: Mapping, o: Outcome)
    requires SetupRoutes(cfg, st, m, o).ok
    ensures m.id in SetupRoutes(cfg, st, m, o).st.relays <==> m.mode.Udp? || m.id in st.relays
  {
  }

  lemma InstalledOther(cfg: Config, st: State, m: Mapping, o: Outcome, s: string)
    requires SoundFor(st, s) && s != m.id && SetupRoutes(cfg, st, m, o).ok
    ensures SoundFor(Finish(cfg, SetupRoutes(cfg, st, m, o), m), s)
  {
    SetupKeeps(cfg, st, m, o);
    SetupRelays(cfg, st, m, o);
    SetupFinds(cfg, st, m, o, s);
  }

  lemma FinishSound(cfg: Config, st: State, m: Mapping, o: Outcome, s: string)
    requires Booked(cfg, st.net, st.stored) && SoundFor(st, s) && SoundFor(st, m.id)
    ensures SoundFor(Finish(cfg, SetupRoutes(cfg, st, m, o), m), s) <==>
            s != m.id || !SetupRoutes(cfg, st, m, o).ok || Replaces(st, m)
  {
    if !SetupRoutes(cfg, st, m, o).ok {
      FailedSound(cfg, st, m, o, s);
    } else if s == m.id {
      InstalledSoundIff(cfg, st, m, o);
    } else {
      InstalledOther(cfg, st, m, o, s);
    }
  }

  lemma StepSound(cfg: Config, st: State, u: Update, s: string)
    requires Booked(cfg, st.net, st.stored) && StoredById(st.stored) && SoundFor(st, s) && SoundFor(st, u.m.id)
    ensures SoundFor(Step(cfg, st, u), s) <==> s != u.m.id || Agreeable(cfg, st, u)
  {
    var m := u.m;
    var was := Previous(st, m);
    match u {
      case Created(_, o) => if o.peerOk { FinishSound(cfg, st, m, o, s); }
      case Modified(_, o) =>
        CleanupSound(cfg, st, was, s);
        CleanupSound(cfg, st, was, m.id);
        CleanNetListing(cfg, st.net, st.stored, was);
        FinishSound(cfg, Cleanup(cfg, st, was), m, o, s);
      case Removed(_) => CleanupSound(cfg, st, was, s);
    }
  }

  /** An update, failed or not, keeps everything in agreement if and only if it is admissible. */
  lemma StepInvIff(cfg: Config, st: State, u: Update)
    requires Inv(cfg, st)
    ensures Inv(cfg, Step(cfg, st, u)) <==> Admissible(cfg, st, u)
  {
    StepExactIff(cfg, st, u);
    StepHolds(cfg, st, u);
    assert SoundFor(st, u.m.id);
    forall s ensures SoundFor(Step(cfg, st, u), s) <==> s != u.m.id || Agreeable(cfg, st, u) {
      assert SoundFor(st, s);
      StepSound(cfg, st, u, s);
    }
    assert SoundFor(Step(cfg, st, u), u.m.id) <==> Agreeable(cfg, st, u);
  }

  /** Everything is in agreement now and after every update. */
  ghost predicate AlwaysInv(cfg: Config, st: State, us: seq<Update>)
    decreases |us|
  {
    Inv(cfg, st) && (us == [] || AlwaysInv(cfg, Step(cfg, st, us[0]), us[1..]))
  }

  /** Throughout a run everything is in agreement if and only if every update is admissible when it arrives. */
  lemma {:induction false} AlwaysInvIff(cfg: Config, st: State, us: seq<Update>)
    requires Inv(cfg, st)
    ensures AlwaysInv(cfg, st, us) <==> AdmissibleRun(cfg, st, us)
    decreases |us|
  {
    if us != [] {
      StepInvIff(cfg, st, us[0]);
      if Admissible(cfg, st, us[0]) { AlwaysInvIff(cfg, Step(cfg, st, us[0]), us[1..]); }
    }
  }

  lemma {:induction false} RunInv(cfg: Config, st: State, us: seq<Update>)
    requires Inv(cfg, st) && AdmissibleRun(cfg, st, us)
    ensures Inv(cfg, Run(cfg, st, us))
    decreases |us|
  {
    if us != [] {
      StepInvIff(cfg, st, us[0]);
      RunInv(cfg, Step(cfg, st, us[0]), us[1..]);
    }
  }
}
