/** Service mappings of the reverse proxy (proxy/server.go) on values: what one
    CREATED, MODIFIED or REMOVED update does to the routers, the service-to-port
    bookkeeping, the stored mappings, the UDP relays and the CrowdSec holds.

    Everything the proxy cannot decide itself (a bind, a dialer, the NetBird peer,
    the authenticator, the CrowdSec bouncer) is an `Outcome` given with the update. */
module ProxyMappings {
  import opened Basics
  import opened SniRouter

  datatype Mode = Http | Tcp | Udp | Tls

  /** `target` is empty when the mapping has no valid layer-4 target;
      `hasPath` says whether an HTTP mapping lists any path. */
  datatype Mapping = Mapping(id: string, account: string, mode: Mode, domain: string,
                             port: int, target: string, hasPath: bool, crowdsec: bool)

  datatype Outcome = Outcome(peerOk: bool, bindOk: bool, dialOk: bool, authOk: bool, bouncerOk: bool)

  datatype Update = Created(m: Mapping, o: Outcome) | Modified(m: Mapping, o: Outcome) | Removed(m: Mapping)

  datatype Config = Config(mainPort: int, wireguardPort: int, crowdsecAvailable: bool)

  /** The main router, the open per-port routers and the ports listed for each service. */
  datatype Net = Net(main: Table, routers: map<int, Table>, svcPorts: map<string, seq<int>>)

  datatype HoldEvent = Held(svc: string) | Released(svc: string)

  /** The proxy's own set of CrowdSec services, the registry's references, and the history. */
  datatype Holds = Holds(tracked: set<string>, refs: set<string>, log: seq<HoldEvent>)

  type Stored = map<string, Mapping>

  datatype State = State(net: Net, stored: Stored, relays: map<string, int>, holds: Holds)

  const INITIAL := State(Net(EMPTY_TABLE, map[], map[]), map[], map[], Holds({}, {}, []))

  predicate IsMain(cfg: Config, port: int) {
    port == 0 || port == cfg.mainPort
  }

  predicate ValidPort(port: int) {
    0 < port < 65536
  }

  predicate TunnelPort(cfg: Config, port: int) {
    cfg.wireguardPort != 0 && port == cfg.wireguardPort
  }

  function RouteOf(m: Mapping): Route {
    Route(if m.mode.Http? then HttpRoute else TcpRoute, m.account, m.id, m.domain, if m.mode.Http? then "" else m.target)
  }

  /** The router serving a port, if it is open. */
  function TableAt(cfg: Config, net: Net, port: int): Option<Table> {
    if IsMain(cfg, port) then Some(net.main)
    else if port in net.routers then Some(net.routers[port])
    else None
  }

  function PutTable(cfg: Config, net: Net, port: int, t: Table): Net {
    if IsMain(cfg, port) then net.(main := t) else net.(routers := net.routers[port := t])
  }

  /** The table on the port, a fresh one when the listener has just been opened. */
  function OpenedTable(cfg: Config, net: Net, port: int): Table {
    var t := TableAt(cfg, net, port);
    if t.Some? then t.value else EMPTY_TABLE
  }

  /** parseRestrictions: takes a hold on the shared bouncer when the mapping asks for
      CrowdSec and the registry can provide a bouncer. */
  function Acquire(cfg: Config, hs: Holds, m: Mapping, o: Outcome): Holds {
    if m.crowdsec && cfg.crowdsecAvailable && (hs.refs != {} || o.bouncerOk) then
      Holds(hs.tracked + {m.id}, hs.refs + {m.id}, if m.id in hs.refs then hs.log else hs.log + [Held(m.id)])
    else hs
  }

  function Release(hs: Holds, svc: string): Holds {
    if svc in hs.tracked then Holds(hs.tracked - {svc}, hs.refs - {svc}, hs.log + [Released(svc)]) else hs
  }

  /** Checks shared by the TCP and TLS set-up, ending with the router of the port. */
  predicate PortUsable(cfg: Config, net: Net, m: Mapping, o: Outcome) {
    && ValidPort(m.port)
    && m.target != ""
    && !TunnelPort(cfg, m.port)
    && (TableAt(cfg, net, m.port).Some? || o.bindOk)
  }

  predicate RelayUsable(cfg: Config, m: Mapping) {
    ValidPort(m.port) && m.target != "" && !TunnelPort(cfg, m.port)
  }

  function NetHttp(net: Net, m: Mapping): Net {
    net.(main := AddRoute(net.main, m.domain, RouteOf(m)))
  }

  function NetTcp(cfg: Config, net: Net, m: Mapping): Net {
    PutTable(cfg, net, m.port, SetFallback(OpenedTable(cfg, net, m.port), RouteOf(m))).(svcPorts := net.svcPorts[m.id := [m.port]])
  }

  function NetTls(cfg: Config, net: Net, m: Mapping): Net {
    var put := PutTable(cfg, net, m.port, AddRoute(OpenedTable(cfg, net, m.port), m.domain, RouteOf(m)));
    if m.port != cfg.mainPort then put.(svcPorts := net.svcPorts[m.id := [m.port]]) else put
  }

  datatype Setup = Setup(st: State, ok: bool)

  function SetupHttp(cfg: Config, st: State, m: Mapping, o: Outcome): Setup {
    if !m.hasPath then Setup(st, true)
    else Setup(st.(net := NetHttp(st.net, m), holds := Acquire(cfg, st.holds, m, o)), o.authOk)
  }

  function SetupTcp(cfg: Config, st: State, m: Mapping, o: Outcome): Setup {
    if !PortUsable(cfg, st.net, m, o) then Setup(st, false)
    else Setup(st.(net := NetTcp(cfg, st.net, m), holds := Acquire(cfg, st.holds, m, o)), true)
  }

  function SetupTls(cfg: Config, st: State, m: Mapping, o: Outcome): Setup {
    if !PortUsable(cfg, st.net, m, o) then Setup(st, false)
    else Setup(st.(net := NetTls(cfg, st.net, m), holds := Acquire(cfg, st.holds, m, o)), true)
  }

  function SetupUdp(cfg: Config, st: State, m: Mapping, o: Outcome): Setup {
    if !RelayUsable(cfg, m) then Setup(st, false)
    else if !o.bindOk || !o.dialOk then Setup(st.(relays := st.relays - {m.id}), false)
    else Setup(st.(relays := st.relays[m.id := m.port], holds := Acquire(cfg, st.holds, m, o)), true)
  }

  function SetupRoutes(cfg: Config, st: State, m: Mapping, o: Outcome): Setup {
    match m.mode
    case Tcp => SetupTcp(cfg, st, m, o)
    case Udp => SetupUdp(cfg, st, m, o)
    case Tls => SetupTls(cfg, st, m, o)
    case Http => SetupHttp(cfg, st, m, o)
  }

  /** What a clean-up leaves of a router: the service's route is dropped or, for a mapping
      without domain, the fallback. */
  function Stripped(m: Mapping, t: Table): Table {
    if m.domain != "" then RemoveRoute(t, m.domain, m.id) else RemoveFallback(t)
  }

  /** One tracked port of a service being cleaned up; the router is closed when nothing is left. */
  function CloseEntry(cfg: Config, net: Net, m: Mapping, port: int): Net {
    var t := TableAt(cfg, net, port);
    if t.None? then net
    else if !IsMain(cfg, port) && IsEmpty(Stripped(m, t.value)) then net.(routers := net.routers - {port})
    else PutTable(cfg, net, port, Stripped(m, t.value))
  }

  function CloseEntries(cfg: Config, net: Net, m: Mapping, ports: seq<int>): Net
    decreases |ports|
  {
    if ports == [] then net else CloseEntries(cfg, CloseEntry(cfg, net, m, ports[0]), m, ports[1..])
  }

  function PortsOf(net: Net, svc: string): seq<int> {
    if svc in net.svcPorts then net.svcPorts[svc] else []
  }

  /** The part of a clean-up that precedes the tracked ports. */
  function Unlisted(net: Net, m: Mapping): Net {
    Net(if m.domain != "" then RemoveRoute(net.main, m.domain, m.id) else net.main, net.routers, net.svcPorts - {m.id})
  }

  function CleanNet(cfg: Config, net: Net, m: Mapping): Net {
    CloseEntries(cfg, Unlisted(net, m), m, PortsOf(net, m.id))
  }

  function Cleanup(cfg: Config, st: State, m: Mapping): State {
    State(CleanNet(cfg, st.net, m), st.stored, st.relays - {m.id}, Release(st.holds, m.id))
  }

  /** The mapping whose routes an update of `m` has to take down. */
  function Previous(st: State, m: Mapping): Mapping {
    if m.id in st.stored then st.stored[m.id] else m
  }

  function Finish(cfg: Config, s: Setup, m: Mapping): State {
    if s.ok then s.st.(stored := s.st.stored[m.id := m]) else Cleanup(cfg, s.st, m)
  }

  function Step(cfg: Config, st: State, u: Update): State {
    match u
    case Created(m, o) => if o.peerOk then Finish(cfg, SetupRoutes(cfg, st, m, o), m) else st
    case Modified(m, o) => Finish(cfg, SetupRoutes(cfg, Cleanup(cfg, st, Previous(st, m)), m, o), m)
    case Removed(m) => Cleanup(cfg, st.(stored := st.stored - {m.id}), Previous(st, m))
  }

  function Run(cfg: Config, st: State, us: seq<Update>): State
    decreases |us|
  {
    if us == [] then st else Run(cfg, Step(cfg, st, us[0]), us[1..])
  }
}
