/** The anonymous-mode check: when it passes, and what a pass guarantees. */
module AnonymousCheck {
  import opened Basics

  datatype Transport = TorRelayOnly | I2PDatagram | OtherTransport

  /** How an endpoint is reached. */
  datatype Kind = Tor | I2P | Clearnet | Unknown | Mixed

  /** Tells onion and I2P hosts from the rest. */
  type Resolver = string -> Option<Transport>

  /** `valid` is the outcome of the transport's own validation; `defaultUrl` whether the URL is the built-in one. */
  datatype Config = Config(anonymousMode: bool, transport: Transport, valid: bool, destination: string,
                           managementUrl: string, defaultUrl: bool)

  datatype Peer = Peer(localType: string, remoteType: string, localEndpoint: string, remoteEndpoint: string,
                       connected: bool, relayed: bool)

  datatype Full = Full(signalUrl: string, relays: seq<string>, kernel: bool, peers: seq<Peer>)
  datatype Status = Status(needsLogin: bool, full: Option<Full>)

  datatype Violation =
    | EmptyConfig | Disabled | NoDestination | InvalidTransport
    | BadManagement | OtherManagement | BadSignal | OtherSignal
    | StunPresent | BadRelay | OtherRelay | KernelInterface
    | IceType | LocalEndpoint | RemoteEndpoint | NotRelayed

  /** The flags that the report prints. */
  datatype Flags = Flags(signal: Kind, relay: Kind, stun: bool, ice: bool, direct: bool, fallback: bool, published: nat)

  datatype Report = Report(flags: Flags, violations: seq<Violation>)

  const MARKER := "i2p-datagram"

  // ----- Endpoints -----

  function Classify(net: Resolver, endpoint: string): Kind {
    if Trim(endpoint) == "" then Unknown else
      match net(Trim(endpoint))
      case Some(TorRelayOnly) => Tor
      case Some(I2PDatagram) => I2P
      case _ => Clearnet
  }

  /** The kind that a transport's endpoints must have; none for an unknown transport. */
  function Expected(t: Transport): Option<Kind> {
    match t
    case TorRelayOnly => Some(Tor)
    case I2PDatagram => Some(I2P)
    case OtherTransport => None
  }

  /** An endpoint that goes with the transport. */
  predicate Fits(t: Transport, k: Kind) {
    (k == Tor || k == I2P) && (Expected(t).Some? ==> k == Expected(t).value)
  }

  function KindsOf(net: Resolver, relays: seq<string>): set<Kind> {
    set uri | uri in relays && uri != "" :: Classify(net, uri)
  }

  /** The kind shown for all relays together. */
  predicate Shown(kinds: set<Kind>, k: Kind) {
    if kinds == {} then k == Unknown else if exists x :: kinds == {x} then kinds == {k} else k == Mixed
  }

  method ClassifyRelays(net: Resolver, relays: seq<string>) returns (k: Kind)
    ensures Shown(KindsOf(net, relays), k)
  {
    var seen: set<Kind> := {};
    for i := 0 to |relays|
      invariant seen == KindsOf(net, relays[..i])
    {
      assert relays[..i + 1] == relays[..i] + [relays[i]];
      if relays[i] == "" { continue; }
      seen := seen + {Classify(net, relays[i])};
    }
    assert relays[..|relays|] == relays;
    if seen == {} { return Unknown; }
    if |seen| > 1 {
      assert forall x :: seen == {x} ==> |seen| == 1;
      return Mixed;
    }
    k :| k in seen;
    Singleton(seen, k);
  }

  lemma Singleton<T>(s: set<T>, x: T)
    requires x in s && |s| <= 1
    ensures s == {x}
  {
    assert |s - {x}| == |s| - 1;
  }

  // ----- Peers -----

  /** An I2P datagram status value. */
  predicate IsMarker(value: string) {
    Trim(value) == MARKER || MARKER + ":" <= Trim(value)
  }

  function Fields(p: Peer): seq<string> {
    [p.localType, p.remoteType, p.localEndpoint, p.remoteEndpoint]
  }

  /** All fields that say something are I2P markers, and there is one. */
  predicate UsesDatagram(p: Peer, t: Transport) {
    && t == I2PDatagram
    && (forall v :: v in Fields(p) ==> Trim(v) == "" || IsMarker(v))
    && exists v :: v in Fields(p) && Trim(v) != ""
  }

  lemma TrimTwice(s: string)
    ensures Trim(Trim(s)) == Trim(s)
  {
  }

  method PeerUsesDatagram(p: Peer, t: Transport) returns (b: bool)
    ensures b <==> UsesDatagram(p, t)
  {
    if t != I2PDatagram { return false; }
    var values := Fields(p);
    b := false;
    for i := 0 to 4
      invariant forall j :: 0 <= j < i ==> Trim(values[j]) == "" || IsMarker(values[j])
      invariant b <==> exists j :: 0 <= j < i && Trim(values[j]) != ""
    {
      var value := Trim(values[i]);
      TrimTwice(values[i]);
      if value == "" { continue; }
      if !IsMarker(value) {
        assert values[i] in Fields(p);
        return false;
      }
      b := true;
    }
    assert forall v :: v in Fields(p) <==> exists j :: 0 <= j < 4 && values[j] == v;
  }

  predicate HasType(p: Peer) {
    p.localType != "" || p.remoteType != ""
  }

  /** What one peer adds to the report. */
  datatype Finding = Finding(ice: bool, direct: bool, published: nat, violations: seq<Violation>)

  function Add(a: Finding, b: Finding): Finding {
    Finding(a.ice || b.ice, a.direct || b.direct, a.published + b.published, a.violations + b.violations)
  }

  const NOTHING := Finding(false, false, 0, [])

  function Connection(p: Peer, datagram: bool): Finding {
    if p.connected && !p.relayed && !datagram then Finding(false, true, 0, [NotRelayed]) else NOTHING
  }

  function Remote(p: Peer, datagram: bool): Finding {
    if p.remoteEndpoint == "" then Connection(p, datagram)
    else if datagram && IsMarker(p.remoteEndpoint) then NOTHING
    else Add(Finding(true, true, 1, [RemoteEndpoint]), Connection(p, datagram))
  }

  function Local(p: Peer, datagram: bool): Finding {
    if p.localEndpoint == "" then Remote(p, datagram)
    else if datagram && IsMarker(p.localEndpoint) then NOTHING
    else Add(Finding(true, true, 1, [LocalEndpoint]), Remote(p, datagram))
  }

  function Scan(p: Peer, t: Transport): Finding {
    var datagram := UsesDatagram(p, t);
    if HasType(p) && datagram then NOTHING
    else if HasType(p) then Add(Finding(true, false, 0, [IceType]), Local(p, datagram))
    else Local(p, datagram)
  }

  function ScanAll(peers: seq<Peer>, t: Transport): Finding {
    if peers == [] then NOTHING else Add(ScanAll(peers[..|peers| - 1], t), Scan(peers[|peers| - 1], t))
  }

  lemma AddAssoc(a: Finding, b: Finding, c: Finding)
    ensures Add(Add(a, b), c) == Add(a, Add(b, c))
  {
    assert a.violations + b.violations + c.violations == a.violations + (b.violations + c.violations);
  }

  lemma AddNothing(a: Finding)
    ensures Add(a, NOTHING) == a
  {
    assert a.violations + [] == a.violations;
  }

  method ScanConnection(p: Peer, datagram: bool, was: Finding) returns (f: Finding)
    ensures f == Add(was, Connection(p, datagram))
  {
    AddNothing(was);
    if !p.connected || p.relayed || datagram { return was; }
    f := Add(was, Finding(false, true, 0, [NotRelayed]));
  }

  method ScanEndpoints(p: Peer, datagram: bool, was: Finding) returns (f: Finding)
    ensures f == Add(was, Local(p, datagram))
  {
    f := was;
    AddNothing(was);
    var local, remote := Finding(true, true, 1, [LocalEndpoint]), Finding(true, true, 1, [RemoteEndpoint]);
    AddAssoc(was, local, Remote(p, datagram));
    if p.localEndpoint != "" {
      if datagram && IsMarker(p.localEndpoint) { return; }
      f := Add(f, local);
    }
    ghost var mid := f;
    AddNothing(mid);
    AddAssoc(mid, remote, Connection(p, datagram));
    if p.remoteEndpoint != "" {
      if datagram && IsMarker(p.remoteEndpoint) { return; }
      f := Add(f, remote);
    }
    f := ScanConnection(p, datagram, f);
  }

  method ScanPeer(p: Peer, t: Transport, was: Finding) returns (f: Finding)
    ensures f == Add(was, Scan(p, t))
  {
    f := was;
    var datagram := PeerUsesDatagram(p, t);
    var ice := Finding(true, false, 0, [IceType]);
    AddNothing(was);
    AddAssoc(was, ice, Local(p, datagram));
    if HasType(p) {
      if datagram { return; }
      f := Add(f, ice);
    }
    f := ScanEndpoints(p, datagram, f);
  }

  method ScanPeers(peers: seq<Peer>, t: Transport) returns (f: Finding)
    ensures f == ScanAll(peers, t)
  {
    f := NOTHING;
    for i := 0 to |peers|
      invariant f == ScanAll(peers[..i], t)
    {
      assert peers[..i + 1][..i] == peers[..i];
      f := ScanPeer(peers[i], t, f);
    }
    assert peers[..|peers|] == peers;
  }

  // ----- Relays -----

  predicate IsStun(uri: string) {
    "stun:" <= Lower(uri) || "stuns:" <= Lower(uri)
  }

  function RelayViolations(net: Resolver, t: Transport, uri: string): seq<Violation> {
    (if IsStun(uri) then [StunPresent] else []) +
    if uri != "" && Classify(net, uri) == Clearnet then [BadRelay]
    else if Expected(t).Some? && Classify(net, uri) in {Tor, I2P} && Classify(net, uri) != Expected(t).value then [OtherRelay]
    else []
  }

  function AllRelayViolations(net: Resolver, t: Transport, relays: seq<string>): seq<Violation> {
    if relays == [] then [] else
      AllRelayViolations(net, t, relays[..|relays| - 1]) + RelayViolations(net, t, relays[|relays| - 1])
  }

  method ScanRelay(net: Resolver, t: Transport, uri: string) returns (stun: bool, vs: seq<Violation>)
    ensures stun <==> IsStun(uri)
    ensures vs == RelayViolations(net, t, uri)
  {
    stun, vs := IsStun(uri), [];
    if stun { vs := [StunPresent]; }
    var k := Classify(net, uri);
    if uri != "" && k == Clearnet {
      vs := vs + [BadRelay];
    } else if Expected(t).Some? && (k == Tor || k == I2P) && k != Expected(t).value {
      vs := vs + [OtherRelay];
    }
  }

  method ScanRelays(net: Resolver, t: Transport, relays: seq<string>) returns (stun: bool, vs: seq<Violation>)
    ensures stun <==> AnyStun(relays)
    ensures vs == AllRelayViolations(net, t, relays)
  {
    stun, vs := false, [];
    for i := 0 to |relays|
      invariant stun <==> AnyStun(relays[..i])
      invariant vs == AllRelayViolations(net, t, relays[..i])
    {
      assert relays[..i + 1][..i] == relays[..i];
      assert forall uri :: uri in relays[..i + 1] <==> uri in relays[..i] || uri == relays[i];
      var s, more := ScanRelay(net, t, relays[i]);
      stun, vs := stun || s, vs + more;
    }
    assert relays[..|relays|] == relays;
  }

  predicate AnyStun(relays: seq<string>) {
    exists uri :: uri in relays && IsStun(uri)
  }

  // ----- The report -----

  predicate PreEnrollment(c: Config, s: Option<Status>) {
    && s.Some? && !c.anonymousMode && s.value.needsLogin && c.defaultUrl
    && (s.value.full.Some? ==>
          s.value.full.value.signalUrl == "" && s.value.full.value.relays == [] && s.value.full.value.peers == [])
  }

  function ConfigViolations(net: Resolver, c: Config, s: Option<Status>): seq<Violation> {
    When(!c.anonymousMode && !PreEnrollment(c, s), Disabled) +
    When(c.transport == I2PDatagram && c.destination == "", NoDestination) +
    When(!c.valid, InvalidTransport) +
    ManagementViolations(PreEnrollment(c, s), c.transport, Classify(net, c.managementUrl))
  }

  function When(b: bool, v: Violation): seq<Violation> {
    if b then [v] else []
  }

  function ManagementViolations(pre: bool, t: Transport, k: Kind): seq<Violation> {
    if pre && k == Clearnet then []
    else if k != Tor && k != I2P then [BadManagement]
    else if !Fits(t, k) then [OtherManagement]
    else []
  }

  function SignalKind(net: Resolver, url: string): Kind {
    if url == "" then Unknown else Classify(net, url)
  }

  function SignalViolations(net: Resolver, t: Transport, url: string): seq<Violation> {
    var k := Classify(net, url);
    if url == "" then [] else if k != Tor && k != I2P then [BadSignal] else if !Fits(t, k) then [OtherSignal] else []
  }

  const QUIET := Flags(Unknown, Unknown, false, false, false, false, 0)

  function FullOf(s: Option<Status>): Option<Full> {
    if s.Some? then s.value.full else None
  }

  /** Everything the live status adds, in order. */
  function StatusViolations(net: Resolver, t: Transport, f: Full): seq<Violation> {
    SignalViolations(net, t, f.signalUrl) + AllRelayViolations(net, t, f.relays) +
    (if f.kernel then [KernelInterface] else []) + ScanAll(f.peers, t).violations
  }

  method BuildReport(net: Resolver, c: Config, s: Option<Status>) returns (r: Report)
    ensures r.violations ==
            ConfigViolations(net, c, s) + if FullOf(s).None? then [] else StatusViolations(net, c.transport, FullOf(s).value)
    ensures FullOf(s).None? ==> r.flags.(fallback := false) == QUIET
    ensures FullOf(s).Some? ==>
            var f, scan := FullOf(s).value, ScanAll(FullOf(s).value.peers, c.transport);
            && r.flags.signal == SignalKind(net, f.signalUrl) && Shown(KindsOf(net, f.relays), r.flags.relay)
            && (r.flags.stun <==> AnyStun(f.relays)) && r.flags.ice == scan.ice
            && (r.flags.direct <==> f.kernel || scan.direct) && r.flags.published == scan.published
    ensures r.flags.fallback <==>
            || (!PreEnrollment(c, s) && Classify(net, c.managementUrl) == Clearnet)
            || r.flags.signal == Clearnet || r.flags.relay == Clearnet || r.flags.direct
  {
    var vs := CheckConfig(net, c, s);
    var flags := QUIET;
    var full := FullOf(s);
    if full.Some? {
      var f := full.value;
      var relay := ClassifyRelays(net, f.relays);
      var stun, relayVs := ScanRelays(net, c.transport, f.relays);
      var scan := ScanPeers(f.peers, c.transport);
      flags := Flags(SignalKind(net, f.signalUrl), relay, stun, scan.ice, f.kernel || scan.direct, false, scan.published);
      vs := vs + (SignalViolations(net, c.transport, f.signalUrl) + relayVs +
                  (if f.kernel then [KernelInterface] else []) + scan.violations);
    } else {
      vs := vs + [];
    }
    var clear := !PreEnrollment(c, s) && Classify(net, c.managementUrl) == Clearnet;
    if clear || flags.signal == Clearnet || flags.relay == Clearnet || flags.direct {
      flags := flags.(fallback := true);
    }
    r := Report(flags, vs);
  }

  method CheckConfig(net: Resolver, c: Config, s: Option<Status>) returns (vs: seq<Violation>)
    ensures vs == ConfigViolations(net, c, s)
  {
    vs := [];
    var pre := PreEnrollment(c, s);
    if !c.anonymousMode && !pre { vs := vs + [Disabled]; }
    if c.transport == I2PDatagram && c.destination == "" { vs := vs + [NoDestination]; }
    if !c.valid { vs := vs + [InvalidTransport]; }
    assert vs == When(!c.anonymousMode && !pre, Disabled) +
                 When(c.transport == I2PDatagram && c.destination == "", NoDestination) + When(!c.valid, InvalidTransport);
    var more := CheckManagement(pre, c.transport, Classify(net, c.managementUrl));
    vs := vs + more;
  }

  method CheckManagement(pre: bool, t: Transport, k: Kind) returns (vs: seq<Violation>)
    ensures vs == ManagementViolations(pre, t, k)
  {
    if pre && k == Clearnet { return []; }
    if k != Tor && k != I2P { return [BadManagement]; }
    if Expected(t).Some? && k != Expected(t).value { return [OtherManagement]; }
    vs := [];
  }

  // ----- What the check looks for, in terms of the configuration, the status and the resolver alone -----

  /** The value says that the peer is reached by I2P datagrams. */
  predicate Marker(v: string) {
    var w := Trim(v);
    w == "i2p-datagram" || (|w| > 12 && w[..13] == "i2p-datagram:")
  }

  /** Under I2P, whatever the peer's status shows is a marker, and it shows something. */
  predicate Marked(p: Peer, t: Transport) {
    && t == I2PDatagram
    && (Trim(p.localType) == "" || Marker(p.localType)) && (Trim(p.remoteType) == "" || Marker(p.remoteType))
    && (Trim(p.localEndpoint) == "" || Marker(p.localEndpoint))
    && (Trim(p.remoteEndpoint) == "" || Marker(p.remoteEndpoint))
    && (Marker(p.localType) || Marker(p.remoteType) || Marker(p.localEndpoint) || Marker(p.remoteEndpoint))
  }

  /** The peer shows a candidate type that is no marker. */
  predicate ShowsType(p: Peer, t: Transport) {
    (p.localType != "" || p.remoteType != "") && !Marked(p, t)
  }

  /** A marked peer is done with at its types, or at its first endpoint that is a marker. */
  predicate PublishesLocal(p: Peer, t: Transport) {
    p.localEndpoint != "" && !(Marked(p, t) && (p.localType != "" || p.remoteType != "" || Marker(p.localEndpoint)))
  }

  predicate PublishesRemote(p: Peer, t: Transport) {
    && p.remoteEndpoint != ""
    && !(&& Marked(p, t)
         && (p.localType != "" || p.remoteType != "" || Marker(p.localEndpoint) || Marker(p.remoteEndpoint)))
  }

  predicate Direct(p: Peer, t: Transport) {
    p.connected && !p.relayed && !Marked(p, t)
  }

  /** The endpoint lies in an anonymous network, and in that of the transport if the transport names one. */
  predicate Anonymous(net: Resolver, t: Transport, url: string) {
    && Trim(url) != "" && net(Trim(url)) in {Some(TorRelayOnly), Some(I2PDatagram)}
    && (t == OtherTransport || net(Trim(url)) == Some(t))
  }

  /** The endpoint lies in no anonymous network. */
  predicate Clear(net: Resolver, url: string) {
    Trim(url) != "" && net(Trim(url)) !in {Some(TorRelayOnly), Some(I2PDatagram)}
  }

  /** Not enrolled yet: the built-in management server, nothing connected. */
  predicate Enrolling(c: Config, s: Option<Status>) {
    && !c.anonymousMode && c.defaultUrl
    && match s
       case Some(Status(true, None)) => true
       case Some(Status(true, Some(f))) => f.signalUrl == "" && f.relays == [] && f.peers == []
       case _ => false
  }

  predicate Stun(uri: string) {
    Lower(uri)[..Smaller(5, |uri|)] == "stun:" || Lower(uri)[..Smaller(6, |uri|)] == "stuns:"
  }

  function Smaller(a: nat, b: nat): nat {
    if a < b then a else b
  }

  lemma MarkerIff(v: string)
    ensures IsMarker(v) <==> Marker(v)
  {
    var w := Trim(v);
    assert MARKER + ":" == "i2p-datagram:";
    if MARKER + ":" <= w { assert w[..13] == MARKER + ":"; }
  }

  lemma MarkedIff(p: Peer, t: Transport)
    ensures UsesDatagram(p, t) <==> Marked(p, t)
  {
    forall v | v in Fields(p) ensures IsMarker(v) <==> Marker(v) { MarkerIff(v); }
    assert p.localType in Fields(p) && p.remoteType in Fields(p);
    assert p.localEndpoint in Fields(p) && p.remoteEndpoint in Fields(p);
    if Marked(p, t) {
      var v := if Marker(p.localType) then p.localType else if Marker(p.remoteType) then p.remoteType
               else if Marker(p.localEndpoint) then p.localEndpoint else p.remoteEndpoint;
      assert v in Fields(p) && Trim(v) != "";
    }
  }

  lemma EnrollingIff(c: Config, s: Option<Status>)
    ensures PreEnrollment(c, s) <==> Enrolling(c, s)
  {
  }

  lemma StunIff(uri: string)
    ensures IsStun(uri) <==> Stun(uri)
  {
    var l := Lower(uri);
    if "stun:" <= l { assert l[..5] == "stun:"; }
    if "stuns:" <= l { assert l[..6] == "stuns:"; }
    if Stun(uri) && |l| >= 5 && l[..5] == "stun:" { assert "stun:" <= l; }
    if Stun(uri) && |l| >= 6 && l[..6] == "stuns:" { assert "stuns:" <= l; }
  }

  lemma KindIff(net: Resolver, t: Transport, url: string)
    ensures Fits(t, Classify(net, url)) <==> Anonymous(net, t, url)
    ensures Classify(net, url) == Clearnet <==> Clear(net, url)
    ensures Classify(net, url) == Tor <==> Trim(url) != "" && net(Trim(url)) == Some(TorRelayOnly)
    ensures Classify(net, url) == I2P <==> Trim(url) != "" && net(Trim(url)) == Some(I2PDatagram)
    ensures Classify(net, url) == Unknown <==> Trim(url) == ""
  {
  }

  /** The findings about one peer, in order. */
  function Findings(ice: bool, here: bool, there: bool, direct: bool): Finding {
    Finding(ice || here || there, here || there || direct, (if here then 1 else 0) + (if there then 1 else 0),
            When(ice, IceType) + When(here, LocalEndpoint) + When(there, RemoteEndpoint) + When(direct, NotRelayed))
  }

  lemma RemoteIs(p: Peer, datagram: bool)
    ensures Remote(p, datagram) ==
            Findings(false, false, p.remoteEndpoint != "" && !(datagram && Marker(p.remoteEndpoint)),
                     p.connected && !p.relayed && !datagram)
  {
    MarkerIff(p.remoteEndpoint);
  }

  lemma LocalIs(p: Peer, datagram: bool)
    ensures Local(p, datagram) ==
            Findings(false, p.localEndpoint != "" && !(datagram && Marker(p.localEndpoint)),
                     p.remoteEndpoint != "" && !(datagram && (Marker(p.localEndpoint) || Marker(p.remoteEndpoint))),
                     p.connected && !p.relayed && !datagram)
  {
    MarkerIff(p.localEndpoint);
    RemoteIs(p, datagram);
    assert Trim("") == "" && !Marker("");
  }

  lemma IceFirst(here: bool, there: bool, direct: bool)
    ensures Add(Finding(true, false, 0, [IceType]), Findings(false, here, there, direct)) == Findings(true, here, there, direct)
    ensures Findings(false, false, false, false) == NOTHING
  {
  }

  lemma ScanWith(p: Peer, t: Transport, datagram: bool)
    requires datagram == UsesDatagram(p, t)
    ensures var typed := p.localType != "" || p.remoteType != "";
            Scan(p, t) ==
            Findings(typed && !datagram, p.localEndpoint != "" && !(datagram && (typed || Marker(p.localEndpoint))),
                     p.remoteEndpoint != "" && !(datagram && (typed || Marker(p.localEndpoint) || Marker(p.remoteEndpoint))),
                     p.connected && !p.relayed && !datagram)
  {
    LocalIs(p, datagram);
    IceFirst(p.localEndpoint != "", p.remoteEndpoint != "", p.connected && !p.relayed);
  }

  /** Everything the peer loop does for one peer. */
  lemma ScanIs(p: Peer, t: Transport)
    ensures Scan(p, t) == Findings(ShowsType(p, t), PublishesLocal(p, t), PublishesRemote(p, t), Direct(p, t))
  {
    MarkedIff(p, t);
    ScanWith(p, t, Marked(p, t));
  }

  /** How many endpoints the peers publish. */
  function Published(peers: seq<Peer>, t: Transport): nat {
    if peers == [] then 0 else
      var p := peers[|peers| - 1];
      Published(peers[..|peers| - 1], t) +
      (if PublishesLocal(p, t) then 1 else 0) + (if PublishesRemote(p, t) then 1 else 0)
  }

  /** Why a peer causes a violation. */
  predicate PeerReason(p: Peer, t: Transport, v: Violation) {
    match v
    case IceType => ShowsType(p, t)
    case LocalEndpoint => PublishesLocal(p, t)
    case RemoteEndpoint => PublishesRemote(p, t)
    case NotRelayed => Direct(p, t)
    case _ => false
  }

  lemma ScanReason(p: Peer, t: Transport, v: Violation)
    ensures v in Scan(p, t).violations <==> PeerReason(p, t, v)
  {
    ScanIs(p, t);
    FindingsReason(ShowsType(p, t), PublishesLocal(p, t), PublishesRemote(p, t), Direct(p, t), v);
  }

  lemma FindingsReason(ice: bool, here: bool, there: bool, direct: bool, v: Violation)
    ensures v in Findings(ice, here, there, direct).violations <==>
            || (v == IceType && ice) || (v == LocalEndpoint && here)
            || (v == RemoteEndpoint && there) || (v == NotRelayed && direct)
  {
    InFour(When(ice, IceType), When(here, LocalEndpoint), When(there, RemoteEndpoint), When(direct, NotRelayed), v);
  }

  lemma {:induction false} ScanAllReason(peers: seq<Peer>, t: Transport, v: Violation)
    ensures v in ScanAll(peers, t).violations <==> exists p :: p in peers && PeerReason(p, t, v)
    decreases |peers|
  {
    if peers != [] {
      var n := |peers| - 1;
      ScanAllReason(peers[..n], t, v);
      ScanReason(peers[n], t, v);
      LastPeer(peers, t, v);
      assert ScanAll(peers, t).violations == ScanAll(peers[..n], t).violations + Scan(peers[n], t).violations;
    }
  }

  lemma LastPeer(peers: seq<Peer>, t: Transport, v: Violation)
    requires peers != []
    ensures var n := |peers| - 1;
            (exists p :: p in peers && PeerReason(p, t, v)) <==>
            (exists p :: p in peers[..n] && PeerReason(p, t, v)) || PeerReason(peers[n], t, v)
  {
    var n := |peers| - 1;
    if PeerReason(peers[n], t, v) { assert peers[n] in peers; }
    if p :| p in peers[..n] && PeerReason(p, t, v) { assert p in peers; }
    if p :| p in peers && p != peers[n] && PeerReason(p, t, v) { assert p in peers[..n]; }
  }

  /** The peer makes the report say that ICE is in use. */
  predicate ShowsIce(p: Peer, t: Transport) {
    ShowsType(p, t) || PublishesLocal(p, t) || PublishesRemote(p, t)
  }

  /** The peer makes the report say that UDP is used directly. */
  predicate ShowsDirect(p: Peer, t: Transport) {
    PublishesLocal(p, t) || PublishesRemote(p, t) || Direct(p, t)
  }

  lemma ScanFlags(p: Peer, t: Transport)
    ensures Scan(p, t).ice <==> ShowsIce(p, t)
    ensures Scan(p, t).direct <==> ShowsDirect(p, t)
    ensures Scan(p, t).published == (if PublishesLocal(p, t) then 1 else 0) + (if PublishesRemote(p, t) then 1 else 0)
  {
    ScanIs(p, t);
  }

  function IceUnder(t: Transport): Peer -> bool {
    (p: Peer) => ShowsIce(p, t)
  }

  function DirectUnder(t: Transport): Peer -> bool {
    (p: Peer) => ShowsDirect(p, t)
  }

  lemma {:induction false} ScanAllIce(peers: seq<Peer>, t: Transport)
    ensures ScanAll(peers, t).ice <==> Any(peers, IceUnder(t))
    decreases |peers|
  {
    if peers != [] {
      ScanAllIce(peers[..|peers| - 1], t);
      ScanFlags(peers[|peers| - 1], t);
      AnyLast(peers, IceUnder(t));
    }
  }

  lemma {:induction false} ScanAllDirect(peers: seq<Peer>, t: Transport)
    ensures ScanAll(peers, t).direct <==> Any(peers, DirectUnder(t))
    decreases |peers|
  {
    if peers != [] {
      ScanAllDirect(peers[..|peers| - 1], t);
      ScanFlags(peers[|peers| - 1], t);
      AnyLast(peers, DirectUnder(t));
    }
  }

  lemma {:induction false} ScanAllPublished(peers: seq<Peer>, t: Transport)
    ensures ScanAll(peers, t).published == Published(peers, t)
    decreases |peers|
  {
    if peers != [] {
      ScanAllPublished(peers[..|peers| - 1], t);
      ScanFlags(peers[|peers| - 1], t);
    }
  }

  /** Why a relay causes a violation. */
  predicate RelayReason(net: Resolver, t: Transport, uri: string, v: Violation) {
    match v
    case StunPresent => Stun(uri)
    case BadRelay => Clear(net, uri)
    case OtherRelay => Trim(uri) != "" && !Clear(net, uri) && !Anonymous(net, t, uri)
    case _ => false
  }

  lemma {:induction false} AllRelaysReason(net: Resolver, t: Transport, relays: seq<string>, v: Violation)
    ensures v in AllRelayViolations(net, t, relays) <==> exists uri :: uri in relays && RelayReason(net, t, uri, v)
    decreases |relays|
  {
    if relays != [] {
      var n := |relays| - 1;
      AllRelaysReason(net, t, relays[..n], v);
      OneRelayReason(net, t, relays[n], v);
      LastRelay(net, t, relays, v);
      assert v in AllRelayViolations(net, t, relays) <==>
             v in AllRelayViolations(net, t, relays[..n]) || v in RelayViolations(net, t, relays[n]);
    }
  }

  lemma OneRelayReason(net: Resolver, t: Transport, uri: string, v: Violation)
    ensures v in RelayViolations(net, t, uri) <==> RelayReason(net, t, uri, v)
  {
    OneRelayIs(net, t, uri);
  }

  lemma LastRelay(net: Resolver, t: Transport, relays: seq<string>, v: Violation)
    requires relays != []
    ensures var n := |relays| - 1;
            (exists uri :: uri in relays && RelayReason(net, t, uri, v)) <==>
            (exists uri :: uri in relays[..n] && RelayReason(net, t, uri, v)) || RelayReason(net, t, relays[n], v)
  {
    var n := |relays| - 1;
    if RelayReason(net, t, relays[n], v) { assert relays[n] in relays; }
    if uri :| uri in relays[..n] && RelayReason(net, t, uri, v) { assert uri in relays; }
    if uri :| uri in relays && uri != relays[n] && RelayReason(net, t, uri, v) { assert uri in relays[..n]; }
  }

  lemma OneRelayIs(net: Resolver, t: Transport, uri: string)
    ensures RelayViolations(net, t, uri) ==
            When(Stun(uri), StunPresent) + When(Clear(net, uri), BadRelay) +
            When(Trim(uri) != "" && !Clear(net, uri) && !Anonymous(net, t, uri), OtherRelay)
  {
    StunIff(uri);
    KindIff(net, t, uri);
    assert Trim("") == "";
  }

  // ----- What a pass means -----

  /** A peer that the check lets through. */
  predicate PeerClean(p: Peer, t: Transport) {
    !ShowsType(p, t) && !PublishesLocal(p, t) && !PublishesRemote(p, t) && !Direct(p, t)
  }

  lemma ScanClean(p: Peer, t: Transport)
    ensures Scan(p, t).violations == [] <==> PeerClean(p, t)
    ensures PeerClean(p, t) ==> Scan(p, t) == NOTHING
  {
    ScanIs(p, t);
  }

  predicate PeersClean(peers: seq<Peer>, t: Transport) {
    peers == [] || (PeersClean(peers[..|peers| - 1], t) && PeerClean(peers[|peers| - 1], t))
  }

  lemma {:induction false} PeersCleanEach(peers: seq<Peer>, t: Transport, p: Peer)
    requires PeersClean(peers, t) && p in peers
    ensures PeerClean(p, t)
    decreases |peers|
  {
    var n := |peers| - 1;
    if p != peers[n] {
      assert p in peers[..n];
      PeersCleanEach(peers[..n], t, p);
    }
  }

  lemma AddClean(a: Finding, b: Finding)
    ensures Add(a, b).violations == [] <==> a.violations == [] && b.violations == []
    ensures a == NOTHING && b == NOTHING ==> Add(a, b) == NOTHING
  {
    AddNothing(a);
  }

  lemma {:induction false} ScanAllClean(peers: seq<Peer>, t: Transport)
    ensures ScanAll(peers, t).violations == [] <==> PeersClean(peers, t)
    ensures PeersClean(peers, t) ==> ScanAll(peers, t) == NOTHING
    decreases |peers|
  {
    if peers != [] {
      var n := |peers| - 1;
      var a, b := ScanAll(peers[..n], t), Scan(peers[n], t);
      assert ScanAll(peers, t) == Add(a, b);
      assert PeersClean(peers, t) <==> PeersClean(peers[..n], t) && PeerClean(peers[n], t);
      ScanAllClean(peers[..n], t);
      ScanClean(peers[n], t);
      AddClean(a, b);
    }
  }

  predicate RelayClean(net: Resolver, t: Transport, uri: string) {
    !Stun(uri) && (Trim(uri) == "" || Anonymous(net, t, uri))
  }

  lemma {:induction false} RelaysClean(net: Resolver, t: Transport, relays: seq<string>)
    ensures AllRelayViolations(net, t, relays) == [] <==> forall uri :: uri in relays ==> RelayClean(net, t, uri)
    decreases |relays|
  {
    if relays != [] {
      var n := |relays| - 1;
      RelaysClean(net, t, relays[..n]);
      RelayCleanIff(net, t, relays[n]);
      assert forall uri :: uri in relays <==> uri in relays[..n] || uri == relays[n];
    }
  }

  lemma RelayCleanIff(net: Resolver, t: Transport, uri: string)
    ensures RelayViolations(net, t, uri) == [] <==> RelayClean(net, t, uri)
  {
    OneRelayIs(net, t, uri);
  }

  predicate ConfigClean(net: Resolver, c: Config, s: Option<Status>) {
    && (c.anonymousMode || Enrolling(c, s))
    && (c.transport == I2PDatagram ==> c.destination != "")
    && c.valid
    && (Anonymous(net, c.transport, c.managementUrl) || (Enrolling(c, s) && Clear(net, c.managementUrl)))
  }

  predicate StatusClean(net: Resolver, t: Transport, f: Full) {
    && (f.signalUrl == "" || Anonymous(net, t, f.signalUrl))
    && (forall uri :: uri in f.relays ==> RelayClean(net, t, uri))
    && !f.kernel
    && PeersClean(f.peers, t)
  }

  lemma ConfigCleanIff(net: Resolver, c: Config, s: Option<Status>)
    ensures ConfigViolations(net, c, s) == [] <==> ConfigClean(net, c, s)
  {
    EnrollingIff(c, s);
    KindIff(net, c.transport, c.managementUrl);
  }

  lemma StatusCleanIff(net: Resolver, t: Transport, f: Full)
    ensures StatusViolations(net, t, f) == [] <==> StatusClean(net, t, f)
  {
    KindIff(net, t, f.signalUrl);
    RelaysClean(net, t, f.relays);
    ScanAllClean(f.peers, t);
  }

  // ----- The report, line by line -----

  predicate IsKind(net: Resolver, url: string, k: Kind) {
    match k
    case Tor => Trim(url) != "" && net(Trim(url)) == Some(TorRelayOnly)
    case I2P => Trim(url) != "" && net(Trim(url)) == Some(I2PDatagram)
    case Clearnet => Clear(net, url)
    case Unknown => Trim(url) == ""
    case Mixed => false
  }

  /** Why the configuration causes a violation. */
  predicate ConfigReason(net: Resolver, c: Config, s: Option<Status>, v: Violation) {
    match v
    case Disabled => !c.anonymousMode && !Enrolling(c, s)
    case NoDestination => c.transport == I2PDatagram && c.destination == ""
    case InvalidTransport => !c.valid
    case BadManagement => Trim(c.managementUrl) == "" || (Clear(net, c.managementUrl) && !Enrolling(c, s))
    case OtherManagement =>
      Trim(c.managementUrl) != "" && !Clear(net, c.managementUrl) && !Anonymous(net, c.transport, c.managementUrl)
    case _ => false
  }

  /** Why the live status causes a violation. */
  ghost predicate StatusReason(net: Resolver, t: Transport, f: Full, v: Violation) {
    || SignalReason(net, t, f.signalUrl, v)
    || (v == KernelInterface && f.kernel)
    || (exists uri :: uri in f.relays && RelayReason(net, t, uri, v))
    || (exists p :: p in f.peers && PeerReason(p, t, v))
  }

  /** All relays that are listed at all are of one kind. */
  ghost predicate AllOfKind(net: Resolver, relays: seq<string>, k: Kind) {
    forall uri :: uri in relays && uri != "" ==> IsKind(net, uri, k)
  }

  ghost predicate StatusFlags(net: Resolver, t: Transport, f: Full, flags: Flags) {
    && (if f.signalUrl == "" then flags.signal == Unknown else IsKind(net, f.signalUrl, flags.signal))
    && (if forall uri :: uri in f.relays ==> uri == "" then flags.relay == Unknown
        else flags.relay != Mixed <==> exists k :: AllOfKind(net, f.relays, k))
    && (flags.relay != Mixed ==> AllOfKind(net, f.relays, flags.relay))
    && (flags.stun <==> exists uri :: uri in f.relays && Stun(uri))
    && (flags.ice <==> Any(f.peers, IceUnder(t)))
    && (flags.direct <==> f.kernel || Any(f.peers, DirectUnder(t)))
    && flags.published == Published(f.peers, t)
  }

  lemma KindOfClassify(net: Resolver, url: string, k: Kind)
    ensures IsKind(net, url, k) <==> Classify(net, url) == k
  {
    KindIff(net, OtherTransport, url);
  }

  lemma RelayFlag(net: Resolver, relays: seq<string>, k: Kind)
    requires Shown(KindsOf(net, relays), k)
    ensures (forall uri :: uri in relays ==> uri == "") ==> k == Unknown
    ensures (exists uri :: uri in relays && uri != "") ==> (k != Mixed <==> exists x :: AllOfKind(net, relays, x))
    ensures k != Mixed ==> AllOfKind(net, relays, k)
  {
    var kinds := KindsOf(net, relays);
    forall uri, x ensures IsKind(net, uri, x) <==> Classify(net, uri) == x { KindOfClassify(net, uri, x); }
    assert forall uri :: uri in relays && uri != "" ==> Classify(net, uri) in kinds;
    if x :| kinds == {x} { assert AllOfKind(net, relays, x); }
    if uri :| uri in relays && uri != "" {
      if x :| AllOfKind(net, relays, x) {
        assert Classify(net, uri) == x;
        assert kinds == {x};
      }
    }
  }

  lemma ConfigReasonIff(net: Resolver, c: Config, s: Option<Status>, v: Violation)
    ensures v in ConfigViolations(net, c, s) <==> ConfigReason(net, c, s, v)
  {
    EnrollingIff(c, s);
    ManagementReason(net, c, s, v);
    InFour(When(!c.anonymousMode && !PreEnrollment(c, s), Disabled),
           When(c.transport == I2PDatagram && c.destination == "", NoDestination), When(!c.valid, InvalidTransport),
           ManagementViolations(PreEnrollment(c, s), c.transport, Classify(net, c.managementUrl)), v);
  }

  lemma ManagementReason(net: Resolver, c: Config, s: Option<Status>, v: Violation)
    ensures v in ManagementViolations(PreEnrollment(c, s), c.transport, Classify(net, c.managementUrl)) <==>
            v in {BadManagement, OtherManagement} && ConfigReason(net, c, s, v)
  {
    EnrollingIff(c, s);
    KindIff(net, c.transport, c.managementUrl);
  }

  /** Why the signal server causes a violation. */
  predicate SignalReason(net: Resolver, t: Transport, url: string, v: Violation) {
    match v
    case BadSignal => url != "" && (Trim(url) == "" || Clear(net, url))
    case OtherSignal => Trim(url) != "" && !Clear(net, url) && !Anonymous(net, t, url)
    case _ => false
  }

  lemma SignalReasonIff(net: Resolver, t: Transport, url: string, v: Violation)
    ensures v in SignalViolations(net, t, url) <==> SignalReason(net, t, url, v)
  {
    KindIff(net, t, url);
    assert Trim("") == "";
  }

  lemma InFour(a: seq<Violation>, b: seq<Violation>, c: seq<Violation>, d: seq<Violation>, v: Violation)
    ensures v in a + b + c + d <==> v in a || v in b || v in c || v in d
  {
  }

  lemma StatusReasonIff(net: Resolver, t: Transport, f: Full, v: Violation)
    ensures v in StatusViolations(net, t, f) <==> StatusReason(net, t, f, v)
  {
    SignalReasonIff(net, t, f.signalUrl, v);
    AllRelaysReason(net, t, f.relays, v);
    ScanAllReason(f.peers, t, v);
    InFour(SignalViolations(net, t, f.signalUrl), AllRelayViolations(net, t, f.relays),
           if f.kernel then [KernelInterface] else [], ScanAll(f.peers, t).violations, v);
  }

  /**
   * What is reported, for every configuration, status and resolver: each kind of violation exactly for its reason, and
   * every flag.  The check passes exactly when configuration and live status are clean; and if it passes, everything
   * it prints about leaks reads disabled.
   */
  method CheckReport(net: Resolver, config: Option<Config>, s: Option<Status>) returns (r: Report)
    ensures r.violations == [] <==>
            && config.Some? && ConfigClean(net, config.value, s)
            && (s.Some? && s.value.full.Some? ==> StatusClean(net, config.value.transport, s.value.full.value))
    ensures config.Some? ==> forall v ::
              v in r.violations <==>
              || ConfigReason(net, config.value, s, v)
              || (s.Some? && s.value.full.Some? && StatusReason(net, config.value.transport, s.value.full.value, v))
    ensures config.Some? && s.Some? && s.value.full.Some? ==>
              StatusFlags(net, config.value.transport, s.value.full.value, r.flags)
    ensures (s.None? || s.value.full.None?) ==>
              r.flags.(fallback := false) == Flags(Unknown, Unknown, false, false, false, false, 0)
    ensures config.Some? ==>
              (r.flags.fallback <==> || (!Enrolling(config.value, s) && Clear(net, config.value.managementUrl))
                                     || r.flags.signal == Clearnet || r.flags.relay == Clearnet || r.flags.direct)
    ensures r.violations == [] ==>
            !r.flags.stun && !r.flags.ice && !r.flags.direct && !r.flags.fallback && r.flags.published == 0
  {
    if config.None? { return Report(QUIET, [EmptyConfig]); }
    var c := config.value;
    r := BuildReport(net, c, s);
    ConfigCleanIff(net, c, s);
    forall v ensures v in ConfigViolations(net, c, s) <==> ConfigReason(net, c, s, v) { ConfigReasonIff(net, c, s, v); }
    EnrollingIff(c, s);
    KindIff(net, c.transport, c.managementUrl);
    if FullOf(s).Some? {
      var f := FullOf(s).value;
      StatusCleanIff(net, c.transport, f);
      forall v ensures v in StatusViolations(net, c.transport, f) <==> StatusReason(net, c.transport, f, v) {
        StatusReasonIff(net, c.transport, f, v);
      }
      FlagsHold(net, c.transport, f, r.flags);
      if StatusClean(net, c.transport, f) {
        ScanAllClean(f.peers, c.transport);
        CleanFlags(net, c.transport, f, r.flags);
      }
    }
  }

  lemma FlagsHold(net: Resolver, t: Transport, f: Full, flags: Flags)
    requires flags.signal == SignalKind(net, f.signalUrl) && Shown(KindsOf(net, f.relays), flags.relay)
    requires (flags.stun <==> AnyStun(f.relays)) && flags.ice == ScanAll(f.peers, t).ice
    requires (flags.direct <==> f.kernel || ScanAll(f.peers, t).direct) && flags.published == ScanAll(f.peers, t).published
    ensures StatusFlags(net, t, f, flags)
  {
    KindOfClassify(net, f.signalUrl, flags.signal);
    RelayFlag(net, f.relays, flags.relay);
    ScanAllIce(f.peers, t);
    ScanAllDirect(f.peers, t);
    ScanAllPublished(f.peers, t);
    forall uri | uri in f.relays ensures IsStun(uri) <==> Stun(uri) { StunIff(uri); }
  }

  /** A clean status raises no flag. */
  lemma CleanFlags(net: Resolver, t: Transport, f: Full, flags: Flags)
    requires StatusClean(net, t, f) && StatusFlags(net, t, f, flags)
    ensures !flags.stun && !flags.ice && !flags.direct && flags.published == 0
    ensures flags.signal != Clearnet && flags.relay != Clearnet
  {
    forall p | p in f.peers ensures PeerClean(p, t) { PeersCleanEach(f.peers, t, p); }
    CleanPeerFlags(f.peers, t);
    NonePublished(f.peers, t);
    assert forall uri :: uri in f.relays ==> RelayClean(net, t, uri);
  }

  lemma CleanPeerFlags(peers: seq<Peer>, t: Transport)
    requires forall p :: p in peers ==> PeerClean(p, t)
    ensures !Any(peers, IceUnder(t)) && !Any(peers, DirectUnder(t))
  {
    assert forall i :: 0 <= i < |peers| ==> peers[i] in peers;
  }

  lemma {:induction false} NonePublished(peers: seq<Peer>, t: Transport)
    requires forall p :: p in peers ==> PeerClean(p, t)
    ensures Published(peers, t) == 0
    decreases |peers|
  {
    if peers != [] {
      assert peers[|peers| - 1] in peers;
      NonePublished(peers[..|peers| - 1], t);
    }
  }

  /** What a pass says about endpoints under a known transport: the management URL resolves to that network, or the
      client is not enrolled and it resolves to none; so do the signal URL and every relay that is not blank. */
  lemma PassedEndpoints(net: Resolver, c: Config, s: Option<Status>)
    requires ConfigClean(net, c, s) && c.transport != OtherTransport
    requires s.Some? && s.value.full.Some? ==> StatusClean(net, c.transport, s.value.full.value)
    ensures || net(Trim(c.managementUrl)) == Some(c.transport)
            || (!c.anonymousMode && net(Trim(c.managementUrl)) !in {Some(TorRelayOnly), Some(I2PDatagram)})
    ensures c.anonymousMode ==> net(Trim(c.managementUrl)) == Some(c.transport)
    ensures s.Some? && s.value.full.Some? && s.value.full.value.signalUrl != "" ==>
              net(Trim(s.value.full.value.signalUrl)) == Some(c.transport)
    ensures s.Some? && s.value.full.Some? ==>
              forall uri :: uri in s.value.full.value.relays && Trim(uri) != "" ==> net(Trim(uri)) == Some(c.transport)
  {
    if s.Some? && s.value.full.Some? {
      assert forall uri :: uri in s.value.full.value.relays ==> RelayClean(net, c.transport, uri);
    }
  }

  /** What a pass says about relays under a known transport: each one that is not blank resolves to that network, and
      none is a STUN server. */
  lemma PassedRelays(net: Resolver, t: Transport, f: Full, uri: string)
    requires StatusClean(net, t, f) && uri in f.relays
    ensures Trim(uri) != "" && t != OtherTransport ==> net(Trim(uri)) == Some(t)
    ensures Trim(uri) != "" ==> net(Trim(uri)) in {Some(TorRelayOnly), Some(I2PDatagram)}
    ensures !("stun:" <= Lower(uri)) && !("stuns:" <= Lower(uri))
  {
    assert RelayClean(net, t, uri);
    StunIff(uri);
  }

  /** What a pass says about peers: under Tor their fields are empty; under I2P they are empty, or the peer shows I2P
      markers and nothing else but white space; and connected ones are relayed or I2P. */
  lemma PassedPeers(net: Resolver, t: Transport, f: Full, p: Peer, v: string)
    requires StatusClean(net, t, f) && p in f.peers
    requires v in [p.localType, p.remoteType, p.localEndpoint, p.remoteEndpoint]
    ensures v == "" || (Marked(p, t) && (Trim(v) == "" || Marker(v)))
    ensures t != I2PDatagram ==> v == ""
    ensures p.connected ==> p.relayed || Marked(p, t)
  {
    PeersCleanEach(f.peers, t, p);
  }

  /** White space passes beside a marker: whatever fields are blank, and whether or not the peer is relayed. */
  lemma BlankBesideMarker(p: Peer)
    requires p.localType == MARKER && Trim(p.remoteType) == Trim(p.localEndpoint) == Trim(p.remoteEndpoint) == ""
    ensures PeerClean(p, I2PDatagram)
  {
    assert Trim(MARKER) == MARKER;
  }

  /** One such peer: connected, not relayed, and with a space for a type. */
  lemma SpaceBesideMarker()
    ensures PeerClean(Peer("i2p-datagram", " ", "", "", true, false), I2PDatagram)
  {
    assert Trim("") == "" && Trim(" ") == "" by { assert " "[1..] == ""; }
    BlankBesideMarker(Peer(MARKER, " ", "", "", true, false));
  }
}
