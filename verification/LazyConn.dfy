/** Connections on demand: the connection manager (client/internal/conn_mgr.go) over the peer
    store and the lazy connection manager (client/internal/lazyconn/manager/manager.go).

    A connection object is identified by its peer and a serial number. `open` holds the
    connections on which Open was called more recently than Close. */
module LazyConn {
  import opened Basics

  datatype Prefix = Prefix(is6: bool, addr: nat, bits: nat)

  datatype ConnId = ConnId(key: string, serial: nat)

  datatype Conn = Conn(id: ConnId, version: string, allowedIPs: seq<Prefix>)

  /** managedPeers, the connections in managedPeersByConnID, those among them that await
      silence (the rest awaits traffic), and the exclude list. */
  datatype Lazy = Lazy(managed: map<string, Conn>, known: set<ConnId>, active: set<ConnId>, excludes: map<string, Conn>)

  const NO_PEERS := Lazy(map[], {}, {}, map[])

  datatype Mgr = Mgr(store: map<string, Conn>, open: set<ConnId>, lazy: Option<Lazy>, enabledLocally: bool, rosenpass: bool)

  // ----- The lazy manager -----

  function Forget(lz: Lazy, k: string): Lazy {
    if k !in lz.managed then lz else
      var id := lz.managed[k].id;
      lz.(managed := lz.managed - {k}, known := lz.known - {id}, active := lz.active - {id})
  }

  predicate AwaitsTraffic(lz: Lazy, id: ConnId) {
    id in lz.known && id !in lz.active
  }

  predicate AwaitsSilence(lz: Lazy, id: ConnId) {
    id in lz.known && id in lz.active
  }

  function OpenStored(m: Mgr, k: string): Mgr {
    if k in m.store then m.(open := m.open + {m.store[k].id}) else m
  }

  function CloseStored(m: Mgr, k: string): Mgr {
    if k in m.store then m.(open := m.open - {m.store[k].id}) else m
  }

  // ----- Operations -----

  function Start(m: Mgr): Mgr {
    if m.lazy.Some? || !m.enabledLocally || m.rosenpass then m else m.(lazy := Some(NO_PEERS))
  }

  function Ids(conns: map<string, Conn>): set<ConnId> {
    set k | k in conns :: conns[k].id
  }

  /** addPeersToLazyConnManager on a manager that knows nobody yet: all are taken to be open. */
  function AllActive(m: Mgr): Lazy {
    Lazy(m.store, Ids(m.store), Ids(m.store), map[])
  }

  function RemoteFlag(m: Mgr, enabled: bool): Mgr {
    if m.enabledLocally then m
    else if enabled then
      if m.lazy.Some? || m.rosenpass then m else m.(lazy := Some(AllActive(m)))
    else if m.lazy.None? then m
    else m.(lazy := None, open := m.open + Ids(m.store))
  }

  /** AddPeerConn; `supported` is the version test and `monitorOk` whether an activity
      listener could be created. */
  function AddPeer(m: Mgr, k: string, c: Conn, supported: bool, monitorOk: bool): Mgr {
    if k in m.store then m
    else
      var added := m.(store := m.store[k := c]);
      if m.lazy.None? || !supported || k in m.lazy.value.excludes then OpenStored(added, k)
      else if k in m.lazy.value.managed then added
      else if !monitorOk then OpenStored(added, k)
      else
        var lz := m.lazy.value;
        added.(lazy := Some(lz.(managed := lz.managed[k := c], known := lz.known + {c.id}, active := lz.active - {c.id})))
  }

  function RemovePeer(m: Mgr, k: string): Mgr {
    if k !in m.store then m
    else
      var c := m.store[k];
      m.(store := m.store - {k}, open := m.open - {c.id},
      lazy := if m.lazy.None? then None else Some(Forget(m.lazy.value, k)))
  }

  /** The stored peers among those asked to stay connected. */
  function NewExcludes(m: Mgr, ids: set<string>): map<string, Conn> {
    m.store - (m.store.Keys - ids)
  }

  /** Peers put on the exclude list leave the manager. */
  function ForgetAll(lz: Lazy, ks: set<string>): Lazy {
    var gone := set k | k in ks && k in lz.managed :: lz.managed[k].id;
    lz.(managed := lz.managed - ks, known := lz.known - gone, active := lz.active - gone)
  }

  /** Peers taken off the exclude list are handed to the manager with the connection they had
      when they were put on it, whether or not the store still knows them. */
  function AdoptAll(lz: Lazy, back: map<string, Conn>): Lazy {
    var newly := back - lz.managed.Keys;
    lz.(managed := lz.managed + newly, known := lz.known + Ids(newly), active := lz.active + Ids(newly))
  }

  function SetExcludes(m: Mgr, ids: set<string>): Mgr {
    if m.lazy.None? then m
    else
      var lz, ex := m.lazy.value, NewExcludes(m, ids);
      var added := ex.Keys - lz.excludes.Keys;
      var lz1 := AdoptAll(ForgetAll(lz, added), lz.excludes - ex.Keys).(excludes := ex);
      m.(lazy := Some(lz1), open := m.open + set k | k in added :: ex[k].id)
  }

  /** A signal message from the peer, passed on with its stored connection. */
  function Activate(m: Mgr, k: string): Mgr {
    if m.lazy.None? || k !in m.lazy.value.managed || !AwaitsTraffic(m.lazy.value, m.lazy.value.managed[k].id) then m
    else OpenStored(m.(lazy := Some(m.lazy.value.(active := m.lazy.value.active + {m.lazy.value.managed[k].id}))), k)
  }

  /** The remote peer went idle; the manager is asked by connection. */
  function Deactivate(m: Mgr, id: ConnId): Mgr {
    if m.lazy.None? || !AwaitsSilence(m.lazy.value, id) then m
    else CloseStored(m, id.key).(lazy := Some(m.lazy.value.(active := m.lazy.value.active - {id})))
  }

  /** Traffic seen by the activity listener of a connection. */
  function OnActivity(m: Mgr, id: ConnId): Mgr {
    if m.lazy.None? || !AwaitsTraffic(m.lazy.value, id) then m
    else OpenStored(m, id.key).(lazy := Some(m.lazy.value.(active := m.lazy.value.active + {id})))
  }

  /** Silence seen by the inactivity manager for a peer. */
  function OnInactivity(m: Mgr, k: string): Mgr {
    if m.lazy.None? || k !in m.lazy.value.managed then m else Deactivate(m, m.lazy.value.managed[k].id)
  }

  datatype Op =
    | StartMgr
    | Flag(enabled: bool)
    | AddConn(conn: Conn, supported: bool, monitorOk: bool)
    | RemoveConn(key: string)
    | Exclude(ids: set<string>)
    | Signal(key: string)
    | GoIdle(id: ConnId)
    | Traffic(id: ConnId)
    | Silence(key: string)

  function Step(m: Mgr, op: Op): Mgr {
    match op
    case StartMgr => Start(m)
    case Flag(on) => RemoteFlag(m, on)
    case AddConn(c, sup, mon) => AddPeer(m, c.id.key, c, sup, mon)
    case RemoveConn(k) => RemovePeer(m, k)
    case Exclude(ids) => SetExcludes(m, ids)
    case Signal(k) => Activate(m, k)
    case GoIdle(id) => Deactivate(m, id)
    case Traffic(id) => OnActivity(m, id)
    case Silence(k) => OnInactivity(m, k)
  }

  function Run(m: Mgr, ops: seq<Op>): Mgr
    decreases |ops|
  {
    if ops == [] then m else Run(Step(m, ops[0]), ops[1..])
  }

  // ----- What every run keeps -----

  /** The two indexes of the manager agree, and every entry belongs to its peer. */
  ghost predicate InStep(lz: Lazy) {
    && (forall k :: k in lz.managed ==> lz.managed[k].id.key == k && lz.managed[k].id in lz.known)
    && (forall c :: c in lz.known ==> c.key in lz.managed && lz.managed[c.key].id == c)
    && (forall k :: k in lz.excludes ==> lz.excludes[k].id.key == k && k !in lz.managed)
    && lz.active <= lz.known
  }

  ghost predicate Consistent(m: Mgr) {
    && (forall k :: k in m.store ==> m.store[k].id.key == k)
    && (m.lazy.Some? ==> InStep(m.lazy.value) && !m.rosenpass)
    && (m.lazy.None? ==> forall k :: k in m.store ==> m.store[k].id in m.open)
    && (m.lazy.Some? ==> forall k :: k in m.store && k in m.lazy.value.excludes ==> m.store[k].id in m.open)
  }

  /** The peer is connected, or known to a running lazy manager. */
  ghost predicate Covered(m: Mgr, k: string)
    requires k in m.store
  {
    m.store[k].id in m.open || (m.lazy.Some? && k in m.lazy.value.managed)
  }

  ghost predicate NobodyForgotten(m: Mgr) {
    Consistent(m) && forall k :: k in m.store ==> Covered(m, k)
  }

  /** The peer is connected, or the manager will connect it on traffic or on a signal. */
  ghost predicate Reachable(m: Mgr, k: string)
    requires k in m.store
  {
    || m.store[k].id in m.open
    || (m.lazy.Some? && k in m.lazy.value.managed && AwaitsTraffic(m.lazy.value, m.lazy.value.managed[k].id))
  }

  ghost predicate EveryoneReachable(m: Mgr) {
    forall k :: k in m.store ==> Reachable(m, k)
  }

  /** The manager only knows peers that the store knows. */
  ghost predicate NoGhosts(m: Mgr) {
    m.lazy.Some? ==> m.lazy.value.managed.Keys <= m.store.Keys
  }

  lemma AddPeerCovers(m: Mgr, c: Conn, supported: bool, monitorOk: bool)
    requires NobodyForgotten(m)
    ensures NobodyForgotten(AddPeer(m, c.id.key, c, supported, monitorOk))
  {
    var k := c.id.key;
    var n := AddPeer(m, k, c, supported, monitorOk);
    if k !in m.store {
      assert forall j :: j in m.store ==> n.store[j] == m.store[j] && Covered(m, j);
      assert Covered(n, k);
      if m.lazy.Some? && k !in m.lazy.value.managed && k !in m.lazy.value.excludes { ManageInStep(m.lazy.value, k, c); }
    }
  }

  lemma ManageInStep(lz: Lazy, k: string, c: Conn)
    requires InStep(lz) && c.id.key == k && k !in lz.managed && k !in lz.excludes
    ensures InStep(lz.(managed := lz.managed[k := c], known := lz.known + {c.id}, active := lz.active - {c.id}))
  {
  }

  lemma RemovePeerCovers(m: Mgr, k: string)
    requires NobodyForgotten(m)
    ensures NobodyForgotten(RemovePeer(m, k))
  {
  }

  lemma SetExcludesCovers(m: Mgr, ids: set<string>)
    requires NobodyForgotten(m)
    ensures NobodyForgotten(SetExcludes(m, ids))
  {
    if m.lazy.Some? { ExcludesInStep(m.lazy.value, NewExcludes(m, ids)); }
  }

  lemma ExcludesInStep(lz: Lazy, ex: map<string, Conn>)
    requires InStep(lz) && forall k :: k in ex ==> ex[k].id.key == k
    ensures InStep(AdoptAll(ForgetAll(lz, ex.Keys - lz.excludes.Keys), lz.excludes - ex.Keys).(excludes := ex))
  {
  }

  lemma RemoteFlagCovers(m: Mgr, enabled: bool)
    requires NobodyForgotten(m)
    ensures NobodyForgotten(RemoteFlag(m, enabled))
  {
  }

  lemma SignalCovers(m: Mgr, k: string)
    requires NobodyForgotten(m)
    ensures NobodyForgotten(Activate(m, k))
  {
  }

  lemma IdleCovers(m: Mgr, id: ConnId)
    requires NobodyForgotten(m)
    ensures NobodyForgotten(Deactivate(m, id))
  {
  }

  lemma TrafficCovers(m: Mgr, id: ConnId)
    requires NobodyForgotten(m)
    ensures NobodyForgotten(OnActivity(m, id))
  {
  }

  lemma StartCovers(m: Mgr)
    requires NobodyForgotten(m)
    ensures NobodyForgotten(Start(m))
  {
  }

  lemma StepCovers(m: Mgr, op: Op)
    requires NobodyForgotten(m)
    ensures NobodyForgotten(Step(m, op))
  {
    match op
    case Flag(on) => RemoteFlagCovers(m, on);
    case AddConn(c, sup, mon) => AddPeerCovers(m, c, sup, mon);
    case RemoveConn(k) => RemovePeerCovers(m, k);
    case Exclude(ids) => SetExcludesCovers(m, ids);
    case StartMgr => StartCovers(m);
    case Signal(k) => SignalCovers(m, k);
    case GoIdle(id) => IdleCovers(m, id);
    case Traffic(id) => TrafficCovers(m, id);
    case Silence(k) => if m.lazy.Some? && k in m.lazy.value.managed { IdleCovers(m, m.lazy.value.managed[k].id); }
  }

  /** In every run, every stored peer is connected or known to a running lazy manager, and the
      manager never runs while Rosenpass is on. */
  lemma {:induction false} RunCovers(m: Mgr, ops: seq<Op>)
    requires NobodyForgotten(m)
    ensures NobodyForgotten(Run(m, ops))
    decreases |ops|
  {
    if ops != [] {
      StepCovers(m, ops[0]);
      RunCovers(Step(m, ops[0]), ops[1..]);
    }
  }

  // ----- Being known is not being reachable -----

  /** Nobody is forgotten, and everyone can be woken. */
  ghost predicate Awake(m: Mgr) {
    NobodyForgotten(m) && EveryoneReachable(m)
  }

  /** An entry whose peer the manager believes to be connected. */
  predicate BelievedOpen(m: Mgr, k: string) {
    m.lazy.Some? && k in m.lazy.value.managed && AwaitsSilence(m.lazy.value, m.lazy.value.managed[k].id)
  }

  /** The peer comes new, with a connection that is not open, and a leftover entry makes the manager believe it is. */
  predicate Strands(m: Mgr, op: Op) {
    op.AddConn? && op.conn.id.key !in m.store && op.conn.id !in m.open && op.supported && BelievedOpen(m, op.conn.id.key)
  }

  /** Adding a peer leaves everyone reachable if and only if the running manager does not
      already hold a leftover entry for it that awaits silence. */
  lemma AddPeerReachableIff(m: Mgr, c: Conn, supported: bool, monitorOk: bool)
    requires Awake(m)
    ensures EveryoneReachable(AddPeer(m, c.id.key, c, supported, monitorOk)) <==>
            !Strands(m, AddConn(c, supported, monitorOk))
  {
    var k := c.id.key;
    var m' := AddPeer(m, k, c, supported, monitorOk);
    if Strands(m, AddConn(c, supported, monitorOk)) {
      assert !Reachable(m', k);
    } else {
      forall j | j in m'.store ensures Reachable(m', j) {
        if j in m.store { assert Reachable(m, j); }
      }
    }
  }

  lemma RemovePeerReachable(m: Mgr, k: string)
    requires Awake(m)
    ensures EveryoneReachable(RemovePeer(m, k))
  {
    forall j | j in RemovePeer(m, k).store ensures Reachable(RemovePeer(m, k), j) { assert Reachable(m, j); }
  }

  lemma SetExcludesReachable(m: Mgr, ids: set<string>)
    requires Awake(m)
    ensures EveryoneReachable(SetExcludes(m, ids))
  {
    forall j | j in m.store ensures Reachable(SetExcludes(m, ids), j) { assert Reachable(m, j); }
  }

  lemma RemoteFlagReachable(m: Mgr, enabled: bool)
    requires Awake(m)
    ensures EveryoneReachable(RemoteFlag(m, enabled))
  {
    forall j | j in m.store ensures Reachable(RemoteFlag(m, enabled), j) { assert Reachable(m, j); }
  }

  lemma WatcherReachable(m: Mgr, op: Op)
    requires Awake(m) && (op.Signal? || op.GoIdle? || op.Traffic? || op.Silence? || op.StartMgr?)
    ensures EveryoneReachable(Step(m, op))
  {
    forall j | j in m.store ensures Reachable(Step(m, op), j) { assert Reachable(m, j); }
  }

  /** One step leaves everyone reachable if and only if it does not strand the peer it adds. */
  lemma StepReachableIff(m: Mgr, op: Op)
    requires Awake(m)
    ensures Awake(Step(m, op)) <==> !Strands(m, op)
  {
    StepCovers(m, op);
    match op
    case Flag(on) => RemoteFlagReachable(m, on);
    case AddConn(c, sup, mon) => AddPeerReachableIff(m, c, sup, mon);
    case RemoveConn(k) => RemovePeerReachable(m, k);
    case Exclude(ids) => SetExcludesReachable(m, ids);
    case _ => WatcherReachable(m, op);
  }

  /** Everyone is reachable now and after every step. */
  ghost predicate AlwaysReachable(m: Mgr, ops: seq<Op>)
    decreases |ops|
  {
    EveryoneReachable(m) && (ops == [] || AlwaysReachable(Step(m, ops[0]), ops[1..]))
  }

  predicate NobodyStranded(m: Mgr, ops: seq<Op>)
    decreases |ops|
  {
    ops == [] || (!Strands(m, ops[0]) && NobodyStranded(Step(m, ops[0]), ops[1..]))
  }

  /** Throughout a run every stored peer is reachable if and only if no step strands the peer it adds. */
  lemma {:induction false} RunReachableIff(m: Mgr, ops: seq<Op>)
    requires Awake(m)
    ensures AlwaysReachable(m, ops) <==> NobodyStranded(m, ops)
    decreases |ops|
  {
    if ops != [] {
      StepReachableIff(m, ops[0]);
      StepCovers(m, ops[0]);
      if !Strands(m, ops[0]) { RunReachableIff(Step(m, ops[0]), ops[1..]); }
    }
  }

  /** When the exclude list is replaced, every peer on the old list is still stored. */
  predicate Prudent(m: Mgr, op: Op) {
    op.Exclude? && m.lazy.Some? ==> m.lazy.value.excludes.Keys <= m.store.Keys
  }

  predicate PrudentRun(m: Mgr, ops: seq<Op>)
    decreases |ops|
  {
    ops == [] || (Prudent(m, ops[0]) && PrudentRun(Step(m, ops[0]), ops[1..]))
  }

  lemma StepNoGhosts(m: Mgr, op: Op)
    requires Consistent(m) && NoGhosts(m) && Prudent(m, op)
    ensures NoGhosts(Step(m, op))
  {
  }

  /** As long as no peer is missing from the store when the exclude list it is on is replaced,
      every stored peer stays reachable in every run. */
  lemma {:induction false} RunReachable(m: Mgr, ops: seq<Op>)
    requires Awake(m) && NoGhosts(m) && PrudentRun(m, ops)
    ensures AlwaysReachable(m, ops)
    decreases |ops|
  {
    if ops != [] {
      StepReachableIff(m, ops[0]);
      StepNoGhosts(m, ops[0]);
      RunReachable(Step(m, ops[0]), ops[1..]);
    }
  }

  /** Replacing the exclude list makes the manager believe that a listed peer which is no
      longer stored is connected. */
  lemma MissingExcludeBelievedOpen(m: Mgr, k: string, ids: set<string>)
    requires Consistent(m) && m.lazy.Some? && k in m.lazy.value.excludes && k !in m.store
    ensures var m' := SetExcludes(m, ids);
            && BelievedOpen(m', k) && k !in m'.lazy.value.excludes && m'.store == m.store
            && forall id: ConnId :: id.key == k && id !in m.open ==> id !in m'.open
  {
    var back := m.lazy.value.excludes - NewExcludes(m, ids).Keys;
    assert k in back && back[k] == m.lazy.value.excludes[k];
  }

  /** The peer is stored but not connected, and the manager believes that it is. */
  predicate Stranded(m: Mgr, k: string) {
    k in m.store && m.store[k].id !in m.open && BelievedOpen(m, k)
  }

  /** Every excluded peer that leaves the network and comes back after the next update of the
      exclude list is stranded: neither connected nor waiting for traffic, and a signal from it
      changes nothing. */
  lemma ReturningPeerStranded(m: Mgr, k: string, ids: set<string>, c: Conn, monitorOk: bool)
    requires NobodyForgotten(m) && m.lazy.Some? && k in m.lazy.value.excludes && k in m.store
    requires c.id.key == k && c.id !in m.open
    ensures var m' := AddPeer(SetExcludes(RemovePeer(m, k), ids), k, c, true, monitorOk);
            k in m'.store && !Reachable(m', k) && Stranded(m', k) && Activate(m', k) == m'
  {
    RemovePeerCovers(m, k);
    MissingExcludeBelievedOpen(RemovePeer(m, k), k, ids);
  }

  /** What ends being stranded: the peer leaves, is put on the exclude list or is reported idle under the leftover
      entry, or the manager is switched off. */
  predicate Frees(m: Mgr, op: Op, k: string) {
    match op
    case RemoveConn(j) => j == k
    case Exclude(ids) => k in ids
    case Flag(on) => !on && !m.enabledLocally
    case Silence(j) => j == k
    case GoIdle(id) => m.lazy.Some? && k in m.lazy.value.managed && id == m.lazy.value.managed[k].id
    case _ => false
  }

  /** Neither traffic nor a signal, nor anything that concerns another peer, frees a stranded peer. */
  lemma StrandedStep(m: Mgr, op: Op, k: string)
    requires Consistent(m) && Stranded(m, k)
    ensures Stranded(Step(m, op), k) <==> !Frees(m, op, k)
  {
    match op {
      case Exclude(ids) => StrandedExclude(m, ids, k);
      case Flag(on) => assert !on && !m.enabledLocally ==> m.store[k].id in Ids(m.store);
      case Silence(j) => StrandedSilence(m, j, k);
      case GoIdle(id) => StrandedIdle(m, id, k);
      case Traffic(id) => StrandedTraffic(m, id, k);
      case Signal(j) => StrandedSignal(m, j, k);
      case _ =>
    }
  }

  lemma StrandedTraffic(m: Mgr, id: ConnId, k: string)
    requires Consistent(m) && Stranded(m, k)
    ensures Stranded(OnActivity(m, id), k)
  {
  }

  lemma StrandedSignal(m: Mgr, j: string, k: string)
    requires Consistent(m) && Stranded(m, k)
    ensures Stranded(Activate(m, j), k)
  {
  }

  lemma StrandedIdle(m: Mgr, id: ConnId, k: string)
    requires Consistent(m) && Stranded(m, k)
    ensures Stranded(Deactivate(m, id), k) <==> id != m.lazy.value.managed[k].id
  {
  }

  lemma StrandedSilence(m: Mgr, j: string, k: string)
    requires Consistent(m) && Stranded(m, k)
    ensures Stranded(OnInactivity(m, j), k) <==> j != k
  {
    if j in m.lazy.value.managed { StrandedIdle(m, m.lazy.value.managed[j].id, k); }
  }

  lemma StrandedExclude(m: Mgr, ids: set<string>, k: string)
    requires Consistent(m) && Stranded(m, k)
    ensures Stranded(SetExcludes(m, ids), k) <==> k !in ids
  {
    var lz, ex := m.lazy.value, NewExcludes(m, ids);
    var added := ex.Keys - lz.excludes.Keys;
    assert k in added <==> k in ids;
    assert forall j :: j in added ==> ex[j] == m.store[j] && (j != k ==> ex[j].id != m.store[k].id);
    var id := lz.managed[k].id;
    assert forall j :: j in lz.managed && j != k ==> lz.managed[j].id != id;
  }

  ghost predicate AlwaysStranded(m: Mgr, ops: seq<Op>, k: string)
    decreases |ops|
  {
    Stranded(m, k) && (ops == [] || AlwaysStranded(Step(m, ops[0]), ops[1..], k))
  }

  predicate NothingFrees(m: Mgr, ops: seq<Op>, k: string)
    decreases |ops|
  {
    ops == [] || (!Frees(m, ops[0], k) && NothingFrees(Step(m, ops[0]), ops[1..], k))
  }

  /** Over every run a stranded peer stays stranded if and only if no step frees it. */
  lemma {:induction false} StaysStrandedIff(m: Mgr, ops: seq<Op>, k: string)
    requires NobodyForgotten(m) && Stranded(m, k)
    ensures AlwaysStranded(m, ops, k) <==> NothingFrees(m, ops, k)
    decreases |ops|
  {
    if ops != [] {
      StrandedStep(m, ops[0], k);
      StepCovers(m, ops[0]);
      if !Frees(m, ops[0], k) { StaysStrandedIff(Step(m, ops[0]), ops[1..], k); }
    }
  }

  /** A remote flag never stops a manager enabled locally; otherwise turning it off connects
      every stored peer. */
  lemma FlagOff(m: Mgr)
    requires Consistent(m)
    ensures m.enabledLocally ==> RemoteFlag(m, false) == m
    ensures !m.enabledLocally ==> RemoteFlag(m, false).lazy.None?
    ensures !m.enabledLocally ==> forall k :: k in m.store ==> m.store[k].id in RemoteFlag(m, false).open
  {
    assert forall k :: k in m.store ==> m.store[k].id in Ids(m.store);
  }

  // ----- What each event does -----

  /** A signal from a peer whose entry waits for traffic connects the peer; any other signal changes nothing. */
  lemma SignalWakes(m: Mgr, k: string)
    requires Consistent(m) && k in m.store
    ensures var m' := Step(m, Signal(k));
            if m.lazy.Some? && k in m.lazy.value.managed && m.lazy.value.managed[k].id !in m.lazy.value.active then
              && m'.open == m.open + {m.store[k].id}
              && m'.lazy == Some(m.lazy.value.(active := m.lazy.value.active + {m.lazy.value.managed[k].id}))
              && m' == m.(open := m'.open, lazy := m'.lazy)
            else m' == m
  {
  }

  /** So does traffic on the connection that an entry waits for. */
  lemma TrafficWakes(m: Mgr, id: ConnId)
    requires Consistent(m)
    ensures var m' := Step(m, Traffic(id));
            if m.lazy.Some? && id.key in m.lazy.value.managed && m.lazy.value.managed[id.key].id == id &&
               id !in m.lazy.value.active then
              && m'.open == m.open + (if id.key in m.store then {m.store[id.key].id} else {})
              && m'.lazy == Some(m.lazy.value.(active := m.lazy.value.active + {id}))
              && m' == m.(open := m'.open, lazy := m'.lazy)
            else m' == m
  {
  }

  /** A peer reported idle under an entry that waits for silence is disconnected, and the entry waits for traffic. */
  lemma IdleCloses(m: Mgr, id: ConnId)
    requires Consistent(m)
    ensures var m' := Step(m, GoIdle(id));
            if m.lazy.Some? && id in m.lazy.value.active then
              && m'.open == m.open - (if id.key in m.store then {m.store[id.key].id} else {})
              && m'.lazy == Some(m.lazy.value.(active := m.lazy.value.active - {id}))
              && m' == m.(open := m'.open, lazy := m'.lazy)
            else m' == m
  {
  }

  lemma SilenceCloses(m: Mgr, k: string)
    requires Consistent(m)
    ensures var m' := Step(m, Silence(k));
            if m.lazy.Some? && k in m.lazy.value.managed && m.lazy.value.managed[k].id in m.lazy.value.active then
              && m'.open == m.open - (if k in m.store then {m.store[k].id} else {})
              && m'.lazy == Some(m.lazy.value.(active := m.lazy.value.active - {m.lazy.value.managed[k].id}))
              && m' == m.(open := m'.open, lazy := m'.lazy)
            else m' == m
  {
  }

  /** A peer goes to sleep and wakes up again: silence, then a signal or traffic, leave everything as it was. */
  lemma SleepAndWake(m: Mgr, k: string)
    requires Consistent(m) && k in m.store && m.store[k].id in m.open && m.lazy.Some? && k in m.lazy.value.managed
    requires m.lazy.value.managed[k].id in m.lazy.value.active
    ensures m.store[k].id !in Step(m, Silence(k)).open
    ensures Step(Step(m, Silence(k)), Signal(k)) == m
    ensures Step(Step(m, Silence(k)), Traffic(m.lazy.value.managed[k].id)) == m
  {
    var lz, c := m.lazy.value, m.store[k].id;
    var id := lz.managed[k].id;
    assert m.open - {c} + {c} == m.open && lz.active - {id} + {id} == lz.active;
  }

  /** Where a new peer goes: it is connected unless a running manager takes it over, and only then registered. */
  lemma AddedPeer(m: Mgr, c: Conn, supported: bool, monitorOk: bool)
    requires Consistent(m) && c.id.key !in m.store
    ensures var m', k := Step(m, AddConn(c, supported, monitorOk)), c.id.key;
            && m'.store == m.store[k := c]
            && (m.lazy.None? ==> m'.open == m.open + {c.id} && m'.lazy.None?)
            && (m.lazy.Some? ==>
                  var lz := m.lazy.value;
                  var known := k in lz.managed;
                  var taken := supported && k !in lz.excludes && (known || monitorOk);
                  && m'.open == (if taken then m.open else m.open + {c.id})
                  && m'.lazy == (if taken && !known
                                 then Some(Lazy(lz.managed[k := c], lz.known + {c.id}, lz.active - {c.id}, lz.excludes))
                                 else m.lazy))
  {
  }

  lemma KnownPeerStays(m: Mgr, c: Conn, supported: bool, monitorOk: bool)
    requires c.id.key in m.store
    ensures Step(m, AddConn(c, supported, monitorOk)) == m
  {
  }

  /** A removed peer is disconnected and forgotten everywhere but on the exclude list, and nobody else notices. */
  lemma RemovedPeer(m: Mgr, k: string)
    requires Consistent(m)
    ensures var m' := Step(m, RemoveConn(k));
            if k !in m.store then m' == m else
              && m'.store == m.store - {k} && m'.open == m.open - {m.store[k].id}
              && (m'.lazy.Some? <==> m.lazy.Some?)
              && (m.lazy.Some? ==>
                    && m'.lazy.value.managed == m.lazy.value.managed - {k}
                    && m'.lazy.value.excludes == m.lazy.value.excludes
                    && (forall id: ConnId :: id in m'.lazy.value.known <==> id in m.lazy.value.known && id.key != k)
                    && (forall id: ConnId :: id in m'.lazy.value.active <==> id in m.lazy.value.active && id.key != k))
  {
  }

  /** A peer put on the exclude list. */
  predicate NewlyExcluded(m: Mgr, ids: set<string>, k: string)
    requires m.lazy.Some?
  {
    k in ids && k in m.store && k !in m.lazy.value.excludes
  }

  /** A peer taken off the exclude list. */
  predicate NoLongerExcluded(m: Mgr, ids: set<string>, k: string)
    requires m.lazy.Some?
  {
    k in m.lazy.value.excludes && !(k in ids && k in m.store)
  }

  /** Replacing the exclude list: the stored peers asked for are on it; those new to it leave the manager and are
      connected; those taken off it are the manager's again, as connected peers; the rest stays. */
  lemma ExcludeListReplaced(m: Mgr, ids: set<string>)
    requires Consistent(m) && m.lazy.Some?
    ensures var m', lz := Step(m, Exclude(ids)), m.lazy.value;
            && m'.lazy.Some? && m'.store == m.store
            && (forall k :: k in m'.lazy.value.excludes <==> k in ids && k in m.store)
            && (forall k :: k in m'.lazy.value.excludes ==> m'.lazy.value.excludes[k] == m.store[k])
            && (forall id: ConnId :: id in m'.open <==>
                  id in m.open || (NewlyExcluded(m, ids, id.key) && m.store[id.key].id == id))
            && (forall k :: k in m'.lazy.value.managed <==>
                  (k in lz.managed && !NewlyExcluded(m, ids, k)) || NoLongerExcluded(m, ids, k))
            && (forall k :: k in m'.lazy.value.managed ==>
                  m'.lazy.value.managed[k] == if k in lz.managed then lz.managed[k] else lz.excludes[k])
            && (forall id: ConnId :: id in m'.lazy.value.active <==>
                  || (id in lz.active && !NewlyExcluded(m, ids, id.key))
                  || (NoLongerExcluded(m, ids, id.key) && lz.excludes[id.key].id == id))
  {
    ExcludedMaps(m, ids);
    forall id: ConnId
      ensures id in SetExcludes(m, ids).open <==>
              id in m.open || (NewlyExcluded(m, ids, id.key) && m.store[id.key].id == id)
    {
      ExcludedOpen(m, ids, id);
    }
    forall id: ConnId
      ensures var m', lz := SetExcludes(m, ids), m.lazy.value;
              id in m'.lazy.value.active <==>
              || (id in lz.active && !NewlyExcluded(m, ids, id.key))
              || (NoLongerExcluded(m, ids, id.key) && lz.excludes[id.key].id == id)
    {
      ExcludedActive(m, ids, id);
    }
  }

  lemma ExcludedMaps(m: Mgr, ids: set<string>)
    requires Consistent(m) && m.lazy.Some?
    ensures var m', lz := SetExcludes(m, ids), m.lazy.value;
            && m'.lazy.Some? && m'.store == m.store
            && (forall k :: k in m'.lazy.value.excludes <==> k in ids && k in m.store)
            && (forall k :: k in m'.lazy.value.excludes ==> m'.lazy.value.excludes[k] == m.store[k])
            && (forall k :: k in m'.lazy.value.managed <==>
                  (k in lz.managed && !NewlyExcluded(m, ids, k)) || NoLongerExcluded(m, ids, k))
            && (forall k :: k in m'.lazy.value.managed ==>
                  m'.lazy.value.managed[k] == if k in lz.managed then lz.managed[k] else lz.excludes[k])
  {
  }

  lemma ExcludedOpen(m: Mgr, ids: set<string>, id: ConnId)
    requires Consistent(m) && m.lazy.Some?
    ensures id in SetExcludes(m, ids).open <==>
            id in m.open || (NewlyExcluded(m, ids, id.key) && m.store[id.key].id == id)
  {
    var ex := NewExcludes(m, ids);
    var added := ex.Keys - m.lazy.value.excludes.Keys;
    assert forall k :: k in added <==> NewlyExcluded(m, ids, k);
    assert forall k :: k in added ==> ex[k].id == m.store[k].id && m.store[k].id.key == k;
  }

  lemma ExcludedActive(m: Mgr, ids: set<string>, id: ConnId)
    requires Consistent(m) && m.lazy.Some?
    ensures var m', lz := SetExcludes(m, ids), m.lazy.value;
            id in m'.lazy.value.active <==>
            || (id in lz.active && !NewlyExcluded(m, ids, id.key))
            || (NoLongerExcluded(m, ids, id.key) && lz.excludes[id.key].id == id)
  {
    var lz, ex := m.lazy.value, NewExcludes(m, ids);
    var added := ex.Keys - lz.excludes.Keys;
    assert forall k :: k in added <==> NewlyExcluded(m, ids, k);
    var lz1 := ForgetAll(lz, added);
    ForgetActive(lz, added, id);
    var back := lz.excludes - ex.Keys;
    assert forall k :: k in back <==> NoLongerExcluded(m, ids, k);
    assert forall k :: k in back ==> k !in lz.managed;
    assert back - lz1.managed.Keys == back;
    IdsIff(back, id);
  }

  lemma ForgetActive(lz: Lazy, ks: set<string>, id: ConnId)
    requires InStep(lz)
    ensures id in ForgetAll(lz, ks).active <==> id in lz.active && id.key !in ks
  {
    if id in lz.active { assert id.key in lz.managed && lz.managed[id.key].id == id; }
  }

  lemma IdsIff(conns: map<string, Conn>, id: ConnId)
    requires forall k :: k in conns ==> conns[k].id.key == k
    ensures id in Ids(conns) <==> id.key in conns && conns[id.key].id == id
  {
  }

  /** The remote flag starts a manager that takes every stored peer for connected, or stops it and connects everyone. */
  lemma FlagSwitches(m: Mgr, enabled: bool)
    requires Consistent(m)
    ensures var m' := Step(m, Flag(enabled));
            if m.enabledLocally || enabled == m.lazy.Some? || (enabled && m.rosenpass) then m' == m
            else if enabled then
              && m' == m.(lazy := m'.lazy) && m'.lazy.Some? && m'.lazy.value.managed == m.store
              && m'.lazy.value.excludes == map[] && m'.lazy.value.active == m'.lazy.value.known
              && forall k :: k in m.store ==> m.store[k].id in m'.lazy.value.active
            else
              && m' == m.(lazy := None, open := m'.open)
              && forall id: ConnId :: id in m'.open <==> id in m.open || (id.key in m.store && m.store[id.key].id == id)
  {
  }

  /** At start a manager that is enabled locally knows nobody; with Rosenpass on there is none. */
  lemma StartsEmpty(m: Mgr)
    ensures Step(m, StartMgr) ==
            if m.enabledLocally && !m.rosenpass && m.lazy.None? then m.(lazy := Some(Lazy(map[], {}, {}, map[]))) else m
  {
  }
}
