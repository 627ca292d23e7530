/** Reconciling the peer store with a network map (client/internal/engine.go): peers are
    removed, modified and added in three passes, any of which may stop early. */
module PeerSync {
  import opened Basics
  import opened LazyConn
  import opened PeerLists

  datatype PeerConfig = PeerConfig(key: string, allowedIPs: seq<string>, version: string)

  /** `cleanup` is the request to drop every peer; `forwards` holds the addresses that forwarding
      rules translate to. */
  datatype NetworkMap = NetworkMap(serial: nat, peers: seq<PeerConfig>, cleanup: bool, lazyEnabled: bool, forwards: set<string>)

  /** The local side: how prefixes are written, whether the interface has IPv6, our own key, and
      which agent versions can be connected lazily. */
  datatype Local = Local(syntax: Syntax, hasIPv6: bool, key: string, supports: string -> bool)

  /** What the outside decides: peers for which no connection object can be created, and peers
      for which no activity listener can. */
  datatype World = World(refused: set<string>, deaf: set<string>)

  datatype Engine = Engine(mgr: Mgr, serial: nat, created: nat)

  datatype Outcome = Outcome(e: Engine, ok: bool)

  function WantedIPs(lo: Local, p: PeerConfig): seq<Prefix>
    requires AllParse(lo.syntax, p.allowedIPs)
  {
    Usable(Parsed(lo.syntax, p.allowedIPs), lo.hasIPv6)
  }

  predicate Acceptable(lo: Local, w: World, p: PeerConfig) {
    AllParse(lo.syntax, p.allowedIPs) && WantedIPs(lo, p) != [] && p.key !in w.refused
  }

  /** addNewPeer: nothing for a known peer, an error for an unusable one. */
  function AddNewPeer(lo: Local, w: World, e: Engine, p: PeerConfig): Outcome {
    if p.key in e.mgr.store then Outcome(e, true)
    else if !Acceptable(lo, w, p) then Outcome(e, false)
    else
      var conn := Conn(ConnId(p.key, e.created), p.version, WantedIPs(lo, p));
      Outcome(Engine(AddPeer(e.mgr, p.key, conn, lo.supports(p.version), p.key !in w.deaf), e.serial, e.created + 1), true)
  }

  function AddEach(lo: Local, w: World, e: Engine, ps: seq<PeerConfig>): Outcome
    decreases |ps|
  {
    if ps == [] then Outcome(e, true)
    else
      var first := AddNewPeer(lo, w, e, ps[0]);
      if first.ok then AddEach(lo, w, first.e, ps[1..]) else first
  }

  function RemoveEach(m: Mgr, ks: seq<string>): Mgr
    decreases |ks|
  {
    if ks == [] then m else RemoveEach(RemovePeer(m, ks[0]), ks[1..])
  }

  function KeysOf(ps: seq<PeerConfig>): seq<string> {
    if ps == [] then [] else [ps[0].key] + KeysOf(ps[1..])
  }

  /** A known peer whose version or usable addresses differ from the map's. */
  ghost predicate Changed(lo: Local, m: Mgr, p: PeerConfig) {
    && p.key in m.store
    && (|| m.store[p.key].version != p.version
        || !SameIPs(lo.syntax, m.store[p.key].allowedIPs, Filtered(lo.syntax, p.allowedIPs, lo.hasIPv6)))
  }

  ghost function ChangedOnes(lo: Local, m: Mgr, ps: seq<PeerConfig>): seq<PeerConfig> {
    if ps == [] then []
    else if Changed(lo, m, ps[0]) then [ps[0]] + ChangedOnes(lo, m, ps[1..])
    else ChangedOnes(lo, m, ps[1..])
  }

  ghost function ModifyPeers(lo: Local, w: World, e: Engine, ps: seq<PeerConfig>): Outcome {
    var modified := ChangedOnes(lo, e.mgr, ps);
    AddEach(lo, w, e.(mgr := RemoveEach(e.mgr, KeysOf(modified))), modified)
  }

  function Others(me: string, ps: seq<PeerConfig>): seq<PeerConfig> {
    if ps == [] then [] else if ps[0].key == me then Others(me, ps[1..]) else [ps[0]] + Others(me, ps[1..])
  }

  /** Peers that a forwarding rule points at must stay connected. */
  function ExcludedPeers(forwards: set<string>, ps: seq<PeerConfig>): set<string> {
    set p | p in ps && (exists i :: 0 <= i < |p.allowedIPs| && p.allowedIPs[i] in forwards) :: p.key
  }

  ghost function SyncPeers(lo: Local, w: World, e: Engine, m: NetworkMap, listing: seq<string>): Outcome {
    var ps := Others(lo.key, m.peers);
    if m.cleanup then Outcome(e.(mgr := RemoveEach(e.mgr, listing)), true)
    else
      var kept := e.(mgr := RemoveEach(e.mgr, Minus(listing, Elems(KeysOf(ps)))));
      var modified := ModifyPeers(lo, w, kept, ps);
      if modified.ok then AddEach(lo, w, modified.e, ps) else modified
  }

  /** The engine after the map's lazy-connection flag took effect. */
  function Flagged(e: Engine, m: NetworkMap): Engine {
    e.(mgr := RemoteFlag(e.mgr, m.lazyEnabled))
  }

  /** updateNetworkMap; `listing` is the order in which the store happens to list its peers. */
  ghost function Update(lo: Local, w: World, e: Engine, m: NetworkMap, listing: seq<string>): Outcome {
    if e.serial > m.serial then Outcome(e, true)
    else
      var synced := SyncPeers(lo, w, Flagged(e, m), m, listing);
      if !synced.ok then synced
      else
        var excluded := ExcludedPeers(m.forwards, Others(lo.key, m.peers));
        Outcome(synced.e.(mgr := SetExcludes(synced.e.mgr, excluded), serial := m.serial), true)
  }

  // ----- One pass at a time -----

  lemma {:induction false} RemoveEachStore(m: Mgr, ks: seq<string>)
    ensures RemoveEach(m, ks).store == m.store - Elems(ks)
    decreases |ks|
  {
    if ks != [] {
      RemoveEachStore(RemovePeer(m, ks[0]), ks[1..]);
      assert Elems(ks) == {ks[0]} + Elems(ks[1..]);
    }
  }

  ghost predicate KeysDistinct(ps: seq<PeerConfig>) {
    forall i, j :: 0 <= i < j < |ps| ==> ps[i].key != ps[j].key
  }

  lemma AddNewPeerStore(lo: Local, w: World, e: Engine, p: PeerConfig)
    requires AddNewPeer(lo, w, e, p).ok
    ensures var e' := AddNewPeer(lo, w, e, p).e;
            && e'.serial == e.serial && e'.created >= e.created
            && (p.key in e.mgr.store ==> e' == e)
            && (p.key !in e.mgr.store ==> Acceptable(lo, w, p))
            && (p.key !in e.mgr.store ==>
                  e'.mgr.store == e.mgr.store[p.key := Conn(ConnId(p.key, e.created), p.version, WantedIPs(lo, p))])
  {
  }

  /** A connection that was created for this configuration of the peer. */
  ghost predicate MadeFor(lo: Local, c: Conn, p: PeerConfig, from: nat) {
    && c.version == p.version && AllParse(lo.syntax, p.allowedIPs) && c.allowedIPs == WantedIPs(lo, p)
    && c.id.key == p.key && c.id.serial >= from
  }

  /** A completed add pass keeps what was there and creates exactly the missing peers. */
  lemma {:induction false} AddEachStore(lo: Local, w: World, e: Engine, ps: seq<PeerConfig>)
    requires KeysDistinct(ps) && AddEach(lo, w, e, ps).ok
    ensures var e' := AddEach(lo, w, e, ps).e;
            && e'.serial == e.serial && e'.created >= e.created
            && e'.mgr.store.Keys == e.mgr.store.Keys + Elems(KeysOf(ps))
            && (forall k :: k in e.mgr.store ==> k in e'.mgr.store && e'.mgr.store[k] == e.mgr.store[k])
            && (forall p :: p in ps && p.key !in e.mgr.store ==>
                  p.key in e'.mgr.store && MadeFor(lo, e'.mgr.store[p.key], p, e.created))
    decreases |ps|
  {
    if ps != [] {
      var e1 := AddNewPeer(lo, w, e, ps[0]).e;
      AddNewPeerStore(lo, w, e, ps[0]);
      AddEachStore(lo, w, e1, ps[1..]);
      assert Elems(KeysOf(ps)) == {ps[0].key} + Elems(KeysOf(ps[1..]));
      forall p | p in ps && p.key !in e.mgr.store
        ensures var e' := AddEach(lo, w, e, ps).e; p.key in e'.mgr.store && MadeFor(lo, e'.mgr.store[p.key], p, e.created)
      {
        if p != ps[0] {
          assert p in ps[1..] && p.key != ps[0].key;
        }
      }
    }
  }

  lemma {:induction false} KeysOfMembers(ps: seq<PeerConfig>)
    ensures forall k :: k in KeysOf(ps) <==> exists p :: p in ps && p.key == k
  {
    if ps != [] {
      KeysOfMembers(ps[1..]);
      forall k | exists p :: p in ps && p.key == k ensures k in KeysOf(ps) {
        var p :| p in ps && p.key == k;
        if p != ps[0] { assert p in ps[1..]; }
      }
      forall k | k in KeysOf(ps) ensures exists p :: p in ps && p.key == k {
        if k != ps[0].key {
          assert k in KeysOf(ps[1..]);
          var p :| p in ps[1..] && p.key == k;
          assert p in ps;
        } else { assert ps[0] in ps; }
      }
    }
  }

  lemma {:induction false} ChangedOnesMembers(lo: Local, m: Mgr, ps: seq<PeerConfig>)
    ensures forall p :: p in ChangedOnes(lo, m, ps) <==> p in ps && Changed(lo, m, p)
    ensures KeysDistinct(ps) ==> KeysDistinct(ChangedOnes(lo, m, ps))
  {
    if ps != [] {
      ChangedOnesMembers(lo, m, ps[1..]);
      assert forall p :: p in ps <==> p == ps[0] || p in ps[1..];
      if KeysDistinct(ps) {
        assert forall p :: p in ps[1..] ==> p.key != ps[0].key;
      }
    }
  }

  lemma {:induction false} OthersMembers(me: string, ps: seq<PeerConfig>)
    ensures forall p :: p in Others(me, ps) <==> p in ps && p.key != me
    ensures KeysDistinct(ps) ==> KeysDistinct(Others(me, ps))
  {
    if ps != [] {
      OthersMembers(me, ps[1..]);
      assert forall p :: p in ps <==> p == ps[0] || p in ps[1..];
      if KeysDistinct(ps) {
        assert forall p :: p in ps[1..] ==> p.key != ps[0].key;
      }
    }
  }

  // ----- Convergence -----

  /** The string stands for the prefix, and the interface can use it. */
  predicate StandsFor(lo: Local, s: string, q: Prefix) {
    lo.syntax.parse(s) == Some(q) && (!q.is6 || lo.hasIPv6)
  }

  /** How many of the strings stand for the prefix. */
  function Standing(lo: Local, ss: seq<string>, q: Prefix): nat {
    if ss == [] then 0 else Standing(lo, ss[1..], q) + if StandsFor(lo, ss[0], q) then 1 else 0
  }

  /** The connection carries the map's version and every usable address as often as the map lists it. */
  ghost predicate UpToDate(lo: Local, c: Conn, p: PeerConfig) {
    && c.version == p.version
    && (forall i :: 0 <= i < |p.allowedIPs| ==> lo.syntax.parse(p.allowedIPs[i]).Some?)
    && forall q: Prefix :: multiset(c.allowedIPs)[q] == Standing(lo, p.allowedIPs, q)
  }

  lemma {:induction false} WantedCounts(lo: Local, ss: seq<string>, q: Prefix)
    requires AllParse(lo.syntax, ss)
    ensures multiset(Usable(Parsed(lo.syntax, ss), lo.hasIPv6))[q] == Standing(lo, ss, q)
  {
    if ss != [] {
      assert AllParse(lo.syntax, ss[1..]);
      WantedCounts(lo, ss[1..], q);
      var first, rest := lo.syntax.parse(ss[0]).value, Parsed(lo.syntax, ss[1..]);
      assert Parsed(lo.syntax, ss)[1..] == rest;
      assert multiset([first] + Usable(rest, lo.hasIPv6)) == multiset{first} + multiset(Usable(rest, lo.hasIPv6));
    }
  }

  /** The same, by way of the addresses that a new connection would get. */
  ghost predicate Matches(lo: Local, c: Conn, p: PeerConfig) {
    c.version == p.version && AllParse(lo.syntax, p.allowedIPs) && multiset(c.allowedIPs) == multiset(WantedIPs(lo, p))
  }

  lemma UpToDateIff(lo: Local, c: Conn, p: PeerConfig)
    ensures UpToDate(lo, c, p) <==> Matches(lo, c, p)
  {
    if AllParse(lo.syntax, p.allowedIPs) {
      forall q: Prefix ensures multiset(WantedIPs(lo, p))[q] == Standing(lo, p.allowedIPs, q) {
        WantedCounts(lo, p.allowedIPs, q);
      }
    }
  }

  /** The pass that compares and the pass that creates filter alike. */
  lemma ChangedIffDiffers(lo: Local, m: Mgr, p: PeerConfig)
    requires p.key in m.store
    ensures Changed(lo, m, p) <==> !Matches(lo, m.store[p.key], p)
  {
    if AllParse(lo.syntax, p.allowedIPs) {
      FilterAlike(lo.syntax, p.allowedIPs, lo.hasIPv6);
    } else {
      FilterKeepsBad(lo.syntax, p.allowedIPs, lo.hasIPv6);
    }
  }

  /** A known peer is left alone exactly when its connection is up to date. */
  lemma ChangedIffStale(lo: Local, m: Mgr, p: PeerConfig)
    requires p.key in m.store
    ensures Changed(lo, m, p) <==> !UpToDate(lo, m.store[p.key], p)
  {
    ChangedIffDiffers(lo, m, p);
    UpToDateIff(lo, m.store[p.key], p);
  }

  /** After a completed modify pass every known peer is up to date, and those that already were
      keep the very same connection. */
  lemma ModifyPeersStore(lo: Local, w: World, e: Engine, ps: seq<PeerConfig>)
    requires KeysDistinct(ps) && ModifyPeers(lo, w, e, ps).ok
    ensures var e' := ModifyPeers(lo, w, e, ps).e;
            && e'.serial == e.serial && e'.created >= e.created
            && e'.mgr.store.Keys == e.mgr.store.Keys
            && (forall p :: p in ps && p.key in e.mgr.store ==> Matches(lo, e'.mgr.store[p.key], p))
            && (forall p :: p in ps && p.key in e.mgr.store && !Changed(lo, e.mgr, p) ==> e'.mgr.store[p.key] == e.mgr.store[p.key])
            && (forall p :: p in ps && Changed(lo, e.mgr, p) ==> e'.mgr.store[p.key].id.serial >= e.created)
  {
    var modified := ChangedOnes(lo, e.mgr, ps);
    ChangedOnesMembers(lo, e.mgr, ps);
    KeysOfMembers(modified);
    RemoveEachStore(e.mgr, KeysOf(modified));
    var e1 := e.(mgr := RemoveEach(e.mgr, KeysOf(modified)));
    AddEachStore(lo, w, e1, modified);
    var e' := AddEach(lo, w, e1, modified).e;
    forall k ensures k in e'.mgr.store <==> k in e.mgr.store {
      if k in Elems(KeysOf(modified)) { var p :| p in modified && p.key == k; }
    }
    forall p | p in ps && p.key in e.mgr.store
      ensures Matches(lo, e'.mgr.store[p.key], p)
      ensures !Changed(lo, e.mgr, p) ==> e'.mgr.store[p.key] == e.mgr.store[p.key]
      ensures Changed(lo, e.mgr, p) ==> e'.mgr.store[p.key].id.serial >= e.created
    {
      ChangedIffDiffers(lo, e.mgr, p);
      if Changed(lo, e.mgr, p) {
        assert p in modified;
      } else {
        forall q | q in modified ensures q.key != p.key {
          if q.key == p.key { SameKeySamePeer(ps, p, q); }
        }
        assert p.key in e1.mgr.store;
      }
    }
  }

  lemma SameKeySamePeer(ps: seq<PeerConfig>, p: PeerConfig, q: PeerConfig)
    requires KeysDistinct(ps) && p in ps && q in ps && p.key == q.key
    ensures p == q
  {
    var i :| 0 <= i < |ps| && ps[i] == p;
    var j :| 0 <= j < |ps| && ps[j] == q;
    assert i == j;
  }

  lemma SyncPeersStore(lo: Local, w: World, e: Engine, m: NetworkMap, listing: seq<string>)
    requires Lists(listing, e.mgr.store.Keys) && KeysDistinct(m.peers) && SyncPeers(lo, w, e, m, listing).ok
    ensures var e' := SyncPeers(lo, w, e, m, listing).e; var ps := Others(lo.key, m.peers);
            && e'.serial == e.serial && e'.created >= e.created
            && e'.mgr.store.Keys == (if m.cleanup then {} else Elems(KeysOf(ps)))
            && (!m.cleanup ==> forall p :: p in ps ==> p.key in e'.mgr.store && Matches(lo, e'.mgr.store[p.key], p))
            && (!m.cleanup ==> forall p :: p in ps && p.key in e.mgr.store && Matches(lo, e.mgr.store[p.key], p) ==>
                  e'.mgr.store[p.key] == e.mgr.store[p.key])
  {
    var ps := Others(lo.key, m.peers);
    OthersMembers(lo.key, m.peers);
    assert Elems(listing) == e.mgr.store.Keys;
    if m.cleanup {
      RemoveEachStore(e.mgr, listing);
    } else {
      var gone := Minus(listing, Elems(KeysOf(ps)));
      MinusMembers(listing, Elems(KeysOf(ps)));
      RemoveEachStore(e.mgr, gone);
      KeysOfMembers(ps);
      var kept := e.(mgr := RemoveEach(e.mgr, gone));
      ModifyPeersStore(lo, w, kept, ps);
      var modified := ModifyPeers(lo, w, kept, ps).e;
      AddEachStore(lo, w, modified, ps);
      var e' := AddEach(lo, w, modified, ps).e;
      forall p | p in ps
        ensures p.key in e'.mgr.store && Matches(lo, e'.mgr.store[p.key], p)
        ensures p.key in e.mgr.store && Matches(lo, e.mgr.store[p.key], p) ==> e'.mgr.store[p.key] == e.mgr.store[p.key]
      {
        assert p.key in KeysOf(ps);
        if p.key in kept.mgr.store {
          assert kept.mgr.store[p.key] == e.mgr.store[p.key];
          ChangedIffDiffers(lo, kept.mgr, p);
        }
      }
    }
  }

  /** The store holds exactly the map's peers without ourselves (nobody on a clean-up request),
      each up to date. */
  ghost predicate Settled(lo: Local, store: map<string, Conn>, m: NetworkMap) {
    && (forall k :: k in store <==> !m.cleanup && k != lo.key && exists p :: p in m.peers && p.key == k)
    && (forall p :: p in m.peers && p.key in store ==> UpToDate(lo, store[p.key], p))
  }

  /** After every successful update that is not outdated the store is settled, and peers that
      already were up to date keep the very same connection object. */
  lemma Converges(lo: Local, w: World, e: Engine, m: NetworkMap, listing: seq<string>)
    requires Lists(listing, e.mgr.store.Keys) && KeysDistinct(m.peers) && e.serial <= m.serial
    requires Update(lo, w, e, m, listing).ok
    ensures var e' := Update(lo, w, e, m, listing).e;
            && e'.serial == m.serial && Settled(lo, e'.mgr.store, m)
            && (forall p :: p in m.peers && p.key in e.mgr.store && UpToDate(lo, e.mgr.store[p.key], p) && p.key in e'.mgr.store ==>
                  e'.mgr.store[p.key] == e.mgr.store[p.key])
  {
    UpdateIsSync(lo, w, e, m, listing);
    SyncConverges(lo, w, Flagged(e, m), m, listing);
  }

  /** What a current update does to the store is what the three passes do. */
  lemma UpdateIsSync(lo: Local, w: World, e: Engine, m: NetworkMap, listing: seq<string>)
    requires e.serial <= m.serial
    ensures Flagged(e, m).mgr.store == e.mgr.store && Flagged(e, m).created == e.created
    ensures var r, synced := Update(lo, w, e, m, listing), SyncPeers(lo, w, Flagged(e, m), m, listing);
            && r.ok == synced.ok
            && (r.ok ==> r.e.mgr.store == synced.e.mgr.store && r.e.serial == m.serial && r.e.created == synced.e.created)
  {
  }

  lemma SyncConverges(lo: Local, w: World, e: Engine, m: NetworkMap, listing: seq<string>)
    requires Lists(listing, e.mgr.store.Keys) && KeysDistinct(m.peers) && SyncPeers(lo, w, e, m, listing).ok
    ensures var e' := SyncPeers(lo, w, e, m, listing).e;
            && Settled(lo, e'.mgr.store, m)
            && (forall p :: p in m.peers && p.key in e.mgr.store && UpToDate(lo, e.mgr.store[p.key], p) && p.key in e'.mgr.store ==>
                  e'.mgr.store[p.key] == e.mgr.store[p.key])
  {
    SyncPeersStore(lo, w, e, m, listing);
    OthersMembers(lo.key, m.peers);
    KeysOfMembers(Others(lo.key, m.peers));
    var e' := SyncPeers(lo, w, e, m, listing).e;
    forall p | p in m.peers && p.key in e'.mgr.store
      ensures UpToDate(lo, e'.mgr.store[p.key], p)
      ensures p.key in e.mgr.store && UpToDate(lo, e.mgr.store[p.key], p) ==> e'.mgr.store[p.key] == e.mgr.store[p.key]
    {
      UpToDateIff(lo, e'.mgr.store[p.key], p);
      if p.key in e.mgr.store { UpToDateIff(lo, e.mgr.store[p.key], p); }
    }
  }

  lemma {:induction false} AddEachKnown(lo: Local, w: World, e: Engine, ps: seq<PeerConfig>)
    requires forall p :: p in ps ==> p.key in e.mgr.store
    ensures AddEach(lo, w, e, ps) == Outcome(e, true)
    decreases |ps|
  {
    if ps != [] {
      assert ps[0] in ps;
      AddEachKnown(lo, w, e, ps[1..]);
    }
  }

  lemma NoneChanged(lo: Local, m: Mgr, ps: seq<PeerConfig>)
    requires forall p :: p in ps ==> p.key in m.store && UpToDate(lo, m.store[p.key], p)
    ensures ChangedOnes(lo, m, ps) == []
  {
    ChangedOnesMembers(lo, m, ps);
    forall p | p in ps ensures !Changed(lo, m, p) { ChangedIffStale(lo, m, p); }
    EmptyOrElement(ChangedOnes(lo, m, ps));
  }

  /** On a settled store the three passes do nothing. */
  lemma SettledSync(lo: Local, w: World, e: Engine, m: NetworkMap, listing: seq<string>)
    requires Lists(listing, e.mgr.store.Keys) && Settled(lo, e.mgr.store, m)
    ensures var r := SyncPeers(lo, w, e, m, listing); r.ok && r.e.mgr.store == e.mgr.store && r.e.created == e.created
  {
    var ps := Others(lo.key, m.peers);
    OthersMembers(lo.key, m.peers);
    KeysOfMembers(ps);
    if m.cleanup {
      RemoveEachStore(e.mgr, listing);
    } else {
      var gone := Minus(listing, Elems(KeysOf(ps)));
      MinusMembers(listing, Elems(KeysOf(ps)));
      assert forall k :: k in gone ==> k in Elems(gone);
      EmptyOrElement(gone);
      NoneChanged(lo, e.mgr, ps);
      AddEachKnown(lo, w, e, ps);
    }
  }

  lemma SettledUpdate(lo: Local, w: World, e: Engine, m: NetworkMap, listing: seq<string>)
    requires Lists(listing, e.mgr.store.Keys) && Settled(lo, e.mgr.store, m) && e.serial == m.serial
    ensures var r := Update(lo, w, e, m, listing);
            r.ok && r.e.mgr.store == e.mgr.store && r.e.created == e.created && r.e.serial == e.serial
  {
    UpdateIsSync(lo, w, e, m, listing);
    SettledSync(lo, w, Flagged(e, m), m, listing);
  }

  /** Applying the same map again succeeds, removes nobody and creates nobody. */
  lemma NoChurn(lo: Local, w: World, e: Engine, m: NetworkMap, listing: seq<string>, w': World, listing': seq<string>)
    requires Lists(listing, e.mgr.store.Keys) && KeysDistinct(m.peers) && e.serial <= m.serial
    requires Update(lo, w, e, m, listing).ok && Lists(listing', Update(lo, w, e, m, listing).e.mgr.store.Keys)
    ensures var e1 := Update(lo, w, e, m, listing).e; var again := Update(lo, w', e1, m, listing');
            again.ok && again.e.mgr.store == e1.mgr.store && again.e.created == e1.created && again.e.serial == e1.serial
  {
    Converges(lo, w, e, m, listing);
    SettledUpdate(lo, w', Update(lo, w, e, m, listing).e, m, listing');
  }

  /** An outdated map changes nothing at all, and no update lowers the serial, failed or not. */
  lemma SerialNeverDrops(lo: Local, w: World, e: Engine, m: NetworkMap, listing: seq<string>)
    ensures Update(lo, w, e, m, listing).e.serial >= e.serial
    ensures e.serial > m.serial ==> Update(lo, w, e, m, listing).e == e
  {
    if e.serial <= m.serial {
      SyncKeepsSerial(lo, w, Flagged(e, m), m, listing);
    }
  }

  lemma {:induction false} AddEachSerial(lo: Local, w: World, e: Engine, ps: seq<PeerConfig>)
    ensures AddEach(lo, w, e, ps).e.serial == e.serial
    decreases |ps|
  {
    if ps != [] { AddEachSerial(lo, w, AddNewPeer(lo, w, e, ps[0]).e, ps[1..]); }
  }

  lemma SyncKeepsSerial(lo: Local, w: World, e: Engine, m: NetworkMap, listing: seq<string>)
    ensures SyncPeers(lo, w, e, m, listing).e.serial == e.serial
  {
    var ps := Others(lo.key, m.peers);
    var kept := e.(mgr := RemoveEach(e.mgr, Minus(listing, Elems(KeysOf(ps)))));
    var modified := ChangedOnes(lo, kept.mgr, ps);
    AddEachSerial(lo, w, kept.(mgr := RemoveEach(kept.mgr, KeysOf(modified))), modified);
    AddEachSerial(lo, w, ModifyPeers(lo, w, kept, ps).e, ps);
  }

  /** A map that arrives, with the surroundings it is applied in and the order of the store's listing. */
  datatype Arrival = Arrival(w: World, m: NetworkMap, listing: seq<string>)

  ghost function Arrived(lo: Local, e: Engine, a: Arrival): Outcome {
    Update(lo, a.w, e, a.m, a.listing)
  }

  /** The engine after all arrivals, whether each was applied, outdated or failed. */
  ghost function Updates(lo: Local, e: Engine, arrivals: seq<Arrival>): Engine {
    if arrivals == [] then e else
      var n := |arrivals| - 1;
      Arrived(lo, Updates(lo, e, arrivals[..n]), arrivals[n]).e
  }

  lemma ArrivalKeepsSerial(lo: Local, e: Engine, a: Arrival)
    ensures e.serial <= Arrived(lo, e, a).e.serial
  {
    SerialNeverDrops(lo, a.w, e, a.m, a.listing);
  }

  /** In every run the serial only grows. */
  lemma {:induction false} SerialGrows(lo: Local, e: Engine, arrivals: seq<Arrival>, i: nat)
    requires i <= |arrivals|
    ensures Updates(lo, e, arrivals[..i]).serial <= Updates(lo, e, arrivals).serial
    decreases |arrivals|
  {
    var n := |arrivals| - 1;
    if i <= n {
      assert arrivals[..n][..i] == arrivals[..i];
      SerialGrows(lo, e, arrivals[..n], i);
      LastArrival(lo, e, arrivals);
    } else {
      assert arrivals[..i] == arrivals;
    }
  }

  lemma LastArrival(lo: Local, e: Engine, arrivals: seq<Arrival>)
    requires arrivals != []
    ensures Updates(lo, e, arrivals[..|arrivals| - 1]).serial <= Updates(lo, e, arrivals).serial
  {
    var n := |arrivals| - 1;
    ArrivalKeepsSerial(lo, Updates(lo, e, arrivals[..n]), arrivals[n]);
  }

  lemma OutdatedIgnored(lo: Local, e: Engine, a: Arrival)
    requires a.m.serial < e.serial
    ensures Arrived(lo, e, a) == Outcome(e, true)
  {
  }

  /** Maps older than the engine's serial leave the engine alone, however many come in. */
  lemma {:induction false} LateMapsIgnored(lo: Local, e: Engine, arrivals: seq<Arrival>, i: nat)
    requires i <= |arrivals|
    requires forall j :: i <= j < |arrivals| ==> arrivals[j].m.serial < Updates(lo, e, arrivals[..i]).serial
    ensures Updates(lo, e, arrivals) == Updates(lo, e, arrivals[..i])
    decreases |arrivals|
  {
    var n := |arrivals| - 1;
    if i <= n {
      assert arrivals[..n][..i] == arrivals[..i];
      LateMapsIgnored(lo, e, arrivals[..n], i);
      OutdatedIgnored(lo, Updates(lo, e, arrivals[..i]), arrivals[n]);
    } else {
      assert arrivals[..i] == arrivals;
    }
  }

  /** In every run, once a map was applied, older maps that come in late leave the engine as that map settled it. */
  lemma LatestWins(lo: Local, e: Engine, arrivals: seq<Arrival>, i: nat)
    requires i < |arrivals| && KeysDistinct(arrivals[i].m.peers)
    requires var was := Updates(lo, e, arrivals[..i]);
             && was.serial <= arrivals[i].m.serial && Arrived(lo, was, arrivals[i]).ok
             && Lists(arrivals[i].listing, was.mgr.store.Keys)
    requires forall j :: i < j < |arrivals| ==> arrivals[j].m.serial < arrivals[i].m.serial
    ensures var e' := Updates(lo, e, arrivals);
            e'.serial == arrivals[i].m.serial && Settled(lo, e'.mgr.store, arrivals[i].m)
  {
    var was, a := Updates(lo, e, arrivals[..i]), arrivals[i];
    Converges(lo, a.w, was, a.m, a.listing);
    assert arrivals[..i + 1][..i] == arrivals[..i];
    assert Updates(lo, e, arrivals[..i + 1]) == Arrived(lo, was, a).e;
    LateMapsIgnored(lo, e, arrivals, i + 1);
  }

  // ----- Nobody is forgotten -----

  lemma {:induction false} RemoveEachCovers(m: Mgr, ks: seq<string>)
    requires NobodyForgotten(m)
    ensures NobodyForgotten(RemoveEach(m, ks))
    decreases |ks|
  {
    if ks != [] {
      RemovePeerCovers(m, ks[0]);
      RemoveEachCovers(RemovePeer(m, ks[0]), ks[1..]);
    }
  }

  lemma {:induction false} AddEachCovers(lo: Local, w: World, e: Engine, ps: seq<PeerConfig>)
    requires NobodyForgotten(e.mgr)
    ensures NobodyForgotten(AddEach(lo, w, e, ps).e.mgr)
    decreases |ps|
  {
    if ps != [] {
      var p := ps[0];
      if p.key !in e.mgr.store && Acceptable(lo, w, p) {
        AddPeerCovers(e.mgr, Conn(ConnId(p.key, e.created), p.version, WantedIPs(lo, p)), lo.supports(p.version), p.key !in w.deaf);
      }
      AddEachCovers(lo, w, AddNewPeer(lo, w, e, p).e, ps[1..]);
    }
  }

  /** Whatever map arrives and wherever the update stops, every stored peer is connected or known
      to a running lazy manager. */
  lemma UpdateCovers(lo: Local, w: World, e: Engine, m: NetworkMap, listing: seq<string>)
    requires NobodyForgotten(e.mgr)
    ensures NobodyForgotten(Update(lo, w, e, m, listing).e.mgr)
  {
    if e.serial <= m.serial {
      RemoteFlagCovers(e.mgr, m.lazyEnabled);
      var e1 := Flagged(e, m);
      var ps := Others(lo.key, m.peers);
      RemoveEachCovers(e1.mgr, listing);
      RemoveEachCovers(e1.mgr, Minus(listing, Elems(KeysOf(ps))));
      var kept := e1.(mgr := RemoveEach(e1.mgr, Minus(listing, Elems(KeysOf(ps)))));
      var modified := ChangedOnes(lo, kept.mgr, ps);
      RemoveEachCovers(kept.mgr, KeysOf(modified));
      AddEachCovers(lo, w, kept.(mgr := RemoveEach(kept.mgr, KeysOf(modified))), modified);
      AddEachCovers(lo, w, ModifyPeers(lo, w, kept, ps).e, ps);
      var synced := SyncPeers(lo, w, e1, m, listing);
      if synced.ok { SetExcludesCovers(synced.e.mgr, ExcludedPeers(m.forwards, ps)); }
    }
  }
}
