/** When a network map is applied in full, and what it does to connections, without the words of the implementation. */
module PeerUpdates {
  import opened Basics
  import opened LazyConn
  import opened PeerLists
  import opened PeerSync

  // ----- When an update succeeds -----

  /** A peer that a connection can be made for: its addresses can all be read, one of them can be used, and the
      connection object can be created. */
  ghost predicate Welcome(lo: Local, w: World, p: PeerConfig) {
    && (forall i :: 0 <= i < |p.allowedIPs| ==> lo.syntax.parse(p.allowedIPs[i]).Some?)
    && (exists i :: 0 <= i < |p.allowedIPs| && UsableString(lo, p.allowedIPs[i]))
    && p.key !in w.refused
  }

  predicate UsableString(lo: Local, s: string) {
    lo.syntax.parse(s).Some? && (!lo.syntax.parse(s).value.is6 || lo.hasIPv6)
  }

  lemma {:induction false} UsableWanted(lo: Local, ss: seq<string>)
    requires AllParse(lo.syntax, ss)
    ensures Usable(Parsed(lo.syntax, ss), lo.hasIPv6) != [] <==> exists i :: 0 <= i < |ss| && UsableString(lo, ss[i])
  {
    if ss != [] {
      assert AllParse(lo.syntax, ss[1..]);
      UsableWanted(lo, ss[1..]);
      assert Parsed(lo.syntax, ss)[1..] == Parsed(lo.syntax, ss[1..]);
      if i :| 0 < i < |ss| && UsableString(lo, ss[i]) { assert UsableString(lo, ss[1..][i - 1]); }
      if i :| 0 <= i < |ss| - 1 && UsableString(lo, ss[1..][i]) { assert UsableString(lo, ss[i + 1]); }
    }
  }

  lemma WelcomeIff(lo: Local, w: World, p: PeerConfig)
    ensures Acceptable(lo, w, p) <==> Welcome(lo, w, p)
  {
    if AllParse(lo.syntax, p.allowedIPs) { UsableWanted(lo, p.allowedIPs); }
  }

  lemma AddNewPeerOk(lo: Local, w: World, e: Engine, p: PeerConfig)
    ensures AddNewPeer(lo, w, e, p).ok <==> p.key in e.mgr.store || Acceptable(lo, w, p)
    ensures AddNewPeer(lo, w, e, p).ok ==> AddNewPeer(lo, w, e, p).e.mgr.store.Keys == e.mgr.store.Keys + {p.key}
  {
    if AddNewPeer(lo, w, e, p).ok { AddNewPeerStore(lo, w, e, p); }
  }

  /** Every peer that is missing from the store can be added. */
  ghost predicate MissingWelcome(lo: Local, w: World, keys: set<string>, ps: seq<PeerConfig>) {
    forall i :: 0 <= i < |ps| ==> ps[i].key in keys || Acceptable(lo, w, ps[i])
  }

  lemma MissingCons(lo: Local, w: World, keys: set<string>, ps: seq<PeerConfig>)
    requires ps != [] && KeysDistinct(ps)
    ensures MissingWelcome(lo, w, keys, ps) <==>
            && (ps[0].key in keys || Acceptable(lo, w, ps[0]))
            && MissingWelcome(lo, w, keys + {ps[0].key}, ps[1..])
  {
    if MissingWelcome(lo, w, keys + {ps[0].key}, ps[1..]) {
      forall i | 0 < i < |ps| ensures ps[i].key in keys || Acceptable(lo, w, ps[i]) {
        assert ps[i] == ps[1..][i - 1] && ps[i].key != ps[0].key;
      }
    }
  }

  lemma {:induction false} AddEachOk(lo: Local, w: World, e: Engine, ps: seq<PeerConfig>)
    requires KeysDistinct(ps)
    ensures AddEach(lo, w, e, ps).ok <==> MissingWelcome(lo, w, e.mgr.store.Keys, ps)
    decreases |ps|
  {
    if ps != [] {
      var first := AddNewPeer(lo, w, e, ps[0]);
      AddNewPeerOk(lo, w, e, ps[0]);
      MissingCons(lo, w, e.mgr.store.Keys, ps);
      if first.ok { AddEachOk(lo, w, first.e, ps[1..]); }
    }
  }

  lemma ModifyPeersOk(lo: Local, w: World, e: Engine, ps: seq<PeerConfig>)
    requires KeysDistinct(ps)
    ensures ModifyPeers(lo, w, e, ps).ok <==> forall p :: p in ps && Changed(lo, e.mgr, p) ==> Acceptable(lo, w, p)
  {
    var modified := ChangedOnes(lo, e.mgr, ps);
    ChangedOnesMembers(lo, e.mgr, ps);
    KeysOfMembers(modified);
    RemoveEachStore(e.mgr, KeysOf(modified));
    var e1 := e.(mgr := RemoveEach(e.mgr, KeysOf(modified)));
    AddEachOk(lo, w, e1, modified);
    assert forall i :: 0 <= i < |modified| ==> modified[i] in modified && modified[i].key !in e1.mgr.store;
    if MissingWelcome(lo, w, e1.mgr.store.Keys, modified) {
      forall p | p in ps && Changed(lo, e.mgr, p) ensures Acceptable(lo, w, p) {
        assert p in modified;
        var i :| 0 <= i < |modified| && modified[i] == p;
      }
    }
  }

  /** The peers that need a new connection: unknown ones, and known ones that changed. */
  ghost predicate Needy(lo: Local, store: map<string, Conn>, p: PeerConfig) {
    p.key !in store || !UpToDate(lo, store[p.key], p)
  }

  lemma SyncOk(lo: Local, w: World, e: Engine, m: NetworkMap, listing: seq<string>)
    requires Lists(listing, e.mgr.store.Keys) && KeysDistinct(m.peers) && !m.cleanup
    ensures SyncPeers(lo, w, e, m, listing).ok <==>
            forall p :: p in Others(lo.key, m.peers) && Needy(lo, e.mgr.store, p) ==> Acceptable(lo, w, p)
  {
    var ps := Others(lo.key, m.peers);
    OthersMembers(lo.key, m.peers);
    var gone := Minus(listing, Elems(KeysOf(ps)));
    MinusMembers(listing, Elems(KeysOf(ps)));
    KeysOfMembers(ps);
    RemoveEachStore(e.mgr, gone);
    var kept := e.(mgr := RemoveEach(e.mgr, gone));
    forall p | p in ps
      ensures p.key in kept.mgr.store <==> p.key in e.mgr.store
      ensures p.key in e.mgr.store ==> kept.mgr.store[p.key] == e.mgr.store[p.key]
      ensures Changed(lo, kept.mgr, p) <==> p.key in e.mgr.store && !UpToDate(lo, e.mgr.store[p.key], p)
    {
      assert p.key in KeysOf(ps);
      if p.key in e.mgr.store { ChangedIffStale(lo, kept.mgr, p); }
    }
    ModifyPeersOk(lo, w, kept, ps);
    var modified := ModifyPeers(lo, w, kept, ps);
    if modified.ok {
      ModifyPeersStore(lo, w, kept, ps);
      AddEachOk(lo, w, modified.e, ps);
      AddsMissing(lo, w, modified.e.mgr.store.Keys, e.mgr.store, ps);
    }
  }

  lemma AddsMissing(lo: Local, w: World, keys: set<string>, store: map<string, Conn>, ps: seq<PeerConfig>)
    requires forall p :: p in ps ==> (p.key in keys <==> p.key in store)
    ensures MissingWelcome(lo, w, keys, ps) <==> forall p :: p in ps && p.key !in store ==> Acceptable(lo, w, p)
  {
    assert forall i :: 0 <= i < |ps| ==> ps[i] in ps;
    if MissingWelcome(lo, w, keys, ps) {
      forall p | p in ps && p.key !in store ensures Acceptable(lo, w, p) {
        var i :| 0 <= i < |ps| && ps[i] == p;
      }
    }
  }

  /** A map that is not outdated is applied in full if and only if it asks for everybody's removal, or a connection can
      be made for every peer of it but ourselves that has none or an outdated one. */
  lemma UpdateOkIff(lo: Local, w: World, e: Engine, m: NetworkMap, listing: seq<string>)
    requires Lists(listing, e.mgr.store.Keys) && KeysDistinct(m.peers) && e.serial <= m.serial
    ensures Update(lo, w, e, m, listing).ok <==>
            || m.cleanup
            || forall p :: p in m.peers && p.key != lo.key && Needy(lo, e.mgr.store, p) ==> Welcome(lo, w, p)
  {
    UpdateIsSync(lo, w, e, m, listing);
    if !m.cleanup {
      SyncOk(lo, w, Flagged(e, m), m, listing);
      OthersMembers(lo.key, m.peers);
      forall p ensures Acceptable(lo, w, p) <==> Welcome(lo, w, p) { WelcomeIff(lo, w, p); }
    }
  }

  /** An outdated map is answered with success. */
  lemma OutdatedOk(lo: Local, w: World, e: Engine, m: NetworkMap, listing: seq<string>)
    requires m.serial < e.serial
    ensures Update(lo, w, e, m, listing).ok && Update(lo, w, e, m, listing).e == e
  {
  }

  // ----- Who is connected afterwards -----

  /** A new peer gets a connection of its own, with the map's version and its usable addresses, and is connected unless
      a running lazy manager takes it over. */
  lemma NewPeer(lo: Local, w: World, e: Engine, p: PeerConfig)
    requires Consistent(e.mgr) && p.key !in e.mgr.store && Welcome(lo, w, p)
    ensures var e' := AddNewPeer(lo, w, e, p).e;
            && p.key in e'.mgr.store && UpToDate(lo, e'.mgr.store[p.key], p)
            && e'.mgr.store[p.key].id == ConnId(p.key, e.created) && e'.created == e.created + 1
            && (e'.mgr.store[p.key].id in e'.mgr.open <==>
                  || e.mgr.lazy.None? || !lo.supports(p.version) || p.key in e.mgr.lazy.value.excludes
                  || (p.key !in e.mgr.lazy.value.managed && p.key in w.deaf)
                  || e'.mgr.store[p.key].id in e.mgr.open)
  {
    WelcomeIff(lo, w, p);
    var conn := Conn(ConnId(p.key, e.created), p.version, WantedIPs(lo, p));
    UpToDateIff(lo, conn, p);
    AddedPeer(e.mgr, conn, lo.supports(p.version), p.key !in w.deaf);
  }

  lemma {:induction false} RemoveEachLazy(m: Mgr, ks: seq<string>)
    ensures RemoveEach(m, ks).lazy.Some? <==> m.lazy.Some?
    decreases |ks|
  {
    if ks != [] { RemoveEachLazy(RemovePeer(m, ks[0]), ks[1..]); }
  }

  lemma {:induction false} AddEachLazy(lo: Local, w: World, e: Engine, ps: seq<PeerConfig>)
    ensures AddEach(lo, w, e, ps).e.mgr.lazy.Some? <==> e.mgr.lazy.Some?
    decreases |ps|
  {
    if ps != [] { AddEachLazy(lo, w, AddNewPeer(lo, w, e, ps[0]).e, ps[1..]); }
  }

  lemma SyncLazy(lo: Local, w: World, e: Engine, m: NetworkMap, listing: seq<string>)
    ensures SyncPeers(lo, w, e, m, listing).e.mgr.lazy.Some? <==> e.mgr.lazy.Some?
  {
    var ps := Others(lo.key, m.peers);
    RemoveEachLazy(e.mgr, listing);
    RemoveEachLazy(e.mgr, Minus(listing, Elems(KeysOf(ps))));
    var kept := e.(mgr := RemoveEach(e.mgr, Minus(listing, Elems(KeysOf(ps)))));
    var modified := ChangedOnes(lo, kept.mgr, ps);
    RemoveEachLazy(kept.mgr, KeysOf(modified));
    AddEachLazy(lo, w, kept.(mgr := RemoveEach(kept.mgr, KeysOf(modified))), modified);
    AddEachLazy(lo, w, ModifyPeers(lo, w, kept, ps).e, ps);
  }

  /** A current map switches lazy connections on and off, unless they are enabled locally; Rosenpass keeps them off. */
  lemma UpdateSwitchesLazy(lo: Local, w: World, e: Engine, m: NetworkMap, listing: seq<string>)
    requires e.serial <= m.serial
    ensures Update(lo, w, e, m, listing).e.mgr.lazy.Some? <==>
            if e.mgr.enabledLocally then e.mgr.lazy.Some?
            else m.lazyEnabled && (e.mgr.lazy.Some? || !e.mgr.rosenpass)
  {
    SyncLazy(lo, w, Flagged(e, m), m, listing);
  }

  lemma ExcludedIff(forwards: set<string>, ps: seq<PeerConfig>, k: string)
    ensures k in ExcludedPeers(forwards, ps) <==>
            exists p :: p in ps && p.key == k && exists i :: 0 <= i < |p.allowedIPs| && p.allowedIPs[i] in forwards
  {
  }

  /** After a map was applied, every peer that one of its forwarding rules points at is connected, and with a lazy
      manager running exactly these are on the exclude list. */
  lemma ForwardedStayConnected(lo: Local, w: World, e: Engine, m: NetworkMap, listing: seq<string>, p: PeerConfig)
    requires NobodyForgotten(e.mgr) && Lists(listing, e.mgr.store.Keys) && KeysDistinct(m.peers) && e.serial <= m.serial
    requires Update(lo, w, e, m, listing).ok && !m.cleanup && p in m.peers && p.key != lo.key
    ensures var e' := Update(lo, w, e, m, listing).e;
            var forwarded := exists i :: 0 <= i < |p.allowedIPs| && p.allowedIPs[i] in m.forwards;
            && p.key in e'.mgr.store
            && (forwarded ==> e'.mgr.store[p.key].id in e'.mgr.open)
            && (e'.mgr.lazy.Some? ==> (p.key in e'.mgr.lazy.value.excludes <==> forwarded))
  {
    Converges(lo, w, e, m, listing);
    UpdateCovers(lo, w, e, m, listing);
    var e' := Update(lo, w, e, m, listing).e;
    OthersMembers(lo.key, m.peers);
    ExcludedIff(m.forwards, Others(lo.key, m.peers), p.key);
    forall q | q in m.peers && q.key == p.key ensures q == p { SameKeySamePeer(m.peers, p, q); }
    if e'.mgr.lazy.Some? { UpdatedExcludes(lo, w, e, m, listing); }
  }

  lemma UpdatedExcludes(lo: Local, w: World, e: Engine, m: NetworkMap, listing: seq<string>)
    requires e.serial <= m.serial && Update(lo, w, e, m, listing).ok && Update(lo, w, e, m, listing).e.mgr.lazy.Some?
    ensures var e' := Update(lo, w, e, m, listing).e;
            forall k :: k in e'.mgr.lazy.value.excludes <==>
              k in e'.mgr.store && k in ExcludedPeers(m.forwards, Others(lo.key, m.peers))
  {
  }
}
