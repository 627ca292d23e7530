/** The engine object that applies network maps, proved to take the step PeerSync defines. */
module EngineObject {
  import opened Basics
  import opened LazyConn
  import opened PeerLists
  import opened PeerSync
  import opened ConnManager

  class PeerEngine {
    const lo: Local
    const connMgr: ConnMgr
    var networkSerial: nat
    var created: nat

    ghost predicate Valid()
      reads this, connMgr, connMgr.store, connMgr.lazy
    {
      connMgr.Valid() && Faithful(lo.syntax)
    }

    ghost function View(): Engine
      reads this, connMgr, connMgr.store, connMgr.lazy
    {
      Engine(connMgr.View(), networkSerial, created)
    }

    constructor (lo: Local, connMgr: ConnMgr)
      requires connMgr.Valid() && Faithful(lo.syntax)
      ensures Valid() && this.lo == lo && this.connMgr == connMgr && View() == Engine(connMgr.View(), 0, 0)
    {
      this.lo, this.connMgr, networkSerial, created := lo, connMgr, 0, 0;
    }

    /** Removes the listed peers one by one. */
    method RemoveListed(ks: seq<string>)
      requires Valid()
      modifies connMgr.lazy, connMgr.store
      ensures Valid() && View() == old(View()).(mgr := RemoveEach(old(connMgr.View()), ks))
    {
      var i := 0;
      assert ks[0..] == ks;
      while i < |ks|
        invariant 0 <= i <= |ks| && Valid()
        invariant RemoveEach(connMgr.View(), ks[i..]) == RemoveEach(old(connMgr.View()), ks)
      {
        assert ks[i..][1..] == ks[i + 1..];
        connMgr.RemovePeerConn(ks[i]);
        i := i + 1;
      }
      assert ks[i..] == [];
    }

    /** Parses the allowed addresses, dropping IPv6 ones that the interface cannot serve. */
    method UsableIPs(ss: seq<string>) returns (ok: bool, ips: seq<Prefix>)
      ensures ok <==> AllParse(lo.syntax, ss)
      ensures ok ==> ips == Usable(Parsed(lo.syntax, ss), lo.hasIPv6)
    {
      ips := [];
      for i := 0 to |ss|
        invariant AllParse(lo.syntax, ss[..i]) && ips == Usable(Parsed(lo.syntax, ss[..i]), lo.hasIPv6)
      {
        var prefix := lo.syntax.parse(ss[i]);
        if prefix.None? { return false, ips; }
        assert ss[..i + 1] == ss[..i] + [ss[i]];
        ParsedAppend(lo.syntax, ss[..i], ss[i]);
        UsableAppend(Parsed(lo.syntax, ss[..i]), prefix.value, lo.hasIPv6);
        if prefix.value.is6 && !lo.hasIPv6 { continue; }
        ips := ips + [prefix.value];
      }
      assert ss[..|ss|] == ss;
      ok := true;
    }

    method AddNew(p: PeerConfig, w: World) returns (ok: bool)
      requires Valid()
      modifies this`created, connMgr.lazy, connMgr.store
      ensures Valid() && Outcome(View(), ok) == AddNewPeer(lo, w, old(View()), p)
    {
      if p.key in connMgr.store.peerConns { return true; }
      var parsed, ips := UsableIPs(p.allowedIPs);
      if !parsed || ips == [] || p.key in w.refused { return false; }
      var conn := Conn(ConnId(p.key, created), p.version, ips);
      created := created + 1;
      var dup := connMgr.AddPeerConn(conn, lo.supports(p.version), p.key !in w.deaf);
      ok := !dup;
    }

    method AddNewPeers(ps: seq<PeerConfig>, w: World) returns (ok: bool)
      requires Valid()
      modifies this`created, connMgr.lazy, connMgr.store
      ensures Valid() && Outcome(View(), ok) == AddEach(lo, w, old(View()), ps)
    {
      var i := 0;
      assert ps[0..] == ps;
      while i < |ps|
        invariant 0 <= i <= |ps| && Valid()
        invariant AddEach(lo, w, View(), ps[i..]) == AddEach(lo, w, old(View()), ps)
      {
        assert ps[i..][1..] == ps[i + 1..];
        ok := AddNew(ps[i], w);
        if !ok { return; }
        i := i + 1;
      }
      assert ps[i..] == [];
      ok := true;
    }

    method PeerChanged(p: PeerConfig) returns (changed: bool)
      requires Valid()
      ensures changed <==> Changed(lo, connMgr.View(), p)
    {
      if p.key !in connMgr.store.peerConns { return false; }
      var current := connMgr.store.peerConns[p.key];
      if current.version != p.version { return true; }
      var filtered := FilterAllowedIPs(lo.syntax, p.allowedIPs, lo.hasIPv6);
      var same := CompareNetIPLists(lo.syntax, current.allowedIPs, filtered);
      changed := !same;
    }

    /** The known peers whose version or usable addresses changed. */
    method FindModified(ps: seq<PeerConfig>) returns (modified: seq<PeerConfig>)
      requires Valid()
      ensures modified == ChangedOnes(lo, connMgr.View(), ps)
    {
      modified := [];
      assert ps[0..] == ps;
      for i := 0 to |ps|
        invariant modified + ChangedOnes(lo, connMgr.View(), ps[i..]) == ChangedOnes(lo, connMgr.View(), ps)
      {
        assert ps[i..][1..] == ps[i + 1..];
        var changed := PeerChanged(ps[i]);
        if changed {
          modified := modified + [ps[i]];
        }
      }
      assert ps[|ps|..] == [];
    }

    static method PeerKeys(ps: seq<PeerConfig>) returns (keys: seq<string>)
      ensures keys == KeysOf(ps)
    {
      keys := [];
      assert ps[0..] == ps;
      for i := 0 to |ps|
        invariant keys + KeysOf(ps[i..]) == KeysOf(ps)
      {
        assert ps[i..][1..] == ps[i + 1..];
        keys := keys + [ps[i].key];
      }
      assert ps[|ps|..] == [];
    }

    method Modify(ps: seq<PeerConfig>, w: World) returns (ok: bool)
      requires Valid()
      modifies this`created, connMgr.lazy, connMgr.store
      ensures Valid() && Outcome(View(), ok) == ModifyPeers(lo, w, old(View()), ps)
    {
      var modified := FindModified(ps);
      var keys := PeerKeys(modified);
      RemoveListed(keys);
      ok := AddNewPeers(modified, w);
    }

    method Sync(m: NetworkMap, w: World) returns (ok: bool, listing: seq<string>)
      requires Valid()
      modifies this`created, connMgr.lazy, connMgr.store
      ensures Valid() && Lists(listing, old(View()).mgr.store.Keys)
      ensures Outcome(View(), ok) == SyncPeers(lo, w, old(View()), m, listing)
    {
      listing := Enumerate(connMgr.store.peerConns.Keys);
      var ps := OtherPeers(m.peers);
      if m.cleanup {
        RemoveListed(listing);
        return true, listing;
      }
      var keys := PeerKeys(ps);
      var gone := SliceDiff(listing, keys);
      RemoveListed(gone);
      ok := Modify(ps, w);
      if ok {
        ok := AddNewPeers(ps, w);
      }
    }

    method OtherPeers(peers: seq<PeerConfig>) returns (ps: seq<PeerConfig>)
      ensures ps == Others(lo.key, peers)
    {
      ps := [];
      assert peers[0..] == peers;
      for i := 0 to |peers|
        invariant ps + Others(lo.key, peers[i..]) == Others(lo.key, peers)
      {
        assert peers[i..][1..] == peers[i + 1..];
        if peers[i].key != lo.key {
          ps := ps + [peers[i]];
        }
      }
      assert peers[|peers|..] == [];
    }

    method UpdateNetworkMap(m: NetworkMap, w: World) returns (ok: bool, listing: seq<string>)
      requires Valid()
      modifies this, connMgr, connMgr.lazy, connMgr.store
      ensures Valid() && Lists(listing, old(View()).mgr.store.Keys)
      ensures Outcome(View(), ok) == Update(lo, w, old(View()), m, listing)
    {
      listing := Enumerate(connMgr.store.peerConns.Keys);
      if networkSerial > m.serial { return true, listing; }
      connMgr.UpdatedRemoteFeatureFlag(m.lazyEnabled);
      ok, listing := Sync(m, w);
      if !ok { return; }
      var ps := OtherPeers(m.peers);
      connMgr.SetExcludeList(ExcludedPeers(m.forwards, ps));
      networkSerial := m.serial;
    }
  }

  lemma {:induction false} UsableAppend(ps: seq<Prefix>, p: Prefix, hasIPv6: bool)
    ensures Usable(ps + [p], hasIPv6) == Usable(ps, hasIPv6) + if p.is6 && !hasIPv6 then [] else [p]
  {
    if ps == [] {
      assert ([] + [p])[1..] == [];
    } else {
      assert (ps + [p])[1..] == ps[1..] + [p];
      UsableAppend(ps[1..], p, hasIPv6);
    }
  }
}
