/** The connection manager and the objects it drives, each method proved to take the step
    that LazyConn defines. */
module ConnManager {
  import opened Basics
  import opened LazyConn

  class PeerStore {
    var peerConns: map<string, Conn>
    var open: set<ConnId>

    constructor ()
      ensures peerConns == map[] && open == {}
    {
      peerConns, open := map[], {};
    }

    method PeerConnOpen(k: string)
      modifies this`open
      ensures open == if k in peerConns then old(open) + {peerConns[k].id} else old(open)
    {
      if k in peerConns { open := open + {peerConns[k].id}; }
    }

    method PeerConnClose(k: string)
      modifies this`open
      ensures open == if k in peerConns then old(open) - {peerConns[k].id} else old(open)
    {
      if k in peerConns { open := open - {peerConns[k].id}; }
    }
  }

  /** What a managed peer is waiting for: traffic that should open it, or silence that
      should close it. */
  datatype Watcher = Activity | Inactivity

  /** Peers leave the manager one by one. */
  function ForgetEach(lz: Lazy, order: seq<string>): Lazy {
    if order == [] then lz else Forget(ForgetEach(lz, order[..|order| - 1]), order[|order| - 1])
  }

  lemma ForgetInStep(lz: Lazy, k: string)
    requires InStep(lz)
    ensures InStep(Forget(lz, k))
  {
  }

  lemma ForgetOneMore(lz: Lazy, ks: set<string>, k: string)
    requires InStep(lz)
    ensures Forget(ForgetAll(lz, ks), k) == ForgetAll(lz, ks + {k})
  {
    var a, b := Forget(ForgetAll(lz, ks), k), ForgetAll(lz, ks + {k});
    assert a.managed == b.managed;
    assert a.known == b.known && a.active == b.active;
  }

  /** The order in which they leave does not matter. */
  lemma {:induction false} ForgetEachIsForgetAll(lz: Lazy, order: seq<string>)
    requires InStep(lz)
    ensures ForgetEach(lz, order) == ForgetAll(lz, Elems(order))
  {
    if order == [] {
      assert lz.managed - {} == lz.managed && lz.known - {} == lz.known && lz.active - {} == lz.active;
    } else {
      var pre, k := order[..|order| - 1], order[|order| - 1];
      ForgetEachIsForgetAll(lz, pre);
      ForgetOneMore(lz, Elems(pre), k);
      assert Elems(order) == Elems(pre) + {k};
    }
  }

  /** addActivePeer. */
  function Adopt(lz: Lazy, c: Conn): Lazy {
    if c.id.key in lz.managed then lz
    else lz.(managed := lz.managed[c.id.key := c], known := lz.known + {c.id}, active := lz.active + {c.id})
  }

  function AdoptEach(lz: Lazy, from: map<string, Conn>, order: seq<string>): Lazy
    requires forall k :: k in order ==> k in from
  {
    if order == [] then lz else Adopt(AdoptEach(lz, from, order[..|order| - 1]), from[order[|order| - 1]])
  }

  lemma IdsInsert(n: map<string, Conn>, k: string, c: Conn)
    requires k !in n
    ensures Ids(n[k := c]) == Ids(n) + {c.id}
  {
    var n' := n[k := c];
    assert n'[k] == c;
    forall id | id in Ids(n) ensures id in Ids(n') {
      var j :| j in n && n[j].id == id;
      assert n'[j].id == id;
    }
  }

  lemma AdoptOneMore(lz: Lazy, back: map<string, Conn>, k: string, c: Conn)
    requires k !in back && c.id.key == k
    ensures Adopt(AdoptAll(lz, back), c) == AdoptAll(lz, back[k := c])
  {
    var n, n' := back - lz.managed.Keys, back[k := c] - lz.managed.Keys;
    if k in lz.managed {
      assert n' == n;
    } else {
      assert n' == n[k := c];
      IdsInsert(n, k, c);
      assert lz.managed + n' == (lz.managed + n)[k := c];
      assert lz.known + Ids(n') == lz.known + Ids(n) + {c.id};
      assert lz.active + Ids(n') == lz.active + Ids(n) + {c.id};
    }
  }

  /** The part of a map that has been visited. */
  function Visited(m: map<string, Conn>, done: set<string>): map<string, Conn> {
    m - (m.Keys - done)
  }

  lemma AdoptNobody(lz: Lazy, from: map<string, Conn>)
    ensures AdoptAll(lz, Visited(from, {})) == lz
  {
    assert Visited(from, {}) - lz.managed.Keys == map[] && lz.managed + map[] == lz.managed;
    assert lz.known + {} == lz.known && lz.active + {} == lz.active;
  }

  lemma VisitedLast(from: map<string, Conn>, order: seq<string>)
    requires order != [] && order[|order| - 1] in from
    ensures var pre, k := order[..|order| - 1], order[|order| - 1];
            Visited(from, Elems(order)) == Visited(from, Elems(pre))[k := from[k]]
  {
    var pre, k := order[..|order| - 1], order[|order| - 1];
    assert order == pre + [k];
    ElemsAppend(pre, k);
  }

  lemma {:induction false} AdoptEachIsAdoptAll(lz: Lazy, from: map<string, Conn>, order: seq<string>)
    requires Distinct(order) && forall k :: k in order ==> k in from && from[k].id.key == k
    ensures AdoptEach(lz, from, order) == AdoptAll(lz, Visited(from, Elems(order)))
  {
    if order == [] {
      AdoptNobody(lz, from);
    } else {
      var pre, k := order[..|order| - 1], order[|order| - 1];
      AdoptEachIsAdoptAll(lz, from, pre);
      AdoptOneMore(lz, Visited(from, Elems(pre)), k, from[k]);
      VisitedLast(from, order);
    }
  }

  lemma AdoptListed(lz: Lazy, from: map<string, Conn>, but: set<string>, order: seq<string>)
    requires Lists(order, from.Keys - but) && forall k :: k in from ==> from[k].id.key == k
    ensures AdoptEach(lz, from, order) == AdoptAll(lz, from - but)
  {
    AdoptEachIsAdoptAll(lz, from, order);
    assert Elems(order) == from.Keys - but;
    assert Visited(from, Elems(order)) == from - but;
  }

  class LazyManager {
    const store: PeerStore
    var managedPeers: map<string, Conn>
    var byConn: map<ConnId, Watcher>
    var excludes: map<string, Conn>

    ghost function View(): Lazy
      reads this
    {
      Lazy(managedPeers, byConn.Keys, (set c | c in byConn && byConn[c].Inactivity?), excludes)
    }

    constructor (store: PeerStore)
      ensures View() == NO_PEERS && this.store == store
    {
      this.store := store;
      managedPeers, byConn, excludes := map[], map[], map[];
    }

    method RemoveManaged(k: string)
      requires InStep(View())
      modifies this`managedPeers, this`byConn
      ensures View() == Forget(old(View()), k)
    {
      if k !in managedPeers { return; }
      byConn := byConn - {managedPeers[k].id};
      managedPeers := managedPeers - {k};
      assert View().active == old(View()).active - {old(managedPeers)[k].id};
    }

    method AddActivePeer(c: Conn)
      modifies this`managedPeers, this`byConn
      ensures View() == Adopt(old(View()), c)
    {
      if c.id.key in managedPeers { return; }
      managedPeers := managedPeers[c.id.key := c];
      byConn := byConn[c.id := Inactivity];
      assert View().active == old(View()).active + {c.id};
    }

    /** AddPeer: says whether the peer is excluded or its listener could not be created. */
    method AddPeer(c: Conn, monitorOk: bool) returns (excluded: bool, err: bool)
      modifies this`managedPeers, this`byConn
      ensures excluded <==> c.id.key in old(excludes)
      ensures err <==> !excluded && c.id.key !in old(managedPeers) && !monitorOk
      ensures View() == var lz := old(View());
                if excluded || err || c.id.key in lz.managed then lz
                else lz.(managed := lz.managed[c.id.key := c], known := lz.known + {c.id}, active := lz.active - {c.id})
    {
      if c.id.key in excludes { return true, false; }
      if c.id.key in managedPeers { return false, false; }
      if !monitorOk { return false, true; }
      managedPeers := managedPeers[c.id.key := c];
      byConn := byConn[c.id := Activity];
      assert View().active == old(View()).active - {c.id};
      return false, false;
    }

    /** Newly excluded peers leave the managed list. */
    method MarkExcluded(wanted: map<string, Conn>) returns (added: set<string>)
      requires InStep(View())
      modifies this`managedPeers, this`byConn
      ensures added == wanted.Keys - excludes.Keys && View() == ForgetAll(old(View()), added)
    {
      ghost var lz := View();
      added := wanted.Keys - excludes.Keys;
      var order := Enumerate(added);
      for i := 0 to |order|
        invariant View() == ForgetEach(lz, order[..i]) && InStep(View())
      {
        ForgetInStep(View(), order[i]);
        RemoveManaged(order[i]);
        assert order[..i + 1][..i] == order[..i];
      }
      assert order[..|order|] == order;
      assert Elems(order) == added;
      ForgetEachIsForgetAll(lz, order);
    }

    /** Peers no longer excluded are managed again, taken to be connected. */
    method ReturnExcluded(wanted: map<string, Conn>)
      requires forall k :: k in excludes ==> excludes[k].id.key == k
      modifies this`managedPeers, this`byConn
      ensures View() == AdoptAll(old(View()), excludes - wanted.Keys)
    {
      ghost var lz := View();
      var order := Enumerate(excludes.Keys - wanted.Keys);
      for i := 0 to |order|
        invariant forall k :: k in order[..i] ==> k in order && k in excludes
        invariant View() == AdoptEach(lz, excludes, order[..i])
      {
        assert order[i] in order;
        AddActivePeer(excludes[order[i]]);
        assert order[..i + 1][..i] == order[..i];
      }
      assert order[..|order|] == order;
      AdoptListed(lz, excludes, wanted.Keys, order);
    }

    /** Marks peers for a permanent connection; returns the newly marked ones. */
    method ExcludePeer(wanted: map<string, Conn>) returns (added: set<string>)
      requires InStep(View())
      modifies this
      ensures added == wanted.Keys - old(excludes).Keys
      ensures View() == AdoptAll(ForgetAll(old(View()), added), old(excludes) - wanted.Keys).(excludes := wanted)
    {
      added := MarkExcluded(wanted);
      ReturnExcluded(wanted);
      excludes := wanted;
    }

    method ActivatePeer(k: string) returns (found: bool)
      modifies this`byConn
      ensures found <==> k in managedPeers && AwaitsTraffic(old(View()), managedPeers[k].id)
      ensures View() == if found then old(View()).(active := old(View()).active + {managedPeers[k].id}) else old(View())
    {
      if k !in managedPeers { return false; }
      var id := managedPeers[k].id;
      if id !in byConn || byConn[id] == Inactivity { return false; }
      byConn := byConn[id := Inactivity];
      assert View().active == old(View()).active + {id};
      found := true;
    }

    method DeactivatePeer(id: ConnId)
      modifies this`byConn, store`open
      ensures var idle := AwaitsSilence(old(View()), id);
              && View() == (if idle then old(View()).(active := old(View()).active - {id}) else old(View()))
              && store.open == (if idle && id.key in store.peerConns 
                                then old(store.open) - {store.peerConns[id.key].id} else old(store.open))
    {
      if id !in byConn || byConn[id] != Inactivity { return; }
      store.PeerConnClose(id.key);
      byConn := byConn[id := Activity];
      assert View().active == old(View()).active - {id};
    }
  }

  class ConnMgr {
    const store: PeerStore
    const enabledLocally: bool
    const rosenpassEnabled: bool
    var lazy: LazyManager?

    ghost predicate Valid()
      reads this, store, lazy
    {
      (lazy != null ==> lazy.store == store) && NobodyForgotten(View())
    }

    ghost function View(): Mgr
      reads this, store, lazy
    {
      Mgr(store.peerConns, store.open, if lazy == null then None else Some(lazy.View()), enabledLocally, rosenpassEnabled)
    }

    constructor (store: PeerStore, enabledLocally: bool, rosenpassEnabled: bool)
      requires store.peerConns == map[]
      ensures Valid() && this.store == store && this.enabledLocally == enabledLocally
      ensures this.rosenpassEnabled == rosenpassEnabled && lazy == null
    {
      this.store, this.enabledLocally, this.rosenpassEnabled, lazy := store, enabledLocally, rosenpassEnabled, null;
    }

    method StartMgr()
      requires Valid()
      modifies this
      ensures Valid() && View() == Start(old(View())) && (lazy == old(lazy) || fresh(lazy))
    {
      StepCovers(View(), LazyConn.StartMgr);
      if lazy != null || !enabledLocally || rosenpassEnabled { return; }
      lazy := new LazyManager(store);
    }

    /** Opens the connections of the given stored peers. */
    method OpenAll(ks: set<string>)
      requires ks <= store.peerConns.Keys
      modifies store`open
      ensures store.open == old(store.open) + set k | k in ks :: store.peerConns[k].id
    {
      var rest := ks;
      while rest != {}
        invariant rest <= ks
        invariant store.open == old(store.open) + set k | k in ks - rest :: store.peerConns[k].id
        decreases |rest|
      {
        var k :| k in rest;
        store.PeerConnOpen(k);
        ghost var done := ks - rest;
        rest := rest - {k};
        assert ks - rest == done + {k};
      }
    }

    /** Hands every stored peer to a manager that knows nobody. */
    method AddPeersToLazyConnManager(lz: LazyManager)
      requires lz.View() == NO_PEERS && forall k :: k in store.peerConns ==> store.peerConns[k].id.key == k
      modifies lz
      ensures lz.View() == AllActive(View())
    {
      var order := Enumerate(store.peerConns.Keys);
      for i := 0 to |order|
        invariant lz.View() == AdoptEach(NO_PEERS, store.peerConns, order[..i])
      {
        assert order[i] in order && order[..i + 1][..i] == order[..i];
        lz.AddActivePeer(store.peerConns[order[i]]);
      }
      assert order[..|order|] == order;
      AdoptListed(NO_PEERS, store.peerConns, {}, order);
      AdoptEveryone(View());
    }

    method UpdatedRemoteFeatureFlag(enabled: bool)
      requires Valid()
      modifies this, store`open
      ensures Valid() && View() == RemoteFlag(old(View()), enabled)
      ensures lazy == null || lazy == old(lazy) || fresh(lazy)
    {
      RemoteFlagCovers(View(), enabled);
      if enabledLocally { return; }
      if enabled {
        if lazy != null || rosenpassEnabled { return; }
        var lz := new LazyManager(store);
        AddPeersToLazyConnManager(lz);
        lazy := lz;
      } else {
        if lazy == null { return; }
        lazy := null;
        OpenAll(store.peerConns.Keys);
        assert Ids(store.peerConns) == set k | k in store.peerConns.Keys :: store.peerConns[k].id;
      }
    }

    /** The stored connections of the listed peers. */
    method StoredAmong(ids: set<string>) returns (found: map<string, Conn>)
      requires Valid()
      ensures found == NewExcludes(View(), ids)
    {
      found := map[];
      var rest := ids;
      while rest != {}
        invariant rest <= ids
        invariant forall k :: k in found <==> k in ids - rest && k in store.peerConns
        invariant forall k :: k in found ==> found[k] == store.peerConns[k]
        decreases |rest|
      {
        var k :| k in rest;
        if k in store.peerConns { found := found[k := store.peerConns[k]]; }
        rest := rest - {k};
      }
    }

    method SetExcludeList(ids: set<string>)
      requires Valid()
      modifies lazy, store`open
      ensures Valid() && View() == SetExcludes(old(View()), ids)
    {
      SetExcludesCovers(View(), ids);
      if lazy == null { return; }
      var excluded := StoredAmong(ids);
      var added := lazy.ExcludePeer(excluded);
      OpenAll(added);
      assert (set k | k in added :: store.peerConns[k].id) == set k | k in added :: excluded[k].id;
    }

    method AddPeerConn(conn: Conn, supported: bool, monitorOk: bool) returns (exists_: bool)
      requires Valid()
      modifies lazy, store
      ensures exists_ <==> conn.id.key in old(store.peerConns)
      ensures Valid() && View() == LazyConn.AddPeer(old(View()), conn.id.key, conn, supported, monitorOk)
    {
      AddPeerCovers(View(), conn, supported, monitorOk);
      var k := conn.id.key;
      if k in store.peerConns { return true; }
      store.peerConns := store.peerConns[k := conn];
      exists_ := false;
      if lazy == null || !supported {
        store.PeerConnOpen(k);
        return;
      }
      var excluded, err := lazy.AddPeer(conn, monitorOk);
      if err || excluded {
        store.PeerConnOpen(k);
      }
    }

    method RemovePeerConn(k: string)
      requires Valid()
      modifies lazy, store
      ensures Valid() && View() == RemovePeer(old(View()), k)
    {
      RemovePeerCovers(View(), k);
      if k !in store.peerConns { return; }
      var conn := store.peerConns[k];
      store.peerConns := store.peerConns - {k};
      if lazy != null {
        lazy.RemoveManaged(k);
      }
      store.open := store.open - {conn.id};
    }

    /** A signal message arrived for a stored peer. */
    method ActivatePeer(k: string)
      requires Valid() && k in store.peerConns
      modifies lazy, store`open
      ensures Valid() && View() == Activate(old(View()), k)
    {
      StepCovers(View(), Signal(k));
      if lazy == null { return; }
      var found := lazy.ActivatePeer(k);
      if found {
        store.PeerConnOpen(k);
      }
    }

    method DeactivatePeer(conn: Conn)
      requires Valid()
      modifies lazy, store`open
      ensures Valid() && View() == Deactivate(old(View()), conn.id)
    {
      IdleCovers(View(), conn.id);
      if lazy == null { return; }
      lazy.DeactivatePeer(conn.id);
    }
  }

  lemma AdoptEveryone(m: Mgr)
    ensures AdoptAll(NO_PEERS, m.store - {}) == AllActive(m)
  {
    assert m.store - {} == m.store && m.store - NO_PEERS.managed.Keys == m.store;
    assert NO_PEERS.managed + m.store == m.store;
  }
}
