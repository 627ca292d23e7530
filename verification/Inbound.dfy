/** Per-account inbound routes (proxy/inbound.go): routes that arrive before the account's
    listener is up are queued and replayed once it is. */
module Inbound {
  import opened Basics
  import opened SniRouter

  datatype Pending = Pending(host: string, route: Route)

  datatype Op = Add(host: string, route: Route) | Remove(host: string, svc: string)

  predicate Same(p: Pending, host: string, svc: string) {
    p.host == host && p.route.service == svc
  }

  /** queuePendingLocked: replaces the entry of the same host and service, or appends. */
  function Queue(q: seq<Pending>, host: string, r: Route): seq<Pending> {
    if q == [] then [Pending(host, r)]
    else if Same(q[0], host, r.service) then [Pending(host, r)] + q[1..]
    else [q[0]] + Queue(q[1..], host, r)
  }

  /** The first slot of the same host and service is replaced in place. */
  lemma {:induction false} QueueAt(q: seq<Pending>, host: string, r: Route, i: nat)
    requires i < |q| && Same(q[i], host, r.service) && forall j :: 0 <= j < i ==> !Same(q[j], host, r.service)
    ensures Queue(q, host, r) == q[i := Pending(host, r)]
    decreases i
  {
    if i > 0 { QueueAt(q[1..], host, r, i - 1); }
  }

  lemma {:induction false} QueueNew(q: seq<Pending>, host: string, r: Route)
    requires forall j :: 0 <= j < |q| ==> !Same(q[j], host, r.service)
    ensures Queue(q, host, r) == q + [Pending(host, r)]
    decreases |q|
  {
    if q != [] { QueueNew(q[1..], host, r); }
  }

  /** dropPendingLocked: hosts are compared as spelled. */
  function Drop(q: seq<Pending>, host: string, svc: string): seq<Pending> {
    if q == [] then []
    else if Same(q[0], host, svc) then Drop(q[1..], host, svc)
    else [q[0]] + Drop(q[1..], host, svc)
  }

  function Replay(t: Table, q: seq<Pending>): Table
    decreases |q|
  {
    if q == [] then t else Replay(AddRoute(t, q[0].host, q[0].route), q[1..])
  }

  function ApplyTo(t: Table, op: Op): Table {
    match op
    case Add(host, r) => AddRoute(t, host, r)
    case Remove(host, svc) => RemoveRoute(t, host, svc)
  }

  function ApplyAll(t: Table, ops: seq<Op>): Table
    decreases |ops|
  {
    if ops == [] then t else ApplyAll(ApplyTo(t, ops[0]), ops[1..])
  }

  function Defer(q: seq<Pending>, op: Op): seq<Pending> {
    match op
    case Add(host, r) => Queue(q, host, r)
    case Remove(host, svc) => Drop(q, host, svc)
  }

  function DeferAll(q: seq<Pending>, ops: seq<Op>): seq<Pending>
    decreases |ops|
  {
    if ops == [] then q else DeferAll(Defer(q, ops[0]), ops[1..])
  }

  // ----- The queue never holds a key twice -----

  ghost predicate KeysDistinct(q: seq<Pending>) {
    forall i, j :: 0 <= i < j < |q| ==> !Same(q[j], q[i].host, q[i].route.service)
  }

  lemma {:induction false} QueueKeys(q: seq<Pending>, host: string, r: Route)
    requires KeysDistinct(q)
    ensures KeysDistinct(Queue(q, host, r))
    ensures forall p :: p in Queue(q, host, r) ==> p == Pending(host, r) || (p in q && !Same(p, host, r.service))
  {
    if q != [] {
      if Same(q[0], host, r.service) {
        assert forall p :: p in q[1..] ==> !Same(p, q[0].host, q[0].route.service);
      } else {
        QueueKeys(q[1..], host, r);
        assert forall p :: p in q[1..] ==> !Same(p, q[0].host, q[0].route.service);
        assert forall p :: p in Queue(q[1..], host, r) ==> !Same(p, q[0].host, q[0].route.service);
      }
    }
  }

  lemma {:induction false} DropKeys(q: seq<Pending>, host: string, svc: string)
    requires KeysDistinct(q)
    ensures KeysDistinct(Drop(q, host, svc))
    ensures forall p :: p in Drop(q, host, svc) <==> p in q && !Same(p, host, svc)
  {
    if q != [] {
      DropKeys(q[1..], host, svc);
      assert forall p :: p in q <==> p == q[0] || p in q[1..];
      assert forall p :: p in q[1..] ==> !Same(p, q[0].host, q[0].route.service);
    }
  }

  /** Over every run the queue holds at most one entry per host and service. */
  lemma {:induction false} DeferAllKeys(q: seq<Pending>, ops: seq<Op>)
    requires KeysDistinct(q)
    ensures KeysDistinct(DeferAll(q, ops))
    decreases |ops|
  {
    if ops != [] {
      match ops[0] {
        case Add(host, r) => QueueKeys(q, host, r);
        case Remove(host, svc) => DropKeys(q, host, svc);
      }
      DeferAllKeys(Defer(q, ops[0]), ops[1..]);
    }
  }

  // ----- What a replay builds -----

  /** The queued routes of one lower-cased host, in queue order. */
  function AtHost(q: seq<Pending>, h: string): seq<Route> {
    if q == [] then []
    else if Lower(q[0].host) == h then [q[0].route] + AtHost(q[1..], h)
    else AtHost(q[1..], h)
  }

  /** Inserts a list of routes one by one. */
  function Collapse(rs: seq<Route>, more: seq<Route>): seq<Route>
    decreases |more|
  {
    if more == [] then rs else Collapse(Upsert(rs, more[0]), more[1..])
  }

  lemma UpsertNonEmpty(rs: seq<Route>, r: Route)
    ensures Upsert(rs, r) != []
  {
  }

  lemma AddRouteAt(t: Table, host: string, r: Route, h: string)
    requires WellFormed(t)
    ensures WellFormed(AddRoute(t, host, r))
    ensures RoutesFor(AddRoute(t, host, r), h) ==
            if h != "" && h == Lower(host) then Upsert(RoutesFor(t, h), r) else RoutesFor(t, h)
  {
    UpsertNonEmpty(RoutesFor(t, Lower(host)), r);
  }

  lemma RemoveRouteAt(t: Table, host: string, svc: string, h: string)
    requires WellFormed(t)
    ensures WellFormed(RemoveRoute(t, host, svc))
    ensures RoutesFor(RemoveRoute(t, host, svc), h) == if h == Lower(host) then Without(RoutesFor(t, h), svc) else RoutesFor(t, h)
  {
  }

  lemma {:induction false} ReplayAt(t: Table, q: seq<Pending>, h: string)
    requires WellFormed(t)
    ensures WellFormed(Replay(t, q)) && Replay(t, q).fallback == t.fallback
    ensures RoutesFor(Replay(t, q), h) == if h == "" then RoutesFor(t, "") else Collapse(RoutesFor(t, h), AtHost(q, h))
    decreases |q|
  {
    if q != [] {
      AddRouteAt(t, q[0].host, q[0].route, h);
      ReplayAt(AddRoute(t, q[0].host, q[0].route), q[1..], h);
      assert Lower(q[0].host) == h ==> AtHost(q, h)[1..] == AtHost(q[1..], h);
      assert Lower(q[0].host) != h ==> AtHost(q, h) == AtHost(q[1..], h);
    }
  }

  /** Tables are determined by their per-host lists. */
  lemma SameTable(t: Table, t': Table)
    requires WellFormed(t) && WellFormed(t') && t.fallback == t'.fallback
    requires forall h :: RoutesFor(t, h) == RoutesFor(t', h)
    ensures t == t'
  {
    assert forall h :: h in t.routes <==> RoutesFor(t, h) != [];
    assert forall h :: h in t'.routes <==> RoutesFor(t', h) != [];
    assert forall h :: h in t.routes ==> t.routes[h] == RoutesFor(t, h);
    assert forall h :: h in t'.routes ==> t'.routes[h] == RoutesFor(t', h);
    assert t.routes == t'.routes;
  }

  // ----- Lists of routes of one host -----

  /** The last route of the service in a list. */
  function LastIn(rs: seq<Route>, svc: string): Option<Route> {
    if rs == [] then None
    else if rs[|rs| - 1].service == svc then Some(rs[|rs| - 1])
    else LastIn(rs[..|rs| - 1], svc)
  }

  lemma {:induction false} LastInCons(r: Route, rs: seq<Route>, svc: string)
    ensures LastIn([r] + rs, svc) ==
            if LastIn(rs, svc).Some? then LastIn(rs, svc) else if r.service == svc then Some(r) else None
    decreases |rs|
  {
    var all := [r] + rs;
    if rs == [] {
      assert all[..0] == [];
    } else {
      assert all[..|all| - 1] == [r] + rs[..|rs| - 1];
      LastInCons(r, rs[..|rs| - 1], svc);
    }
  }

  /** A later route of the same service wins. */
  lemma {:induction false} UpsertTwice(rs: seq<Route>, x: Route, r: Route)
    requires x.service == r.service
    ensures Upsert(Upsert(rs, x), r) == Upsert(rs, r)
  {
    if rs != [] && rs[0].service != r.service { UpsertTwice(rs[1..], x, r); }
  }

  /** Updating a service that is present commutes with inserting another. */
  lemma {:induction false} UpsertSwap(rs: seq<Route>, x: Route, r: Route)
    requires x.service != r.service && FindIn(rs, r.service).Some?
    ensures Upsert(Upsert(rs, r), x) == Upsert(Upsert(rs, x), r)
  {
    if rs[0].service != r.service && rs[0].service != x.service { UpsertSwap(rs[1..], x, r); }
  }

  lemma {:induction false} UpsertSameIff(rs: seq<Route>, r: Route)
    ensures Upsert(rs, r) == rs <==> FindIn(rs, r.service) == Some(r)
  {
    if rs != [] {
      UpsertSameIff(rs[1..], r);
      assert rs == [rs[0]] + rs[1..];
      if rs[0].service == r.service {
        assert ([r] + rs[1..])[0] == r;
      } else {
        assert ([rs[0]] + Upsert(rs[1..], r))[1..] == Upsert(rs[1..], r);
      }
    }
  }

  /** What one service ends with after a list of routes is inserted one by one. */
  lemma {:induction false} FindInCollapse(rs: seq<Route>, more: seq<Route>, svc: string)
    ensures FindIn(Collapse(rs, more), svc) == if LastIn(more, svc).Some? then LastIn(more, svc) else FindIn(rs, svc)
    decreases |more|
  {
    if more != [] {
      FindInUpsert(rs, more[0], svc);
      FindInCollapse(Upsert(rs, more[0]), more[1..], svc);
      assert more == [more[0]] + more[1..];
      LastInCons(more[0], more[1..], svc);
    }
  }

  /** A route set early is only seen at the end if nothing later belongs to its service. */
  lemma {:induction false} CollapseEarly(rs: seq<Route>, r: Route, more: seq<Route>)
    requires FindIn(rs, r.service).Some?
    ensures Collapse(Upsert(rs, r), more) ==
            if LastIn(more, r.service).Some? then Collapse(rs, more) else Upsert(Collapse(rs, more), r)
    decreases |more|
  {
    if more != [] {
      var x, rest := more[0], more[1..];
      assert more == [x] + rest;
      LastInCons(x, rest, r.service);
      if x.service == r.service {
        UpsertTwice(rs, r, x);
      } else {
        UpsertSwap(rs, x, r);
        FindInUpsert(rs, x, r.service);
        CollapseEarly(Upsert(rs, x), r, rest);
      }
    }
  }

  // ----- Exactly when a deferred addition is right -----

  lemma AtHostCons(p: Pending, q: seq<Pending>, h: string)
    ensures AtHost([p] + q, h) == if Lower(p.host) == h then [p.route] + AtHost(q, h) else AtHost(q, h)
  {
    assert ([p] + q)[1..] == q;
  }

  /** The slots behind the one of this host, as spelled, and service. */
  function Behind(q: seq<Pending>, host: string, svc: string): seq<Pending> {
    if q == [] then [] else if Same(q[0], host, svc) then q[1..] else Behind(q[1..], host, svc)
  }

  /** Whether queueing an addition is as good as making it: its slot is new, or the last slot behind it for the same
      host, in any spelling, and service has the same route or does not exist. */
  predicate AddsRight(q: seq<Pending>, host: string, r: Route) {
    host != "" ==>
      var last := LastIn(AtHost(Behind(q, host, r.service), Lower(host)), r.service);
      last.None? || last.value == r
  }

  lemma LowerEmpty(s: string)
    ensures Lower(s) == "" <==> s == ""
  {
    assert |Lower(s)| == |s|;
  }

  lemma {:induction false} QueueElsewhere(q: seq<Pending>, host: string, r: Route, h: string)
    requires h != Lower(host)
    ensures AtHost(Queue(q, host, r), h) == AtHost(q, h)
  {
    if q == [] {
      AtHostCons(Pending(host, r), [], h);
    } else if Same(q[0], host, r.service) {
      AtHostCons(Pending(host, r), q[1..], h);
    } else {
      QueueElsewhere(q[1..], host, r, h);
      AtHostCons(q[0], Queue(q[1..], host, r), h);
    }
  }

  lemma CollapseCons(rs: seq<Route>, r: Route, more: seq<Route>)
    ensures Collapse(rs, [r] + more) == Collapse(Upsert(rs, r), more)
  {
    assert ([r] + more)[1..] == more;
  }

  lemma {:induction false} QueueHereIff(rs: seq<Route>, q: seq<Pending>, host: string, r: Route)
    requires host != ""
    ensures Collapse(rs, AtHost(Queue(q, host, r), Lower(host))) == Upsert(Collapse(rs, AtHost(q, Lower(host))), r) <==>
            AddsRight(q, host, r)
    decreases |q|
  {
    var h := Lower(host);
    if q == [] {
      AtHostCons(Pending(host, r), [], h);
      CollapseCons(rs, r, []);
    } else if Same(q[0], host, r.service) {
      SlotIff(rs, q, host, r);
    } else {
      AtHostCons(q[0], Queue(q[1..], host, r), h);
      if Lower(q[0].host) == h {
        CollapseCons(rs, q[0].route, AtHost(Queue(q[1..], host, r), h));
        CollapseCons(rs, q[0].route, AtHost(q[1..], h));
        QueueHereIff(Upsert(rs, q[0].route), q[1..], host, r);
      } else {
        QueueHereIff(rs, q[1..], host, r);
      }
    }
  }

  lemma SlotIff(rs: seq<Route>, q: seq<Pending>, host: string, r: Route)
    requires host != "" && q != [] && Same(q[0], host, r.service)
    ensures Collapse(rs, AtHost(Queue(q, host, r), Lower(host))) == Upsert(Collapse(rs, AtHost(q, Lower(host))), r) <==>
            AddsRight(q, host, r)
  {
    var h, x, more := Lower(host), q[0].route, AtHost(q[1..], Lower(host));
    AtHostCons(Pending(host, r), q[1..], h);
    CollapseCons(rs, r, more);
    CollapseCons(rs, x, more);
    var base := Upsert(rs, x);
    UpsertTwice(rs, x, r);
    FindInUpsert(rs, x, r.service);
    CollapseEarly(base, r, more);
    FindInCollapse(base, more, r.service);
    UpsertSameIff(Collapse(base, more), r);
  }

  /** An addition before the listener is up has the effect of an addition after it if and only if its slot is new, or no
      slot behind it for the same host, in any spelling, and service ends with another route. */
  lemma DeferredAddIff(q: seq<Pending>, host: string, r: Route)
    ensures Replay(EMPTY_TABLE, Queue(q, host, r)) == AddRoute(Replay(EMPTY_TABLE, q), host, r) <==> AddsRight(q, host, r)
  {
    var t, t' := Replay(EMPTY_TABLE, q), Replay(EMPTY_TABLE, Queue(q, host, r));
    var d, h := AddRoute(t, host, r), Lower(host);
    LowerEmpty(host);
    ReplayAt(EMPTY_TABLE, q, h);
    ReplayAt(EMPTY_TABLE, Queue(q, host, r), h);
    AddRouteAt(t, host, r, h);
    if host != "" { QueueHereIff([], q, host, r); }
    if AddsRight(q, host, r) {
      forall k ensures RoutesFor(t', k) == RoutesFor(d, k) {
        ReplayAt(EMPTY_TABLE, q, k);
        ReplayAt(EMPTY_TABLE, Queue(q, host, r), k);
        AddRouteAt(t, host, r, k);
        if k != h { QueueElsewhere(q, host, r, k); }
      }
      SameTable(t', d);
    } else {
      assert RoutesFor(t', h) != RoutesFor(d, h);
    }
  }

  lemma ApplyThree(t: Table, a: Op, b: Op, c: Op)
    ensures ApplyAll(t, [a, b, c]) == ApplyTo(ApplyTo(ApplyTo(t, a), b), c)
  {
    assert [a, b, c][1..] == [b, c] && [b, c][1..] == [c] && [c][1..] == [];
    var t2 := ApplyTo(ApplyTo(t, a), b);
    assert ApplyAll(t2, [c]) == ApplyAll(ApplyTo(t2, c), []);
  }

  lemma DeferThree(q: seq<Pending>, a: Op, b: Op, c: Op)
    ensures DeferAll(q, [a, b, c]) == Defer(Defer(Defer(q, a), b), c)
  {
    assert [a, b, c][1..] == [b, c] && [b, c][1..] == [c] && [c][1..] == [];
    var q2 := Defer(Defer(q, a), b);
    assert DeferAll(q2, [c]) == DeferAll(Defer(q2, c), []);
  }

  lemma TwoSlots(p: Pending, p': Pending, h: string, svc: string)
    requires Lower(p.host) == h && Lower(p'.host) == h && p'.route.service == svc
    ensures LastIn(AtHost([p, p'], h), svc) == Some(p'.route)
  {
    assert [p, p'] == [p] + [p'] && [p'] == [p'] + [];
    AtHostCons(p, [p'], h);
    AtHostCons(p', [], h);
    LastInCons(p.route, [p'.route], svc);
    LastInCons(p'.route, [], svc);
    assert [p'.route] + [] == [p'.route];
  }

  /** Three additions of one service under two spellings of a host: direct, the last one wins; deferred, the second. */
  lemma TwoSpellingsOfAnAddition(a: string, b: string, r0: Route, r1: Route, r2: Route)
    requires a != b && Lower(a) == Lower(b) && r0.service == r1.service == r2.service && r1 != r2
    ensures var ops := [Add(a, r0), Add(b, r1), Add(a, r2)];
            && Find(ApplyAll(EMPTY_TABLE, ops), Lower(a), r0.service) == Some(r2)
            && Find(Replay(EMPTY_TABLE, DeferAll([], ops)), Lower(a), r0.service) == Some(r1)
  {
    var h, svc := Lower(a), r0.service;
    LowerEmpty(a);
    LowerEmpty(b);
    DeferThree([], Add(a, r0), Add(b, r1), Add(a, r2));
    ApplyThree(EMPTY_TABLE, Add(a, r0), Add(b, r1), Add(a, r2));
    var q := [Pending(a, r2), Pending(b, r1)];
    assert Queue(Queue([Pending(a, r0)], b, r1), a, r2) == q;
    ReplayAt(EMPTY_TABLE, q, h);
    TwoSlots(q[0], q[1], h, svc);
    FindInCollapse([], AtHost(q, h), svc);
    FindAddRoute(AddRoute(AddRoute(EMPTY_TABLE, a, r0), b, r1), a, r2, h, svc);
  }

  // ----- Exactly when a deferred removal is right -----

  lemma {:induction false} AtHostDrop(q: seq<Pending>, host: string, svc: string, h: string)
    requires forall p :: p in q && Lower(p.host) == Lower(host) && p.route.service == svc ==> p.host == host
    ensures AtHost(Drop(q, host, svc), h) == if h == Lower(host) then Without(AtHost(q, h), svc) else AtHost(q, h)
  {
    if q != [] {
      AtHostDrop(q[1..], host, svc, h);
      AtHostCons(q[0], Drop(q[1..], host, svc), h);
      assert q[0] in q;
    }
  }

  lemma {:induction false} WithoutUpsert(rs: seq<Route>, r: Route, svc: string)
    ensures Without(Upsert(rs, r), svc) == if r.service == svc then Without(rs, svc) else Upsert(Without(rs, svc), r)
  {
    if rs != [] {
      WithoutUpsert(rs[1..], r, svc);
    }
  }

  lemma {:induction false} WithoutCollapse(rs: seq<Route>, more: seq<Route>, svc: string)
    ensures Without(Collapse(rs, more), svc) == Collapse(Without(rs, svc), Without(more, svc))
    decreases |more|
  {
    if more != [] {
      WithoutUpsert(rs, more[0], svc);
      WithoutCollapse(Upsert(rs, more[0]), more[1..], svc);
      assert more[0].service != svc ==> ([more[0]] + Without(more[1..], svc))[1..] == Without(more[1..], svc);
    }
  }

  lemma {:induction false} CollapseKeeps(rs: seq<Route>, more: seq<Route>, svc: string)
    requires FindIn(rs, svc).Some? || exists r :: r in more && r.service == svc
    ensures FindIn(Collapse(rs, more), svc).Some?
    decreases |more|
  {
    if more != [] {
      FindInUpsert(rs, more[0], svc);
      assert forall r :: r in more ==> r == more[0] || r in more[1..];
      CollapseKeeps(Upsert(rs, more[0]), more[1..], svc);
    }
  }

  lemma {:induction false} AtHostMember(q: seq<Pending>, p: Pending)
    requires p in q
    ensures p.route in AtHost(q, Lower(p.host))
  {
    if p != q[0] {
      AtHostMember(q[1..], p);
    }
  }

  /** Whether dropping a queued route is as good as removing it: no slot has the host in another spelling. */
  ghost predicate RemovesRight(q: seq<Pending>, host: string, svc: string) {
    forall p :: p in q && Lower(p.host) == Lower(host) && p.route.service == svc ==> p.host == host
  }

  lemma {:induction false} DropMembers(q: seq<Pending>, host: string, svc: string)
    ensures forall p :: p in Drop(q, host, svc) <==> p in q && !Same(p, host, svc)
  {
    if q != [] {
      DropMembers(q[1..], host, svc);
      assert forall p :: p in q <==> p == q[0] || p in q[1..];
    }
  }

  /** A removal before the listener is up has the effect of a removal after it if and only if
      the service is not queued under another spelling of the host: the queue compares hosts
      as spelled, the router in lower case. */
  lemma DeferredRemoveIff(q: seq<Pending>, host: string, svc: string)
    ensures Replay(EMPTY_TABLE, Drop(q, host, svc)) == RemoveRoute(Replay(EMPTY_TABLE, q), host, svc) <==>
            RemovesRight(q, host, svc)
  {
    var t, t' := Replay(EMPTY_TABLE, q), Replay(EMPTY_TABLE, Drop(q, host, svc));
    ReplayAt(EMPTY_TABLE, q, "");
    ReplayAt(EMPTY_TABLE, Drop(q, host, svc), "");
    RemoveRouteAt(t, host, svc, "");
    if p :| p in q && Lower(p.host) == Lower(host) && p.route.service == svc && p.host != host {
      var h := Lower(host);
      DropMembers(q, host, svc);
      AtHostMember(Drop(q, host, svc), p);
      ReplayAt(EMPTY_TABLE, Drop(q, host, svc), h);
      CollapseKeeps([], AtHost(Drop(q, host, svc), h), svc);
      FindRemoveRoute(t, host, svc, h, svc);
      LowerEmpty(p.host);
      LowerEmpty(host);
      assert Find(t', h, svc).Some? && Find(RemoveRoute(t, host, svc), h, svc).None?;
    } else {
      forall h ensures RoutesFor(t', h) == RoutesFor(RemoveRoute(t, host, svc), h) {
        ReplayAt(EMPTY_TABLE, q, h);
        ReplayAt(EMPTY_TABLE, Drop(q, host, svc), h);
        RemoveRouteAt(t, host, svc, h);
        AtHostDrop(q, host, svc, h);
        WithoutCollapse([], AtHost(q, h), svc);
      }
      SameTable(t', RemoveRoute(t, host, svc));
    }
  }

  // ----- Deferred = direct -----

  ghost predicate StepRight(q: seq<Pending>, op: Op) {
    match op
    case Add(host, r) => AddsRight(q, host, r)
    case Remove(host, svc) => RemovesRight(q, host, svc)
  }

  /** A queued route removed under another spelling of its host is still there once the queue is replayed. */
  lemma RemovalUnderOtherSpelling(p: Pending, host: string)
    requires p.host != "" && p.host != host && Lower(p.host) == Lower(host)
    ensures Find(Replay(EMPTY_TABLE, Drop([p], host, p.route.service)), Lower(host), p.route.service) == Some(p.route)
    ensures Find(RemoveRoute(Replay(EMPTY_TABLE, [p]), host, p.route.service), Lower(host), p.route.service).None?
  {
    var svc := p.route.service;
    LowerEmpty(p.host);
    assert Drop([p], host, svc) == [p] by { assert [p][1..] == []; }
    assert Replay(EMPTY_TABLE, [p]) == AddRoute(EMPTY_TABLE, p.host, p.route) by { assert [p][1..] == []; }
    FindAddRoute(EMPTY_TABLE, p.host, p.route, Lower(host), svc);
    FindRemoveRoute(Replay(EMPTY_TABLE, [p]), host, svc, Lower(host), svc);
  }

  /** Every change is right when it arrives. */
  ghost predicate RunRight(q: seq<Pending>, ops: seq<Op>)
    decreases |ops|
  {
    ops == [] || (StepRight(q, ops[0]) && RunRight(Defer(q, ops[0]), ops[1..]))
  }

  lemma StepRightIff(q: seq<Pending>, op: Op)
    ensures Replay(EMPTY_TABLE, Defer(q, op)) == ApplyTo(Replay(EMPTY_TABLE, q), op) <==> StepRight(q, op)
  {
    match op {
      case Add(host, r) => DeferredAddIff(q, host, r);
      case Remove(host, svc) => DeferredRemoveIff(q, host, svc);
    }
  }

  lemma {:induction false} ApplyAllSplit(t: Table, ops: seq<Op>, more: seq<Op>)
    ensures ApplyAll(t, ops + more) == ApplyAll(ApplyAll(t, ops), more)
    decreases |ops|
  {
    if ops == [] {
      assert ops + more == more;
    } else {
      assert (ops + more)[1..] == ops[1..] + more;
      ApplyAllSplit(ApplyTo(t, ops[0]), ops[1..], more);
    }
  }

  /** Bringing the listener up after the first `k` changes gives the table of applying them directly. */
  ghost predicate UpAfter(q: seq<Pending>, t: Table, ops: seq<Op>, k: nat)
    requires k <= |ops|
  {
    Replay(EMPTY_TABLE, DeferAll(q, ops[..k])) == ApplyAll(t, ops[..k])
  }

  lemma UpAfterNext(q: seq<Pending>, t: Table, ops: seq<Op>, k: nat)
    requires k < |ops|
    ensures UpAfter(q, t, ops, k + 1) <==> UpAfter(Defer(q, ops[0]), ApplyTo(t, ops[0]), ops[1..], k)
  {
    assert ops[..k + 1][0] == ops[0] && ops[..k + 1][1..] == ops[1..][..k];
  }

  /** The listener may come up at any moment, and the router has the very table, order included, that it would have had
      from the start, if and only if every change was right when it arrived. */
  lemma {:induction false} DeferredEqualsDirectIff(q: seq<Pending>, ops: seq<Op>)
    ensures (forall k: nat :: k <= |ops| ==> UpAfter(q, Replay(EMPTY_TABLE, q), ops, k)) <==> RunRight(q, ops)
    decreases |ops|
  {
    var t := Replay(EMPTY_TABLE, q);
    assert ops[..0] == [];
    assert UpAfter(q, t, ops, 0);
    if ops != [] {
      var q1, rest := Defer(q, ops[0]), ops[1..];
      StepRightIff(q, ops[0]);
      UpAfterNext(q, t, ops, 0);
      assert rest[..0] == [];
      assert UpAfter(q1, ApplyTo(t, ops[0]), rest, 0) <==> StepRight(q, ops[0]);
      if StepRight(q, ops[0]) {
        DeferredEqualsDirectIff(q1, rest);
        forall k: nat | k <= |rest| ensures UpAfter(q, t, ops, k + 1) <==> UpAfter(q1, Replay(EMPTY_TABLE, q1), rest, k) {
          UpAfterNext(q, t, ops, k);
        }
        assert forall k: nat :: 0 < k <= |ops| ==> (UpAfter(q, t, ops, k) <==> UpAfter(q1, Replay(EMPTY_TABLE, q1), rest, k - 1));
      }
    }
  }

  /** Changes that are right when they arrive, a listener that comes up, and further changes: the router ends with the
      very table of one that listened from the start. */
  lemma DeferredEqualsDirect(before: seq<Op>, after: seq<Op>)
    requires RunRight([], before)
    ensures ApplyAll(Replay(EMPTY_TABLE, DeferAll([], before)), after) == ApplyAll(EMPTY_TABLE, before + after)
  {
    DeferredEqualsDirectIff([], before);
    assert UpAfter([], Replay(EMPTY_TABLE, []), before, |before|);
    assert before[..|before|] == before;
    ApplyAllSplit(EMPTY_TABLE, before, after);
  }

  // ----- One spelling is enough -----

  /** Every host is spelled one way only. */
  ghost predicate OneSpelling(hosts: set<string>) {
    forall a, b :: a in hosts && b in hosts && Lower(a) == Lower(b) ==> a == b
  }

  function HostsOf(ops: seq<Op>): set<string> {
    set op | op in ops :: op.host
  }

  /** The queue only uses the given spellings. */
  ghost predicate SpelledIn(q: seq<Pending>, hosts: set<string>) {
    forall p :: p in q ==> p.host in hosts
  }

  lemma {:induction false} NoneBehind(q: seq<Pending>, host: string, svc: string, hosts: set<string>)
    requires KeysDistinct(q) && OneSpelling(hosts) && SpelledIn(q, hosts) && host in hosts
    ensures forall p :: p in Behind(q, host, svc) ==> p in q && !(Lower(p.host) == Lower(host) && p.route.service == svc)
  {
    if q != [] {
      assert q[0] in q;
      assert forall p :: p in q[1..] ==> p in q && !Same(p, q[0].host, q[0].route.service);
      if !Same(q[0], host, svc) { NoneBehind(q[1..], host, svc, hosts); }
    }
  }

  lemma {:induction false} LastAbsent(q: seq<Pending>, h: string, svc: string)
    requires forall p :: p in q ==> !(Lower(p.host) == h && p.route.service == svc)
    ensures LastIn(AtHost(q, h), svc).None?
  {
    if q != [] {
      assert q[0] in q;
      LastAbsent(q[1..], h, svc);
      if Lower(q[0].host) == h { LastInCons(q[0].route, AtHost(q[1..], h), svc); }
    }
  }

  /** As long as every host has one spelling, every change is right. */
  lemma {:induction false} SpelledOnceRight(q: seq<Pending>, ops: seq<Op>, hosts: set<string>)
    requires KeysDistinct(q) && OneSpelling(hosts) && SpelledIn(q, hosts) && HostsOf(ops) <= hosts
    ensures RunRight(q, ops)
    decreases |ops|
  {
    if ops != [] {
      assert ops[0].host in HostsOf(ops);
      assert forall op :: op in ops[1..] ==> op in ops;
      match ops[0] {
        case Add(host, r) =>
          QueueKeys(q, host, r);
          NoneBehind(q, host, r.service, hosts);
          LastAbsent(Behind(q, host, r.service), Lower(host), r.service);
        case Remove(host, svc) =>
          DropKeys(q, host, svc);
      }
      SpelledOnceRight(Defer(q, ops[0]), ops[1..], hosts);
    }
  }

  // ----- Between publication and flush -----

  /** The router published but not yet flushed, with what is still queued. */
  datatype Window = Window(table: Table, queue: seq<Pending>)

  /** While the queue can still be taken from. */
  function InWindow(w: Window, op: Op): Window {
    match op
    case Add(host, r) => w.(table := AddRoute(w.table, host, r))
    case Remove(host, svc) => Window(RemoveRoute(w.table, host, svc), Drop(w.queue, host, svc))
  }

  function InWindowAll(w: Window, ops: seq<Op>): Window
    decreases |ops|
  {
    if ops == [] then w else InWindowAll(InWindow(w, ops[0]), ops[1..])
  }

  /** The route that a replay of the queue leaves for the service. */
  function QueuedFor(q: seq<Pending>, h: string, svc: string): Option<Route> {
    LastIn(AtHost(q, h), svc)
  }

  /** The change is about this service at this host. */
  predicate Concerns(op: Op, h: string, svc: string) {
    Lower(op.host) == h && svc == match op case Add(_, r) => r.service case Remove(_, gone) => gone
  }

  predicate AnyConcerns(ops: seq<Op>, h: string, svc: string) {
    ops != [] && (Concerns(ops[0], h, svc) || AnyConcerns(ops[1..], h, svc))
  }

  lemma ApplyToAt(t: Table, op: Op, h: string, svc: string)
    requires h != ""
    ensures !Concerns(op, h, svc) ==> Find(ApplyTo(t, op), h, svc) == Find(t, h, svc)
    ensures Concerns(op, h, svc) ==> Find(ApplyTo(t, op), h, svc) == if op.Add? then Some(op.route) else None
  {
    match op {
      case Add(host, r) => FindAddRoute(t, host, r, h, svc);
      case Remove(host, gone) => FindRemoveRoute(t, host, gone, h, svc);
    }
  }

  /** The route of a service that had `was`, after changes: the last change that concerns it decides. */
  function Latest(ops: seq<Op>, h: string, svc: string, was: Option<Route>): Option<Route>
    decreases |ops|
  {
    if ops == [] then was
    else if !Concerns(ops[0], h, svc) then Latest(ops[1..], h, svc, was)
    else Latest(ops[1..], h, svc, if ops[0].Add? then Some(ops[0].route) else None)
  }

  lemma {:induction false} ApplyAllAt(t: Table, ops: seq<Op>, h: string, svc: string)
    requires h != ""
    ensures Find(ApplyAll(t, ops), h, svc) == Latest(ops, h, svc, Find(t, h, svc))
    decreases |ops|
  {
    if ops != [] {
      ApplyToAt(t, ops[0], h, svc);
      ApplyAllAt(ApplyTo(t, ops[0]), ops[1..], h, svc);
    }
  }

  lemma {:induction false} LatestConcerning(ops: seq<Op>, h: string, svc: string, a: Option<Route>, b: Option<Route>)
    ensures AnyConcerns(ops, h, svc) ==> Latest(ops, h, svc, a) == Latest(ops, h, svc, b)
    ensures !AnyConcerns(ops, h, svc) ==> Latest(ops, h, svc, a) == a
    decreases |ops|
  {
    if ops != [] { LatestConcerning(ops[1..], h, svc, a, b); }
  }

  lemma FindReplay(t: Table, q: seq<Pending>, h: string, svc: string)
    requires WellFormed(t) && h != ""
    ensures Find(Replay(t, q), h, svc) == if QueuedFor(q, h, svc).Some? then QueuedFor(q, h, svc) else Find(t, h, svc)
  {
    ReplayAt(t, q, h);
    FindInCollapse(RoutesFor(t, h), AtHost(q, h), svc);
  }

  /** The slots that no change removes under their own spelling. */
  function Remaining(q: seq<Pending>, ops: seq<Op>): seq<Pending> {
    if q == [] then []
    else if Remove(q[0].host, q[0].route.service) in ops then Remaining(q[1..], ops)
    else [q[0]] + Remaining(q[1..], ops)
  }

  lemma {:induction false} RemainingNext(q: seq<Pending>, ops: seq<Op>)
    requires ops != []
    ensures Remaining(q, ops) == Remaining(if ops[0].Remove? then Drop(q, ops[0].host, ops[0].svc) else q, ops[1..])
    decreases |q|
  {
    if q != [] {
      RemainingNext(q[1..], ops);
      var gone := Remove(q[0].host, q[0].route.service);
      assert gone in ops <==> gone == ops[0] || gone in ops[1..];
      var rest := Drop(q[1..], ops[0].host, if ops[0].Remove? then ops[0].svc else "");
      assert ([q[0]] + rest)[1..] == rest;
    }
  }

  lemma {:induction false} RemainingAll(q: seq<Pending>)
    ensures Remaining(q, []) == q
  {
    if q != [] { RemainingAll(q[1..]); }
  }

  /** The changes go to the table, and the removals among them to the queue as well. */
  lemma {:induction false} WindowEnds(w: Window, ops: seq<Op>)
    ensures InWindowAll(w, ops) == Window(ApplyAll(w.table, ops), Remaining(w.queue, ops))
    decreases |ops|
  {
    if ops == [] {
      RemainingAll(w.queue);
    } else {
      RemainingNext(w.queue, ops);
      WindowEnds(InWindow(w, ops[0]), ops[1..]);
    }
  }

  lemma {:induction false} RemainingUnconcerned(q: seq<Pending>, ops: seq<Op>, h: string, svc: string)
    requires !AnyConcerns(ops, h, svc)
    ensures QueuedFor(Remaining(q, ops), h, svc) == QueuedFor(q, h, svc)
    decreases |q|
  {
    if q != [] {
      RemainingUnconcerned(q[1..], ops, h, svc);
      AtHostCons(q[0], Remaining(q[1..], ops), h);
      if Lower(q[0].host) == h {
        LastInCons(q[0].route, AtHost(q[1..], h), svc);
        LastInCons(q[0].route, AtHost(Remaining(q[1..], ops), h), svc);
      }
      var gone := Remove(q[0].host, q[0].route.service);
      if gone in ops { MemberConcerns(ops, gone, h, svc); }
    }
  }

  lemma {:induction false} MemberConcerns(ops: seq<Op>, op: Op, h: string, svc: string)
    requires op in ops && !AnyConcerns(ops, h, svc)
    ensures !Concerns(op, h, svc)
    decreases |ops|
  {
    if op != ops[0] { MemberConcerns(ops[1..], op, h, svc); }
  }

  lemma {:induction false} ApplyWellFormed(t: Table, ops: seq<Op>)
    requires WellFormed(t)
    ensures WellFormed(ApplyAll(t, ops))
    decreases |ops|
  {
    if ops != [] {
      match ops[0] {
        case Add(host, r) => AddRouteAt(t, host, r, "");
        case Remove(host, svc) => RemoveRouteAt(t, host, svc, "");
      }
      ApplyWellFormed(ApplyTo(t, ops[0]), ops[1..]);
    }
  }

  /** When route changes slip in after the entry is published and before the queue is taken, a service ends with the
      right route at a host if and only if none of them concerns it, or every slot queued for it is removed under its
      own spelling, or the last slot left has the very route that the last of the changes left. */
  lemma WindowRaceIff(q: seq<Pending>, ops: seq<Op>, h: string, svc: string)
    requires h != ""
    ensures var w := InWindowAll(Window(EMPTY_TABLE, q), ops);
            Find(Replay(w.table, w.queue), h, svc) == Find(ApplyAll(Replay(EMPTY_TABLE, q), ops), h, svc) <==>
            || !AnyConcerns(ops, h, svc)
            || QueuedFor(Remaining(q, ops), h, svc).None?
            || QueuedFor(Remaining(q, ops), h, svc) == Latest(ops, h, svc, None)
  {
    var direct := Find(Replay(EMPTY_TABLE, q), h, svc);
    WindowEnds(Window(EMPTY_TABLE, q), ops);
    ApplyWellFormed(EMPTY_TABLE, ops);
    FindReplay(ApplyAll(EMPTY_TABLE, ops), Remaining(q, ops), h, svc);
    FindReplay(EMPTY_TABLE, q, h, svc);
    ApplyAllAt(EMPTY_TABLE, ops, h, svc);
    ApplyAllAt(Replay(EMPTY_TABLE, q), ops, h, svc);
    LatestConcerning(ops, h, svc, None, direct);
    LatestConcerning(ops, h, svc, direct, None);
    if !AnyConcerns(ops, h, svc) { RemainingUnconcerned(q, ops, h, svc); }
  }

  /** A route replaced between publishing the entry and taking the queue is overwritten by the older one. */
  lemma ReplacedComesBack(p: Pending, r: Route)
    requires p.host != "" && r.service == p.route.service && r != p.route
    ensures var w := InWindowAll(Window(EMPTY_TABLE, [p]), [Add(p.host, r)]);
            && Find(Replay(w.table, w.queue), Lower(p.host), r.service) == Some(p.route)
            && Find(ApplyAll(Replay(EMPTY_TABLE, [p]), [Add(p.host, r)]), Lower(p.host), r.service) == Some(r)
  {
    var ops := [Add(p.host, r)];
    var h := Lower(p.host);
    LowerEmpty(p.host);
    WindowEnds(Window(EMPTY_TABLE, [p]), ops);
    assert Remaining([p], ops) == [p];
    ApplyWellFormed(EMPTY_TABLE, ops);
    FindReplay(ApplyAll(EMPTY_TABLE, ops), [p], h, r.service);
    assert [p] == [p] + [];
    AtHostCons(p, [], h);
    LastInCons(p.route, [], r.service);
    ApplyAllAt(Replay(EMPTY_TABLE, [p]), ops, h, r.service);
    assert ops[1..] == [];
  }

  // ----- Between taking the queue and replaying it -----

  /** Once the queue is taken, its slots are added one by one, and changes go to the router between them. */
  datatype FlushEvent = Change(op: Op) | Replayed

  function Flushed(w: Window, e: FlushEvent): Window {
    match e
    case Change(op) => w.(table := ApplyTo(w.table, op))
    case Replayed => if w.queue == [] then w else Window(AddRoute(w.table, w.queue[0].host, w.queue[0].route), w.queue[1..])
  }

  function FlushedAll(w: Window, es: seq<FlushEvent>): Window
    decreases |es|
  {
    if es == [] then w else FlushedAll(Flushed(w, es[0]), es[1..])
  }

  function ChangeOf(e: FlushEvent): seq<Op> {
    if e.Change? then [e.op] else []
  }

  function ChangesOf(es: seq<FlushEvent>): seq<Op> {
    if es == [] then [] else ChangeOf(es[0]) + ChangesOf(es[1..])
  }

  lemma QueuedTail(q: seq<Pending>, h: string, svc: string)
    requires q != [] && QueuedFor(q, h, svc).None?
    ensures QueuedFor(q[1..], h, svc).None? && !(Lower(q[0].host) == h && q[0].route.service == svc)
  {
    if Lower(q[0].host) == h { LastInCons(q[0].route, AtHost(q[1..], h), svc); }
  }

  /** While no slot for a service is left, the last change that concerns it decides, as it does directly. */
  lemma {:induction false} FlushAndDirect(w: Window, d: Table, es: seq<FlushEvent>, h: string, svc: string)
    requires h != "" && QueuedFor(w.queue, h, svc).None?
    ensures var w' := FlushedAll(w, es);
            && QueuedFor(w'.queue, h, svc).None?
            && (AnyConcerns(ChangesOf(es), h, svc) || Find(w.table, h, svc) == Find(d, h, svc) ==>
                  Find(w'.table, h, svc) == Find(ApplyAll(d, ChangesOf(es)), h, svc))
            && (!AnyConcerns(ChangesOf(es), h, svc) ==>
                  Find(w'.table, h, svc) == Find(w.table, h, svc) && Find(ApplyAll(d, ChangesOf(es)), h, svc) == Find(d, h, svc))
    decreases |es|
  {
    if es != [] {
      match es[0] {
        case Change(op) =>
          assert ChangesOf(es)[0] == op && ChangesOf(es)[1..] == ChangesOf(es[1..]);
          ApplyToAt(w.table, op, h, svc);
          ApplyToAt(d, op, h, svc);
          FlushAndDirect(Flushed(w, es[0]), ApplyTo(d, op), es[1..], h, svc);
        case Replayed =>
          assert ChangesOf(es) == ChangesOf(es[1..]);
          if w.queue != [] {
            QueuedTail(w.queue, h, svc);
            FindAddRoute(w.table, w.queue[0].host, w.queue[0].route, h, svc);
          }
          FlushAndDirect(Flushed(w, es[0]), d, es[1..], h, svc);
      }
    }
  }

  lemma {:induction false} FlushedSplit(w: Window, es: seq<FlushEvent>, more: seq<FlushEvent>)
    ensures FlushedAll(w, es + more) == FlushedAll(FlushedAll(w, es), more)
    decreases |es|
  {
    if es == [] {
      assert es + more == more;
    } else {
      assert (es + more)[1..] == es[1..] + more && (es + more)[0] == es[0];
      FlushedSplit(Flushed(w, es[0]), es[1..], more);
    }
  }

  lemma {:induction false} ChangesSplit(es: seq<FlushEvent>, more: seq<FlushEvent>)
    ensures ChangesOf(es + more) == ChangesOf(es) + ChangesOf(more)
    decreases |es|
  {
    if es == [] {
      assert es + more == more;
    } else {
      assert (es + more)[1..] == es[1..] + more && (es + more)[0] == es[0];
      ChangesSplit(es[1..], more);
      Associate(ChangeOf(es[0]), ChangesOf(es[1..]), ChangesOf(more));
    }
  }

  /** The flush adds the last slot of a service while changes arrive: the service ends with the right route if and only
      if a change after that slot concerns it, or the changes until then left the very route of the slot. */
  lemma FlushRaceIff(w: Window, d: Table, pre: seq<FlushEvent>, post: seq<FlushEvent>, h: string, svc: string)
    requires h != "" && FlushedAll(w, pre).queue != []
    requires var slot := FlushedAll(w, pre).queue[0]; Lower(slot.host) == h && slot.route.service == svc
    requires QueuedFor(FlushedAll(w, pre).queue[1..], h, svc).None?
    ensures var es := pre + [Replayed] + post;
            Find(FlushedAll(w, es).table, h, svc) == Find(ApplyAll(d, ChangesOf(es)), h, svc) <==>
            || AnyConcerns(ChangesOf(post), h, svc)
            || Find(ApplyAll(d, ChangesOf(pre)), h, svc) == Some(FlushedAll(w, pre).queue[0].route)
  {
    var es := pre + [Replayed] + post;
    var w1 := FlushedAll(w, pre);
    var w2 := Flushed(w1, Replayed);
    FlushedSplit(w, pre + [Replayed], post);
    FlushedSplit(w, pre, [Replayed]);
    ChangesSplit(pre + [Replayed], post);
    ChangesSplit(pre, [Replayed]);
    assert [Replayed][1..] == [] && FlushedAll(w1, [Replayed]) == FlushedAll(w2, []);
    assert ChangesOf([Replayed]) == [] && ChangesOf(pre) + [] == ChangesOf(pre);
    ApplyAllSplit(d, ChangesOf(pre), ChangesOf(post));
    FindAddRoute(w1.table, w1.queue[0].host, w1.queue[0].route, h, svc);
    FlushAndDirect(w2, ApplyAll(d, ChangesOf(pre)), post, h, svc);
  }

  /** A route removed between taking the queue and replaying it comes back. */
  lemma RemovedComesBack(p: Pending)
    requires p.host != ""
    ensures var w := FlushedAll(Window(EMPTY_TABLE, [p]), [Change(Remove(p.host, p.route.service)), Replayed]);
            && w.queue == [] && Find(w.table, Lower(p.host), p.route.service) == Some(p.route)
            && Find(ApplyAll(Replay(EMPTY_TABLE, [p]), [Remove(p.host, p.route.service)]), Lower(p.host), p.route.service).None?
  {
    var e := Change(Remove(p.host, p.route.service));
    LowerEmpty(p.host);
    assert [e, Replayed][1..] == [Replayed] && [Replayed][1..] == [] && [p][1..] == [];
    var w1 := Flushed(Window(EMPTY_TABLE, [p]), e);
    assert FlushedAll(w1, [Replayed]) == FlushedAll(Flushed(w1, Replayed), []);
    FindAddRoute(w1.table, p.host, p.route, Lower(p.host), p.route.service);
    var t := Replay(EMPTY_TABLE, [p]);
    var op := Remove(p.host, p.route.service);
    assert [op][1..] == [] && ApplyAll(t, [op]) == ApplyAll(ApplyTo(t, op), []);
    FindRemoveRoute(t, p.host, p.route.service, Lower(p.host), p.route.service);
  }

  // ----- Listeners coming and going -----

  /** The listener bundles of one account, by identity. */
  datatype Event = Up(id: nat) | Down(id: nat)

  /** tearDown compares the entry it was given with the current one. */
  function Current(es: seq<Event>): Option<nat> {
    if es == [] then None
    else
      var before := Current(es[..|es| - 1]);
      match es[|es| - 1]
      case Up(id) => Some(id)
      case Down(id) => if before == Some(id) then None else before
  }

  ghost predicate LatestUp(es: seq<Event>, id: nat, i: nat) {
    && i < |es| && es[i] == Up(id)
    && (forall j :: i < j < |es| ==> !es[j].Up? && es[j] != Down(id))
  }

  /** The current entry is always the last one that came up, unless that very one was torn
      down: tearing down an older entry never removes a newer one. */
  lemma {:induction false} CurrentIsLatest(es: seq<Event>, id: nat)
    ensures Current(es) == Some(id) <==> exists i :: LatestUp(es, id, i)
  {
    if es != [] {
      var n := |es| - 1;
      var pre := es[..n];
      CurrentIsLatest(pre, id);
      if es[n] == Up(id) {
        assert LatestUp(es, id, n);
      } else if es[n] != Down(id) && !es[n].Up? {
        assert forall i: nat :: LatestUp(es, id, i) <==> LatestUp(pre, id, i);
      } else {
        assert forall i: nat :: !LatestUp(es, id, i);
      }
    }
  }

  /** One account as the manager sees it. */
  datatype Account = Account(table: Option<Table>, queue: seq<Pending>)

  function OnOp(a: Account, op: Op): Account {
    match op
    case Add(host, r) =>
      if a.table.None? then a.(queue := Queue(a.queue, host, r))
      else a.(table := Some(AddRoute(a.table.value, host, r)))
    case Remove(host, svc) =>
      Account(if a.table.None? then None else Some(RemoveRoute(a.table.value, host, svc)), Drop(a.queue, host, svc))
  }

  function OnOps(a: Account, ops: seq<Op>): Account
    decreases |ops|
  {
    if ops == [] then a else OnOps(OnOp(a, ops[0]), ops[1..])
  }

  /** The listener comes up: the queue is replayed into a fresh router. */
  function BroughtUp(a: Account): Account {
    Account(Some(Replay(EMPTY_TABLE, a.queue)), [])
  }

  lemma {:induction false} OnOpsQueues(q: seq<Pending>, ops: seq<Op>)
    ensures OnOps(Account(None, q), ops) == Account(None, DeferAll(q, ops))
    decreases |ops|
  {
    if ops != [] { OnOpsQueues(Defer(q, ops[0]), ops[1..]); }
  }

  lemma {:induction false} OnOpsApplies(t: Table, ops: seq<Op>)
    ensures OnOps(Account(Some(t), []), ops) == Account(Some(ApplyAll(t, ops)), [])
    decreases |ops|
  {
    if ops != [] { OnOpsApplies(ApplyTo(t, ops[0]), ops[1..]); }
  }

  /** The account as the manager keeps it ends, whenever its listener came up, as one that listened from the start. */
  lemma AccountEndsAlike(before: seq<Op>, after: seq<Op>)
    requires RunRight([], before)
    ensures OnOps(BroughtUp(OnOps(Account(None, []), before)), after) == OnOps(Account(Some(EMPTY_TABLE), []), before + after)
  {
    OnOpsQueues([], before);
    OnOpsApplies(Replay(EMPTY_TABLE, DeferAll([], before)), after);
    OnOpsApplies(EMPTY_TABLE, before + after);
    DeferredEqualsDirect(before, after);
  }

  // ----- Listeners that go and come back -----

  datatype LifeEvent = Came(op: Op) | CameUp | TornDown

  /** `TornDown` is the tear-down of the current entry; any other tear-down changes nothing. */
  function Lived(a: Account, e: LifeEvent): Account {
    match e
    case Came(op) => OnOp(a, op)
    case CameUp => BroughtUp(a)
    case TornDown => if a.table.None? then a else Account(None, [])
  }

  function LivedAll(a: Account, es: seq<LifeEvent>): Account {
    if es == [] then a else Lived(LivedAll(a, es[..|es| - 1]), es[|es| - 1])
  }

  /** The changes that still count: those queued before the listener came up last, and those made since. */
  datatype Memory = Memory(up: bool, queued: seq<Op>, made: seq<Op>)

  function Remembered(es: seq<LifeEvent>): Memory {
    if es == [] then Memory(false, [], []) else
      var m := Remembered(es[..|es| - 1]);
      match es[|es| - 1]
      case Came(op) => if m.up then m.(made := m.made + [op]) else m.(queued := m.queued + [op])
      case CameUp => Memory(true, if m.up then [] else m.queued, [])
      case TornDown => if m.up then Memory(false, [], []) else m
  }

  function Recalled(m: Memory): Account {
    if m.up then Account(Some(ApplyAll(Replay(EMPTY_TABLE, DeferAll([], m.queued)), m.made)), [])
    else Account(None, DeferAll([], m.queued))
  }

  lemma {:induction false} DeferLast(q: seq<Pending>, ops: seq<Op>, op: Op)
    ensures DeferAll(q, ops + [op]) == Defer(DeferAll(q, ops), op)
    decreases |ops|
  {
    if ops == [] {
      assert ([] + [op])[1..] == [];
    } else {
      assert (ops + [op])[1..] == ops[1..] + [op];
      DeferLast(Defer(q, ops[0]), ops[1..], op);
    }
  }

  lemma RecalledNext(m: Memory, op: Op)
    ensures OnOp(Recalled(m), op) == Recalled(if m.up then m.(made := m.made + [op]) else m.(queued := m.queued + [op]))
  {
    if m.up {
      var t := Replay(EMPTY_TABLE, DeferAll([], m.queued));
      ApplyAllSplit(t, m.made, [op]);
      assert ApplyAll(ApplyAll(t, m.made), [op]) == ApplyTo(ApplyAll(t, m.made), op) by { assert [op][1..] == []; }
    } else {
      DeferLast([], m.queued, op);
    }
  }

  /** Whatever changes, bring-ups and tear-downs an account sees: what it has are the changes queued while it was down
      before it came up last, replayed, and those made since. */
  lemma {:induction false} LifeEnds(es: seq<LifeEvent>)
    ensures LivedAll(Account(None, []), es) == Recalled(Remembered(es))
    decreases |es|
  {
    if es != [] {
      var n := |es| - 1;
      LifeEnds(es[..n]);
      if es[n].Came? { RecalledNext(Remembered(es[..n]), es[n].op); }
    }
  }

  /** So a listener that comes up again, torn down before or not, has lost every route it had. */
  lemma BroughtUpAgain(es: seq<LifeEvent>)
    requires LivedAll(Account(None, []), es).table.Some?
    ensures Lived(LivedAll(Account(None, []), es), CameUp) == Account(Some(EMPTY_TABLE), [])
    ensures Lived(Lived(LivedAll(Account(None, []), es), TornDown), CameUp) == Account(Some(EMPTY_TABLE), [])
  {
    LifeEnds(es);
  }

  class Manager {
    var entries: map<string, Router>
    var pendingRoutes: map<string, seq<Pending>>

    ghost predicate Valid()
      reads this
    {
      forall a, b :: a in entries && b in entries && a != b ==> entries[a] != entries[b]
    }

    ghost function View(account: string): Account
      reads this, entries.Values
    {
      Account(if account in entries then Some(entries[account].Content()) else None,
              if account in pendingRoutes then pendingRoutes[account] else [])
    }

    constructor ()
      ensures Valid() && forall a :: View(a) == Account(None, [])
    {
      entries, pendingRoutes := map[], map[];
    }

    method QueuePending(account: string, host: string, route: Route)
      modifies this`pendingRoutes
      ensures var was := if account in old(pendingRoutes) then old(pendingRoutes)[account] else [];
              pendingRoutes == old(pendingRoutes)[account := Queue(was, host, route)]
    {
      var queued := Queued(if account in pendingRoutes then pendingRoutes[account] else [], host, route);
      pendingRoutes := pendingRoutes[account := queued];
    }

    /** Updates the slot of the same host and service, or appends one. */
    static method Queued(queued: seq<Pending>, host: string, route: Route) returns (updated: seq<Pending>)
      ensures updated == Queue(queued, host, route)
    {
      for i := 0 to |queued|
        invariant forall j :: 0 <= j < i ==> !Same(queued[j], host, route.service)
      {
        if Same(queued[i], host, route.service) {
          QueueAt(queued, host, route, i);
          return queued[i := Pending(host, route)];
        }
      }
      QueueNew(queued, host, route);
      updated := queued + [Pending(host, route)];
    }

    method DropPending(account: string, host: string, svc: string)
      modifies this`pendingRoutes
      ensures forall a :: a != account ==>
        && (a in pendingRoutes <==> a in old(pendingRoutes))
        && (a in pendingRoutes ==> pendingRoutes[a] == old(pendingRoutes)[a])
      ensures (if account in pendingRoutes then pendingRoutes[account] else []) ==
              Drop(if account in old(pendingRoutes) then old(pendingRoutes)[account] else [], host, svc)
    {
      if account !in pendingRoutes { return; }
      var queued := pendingRoutes[account];
      var filtered: seq<Pending> := [];
      var i := 0;
      assert queued[0..] == queued;
      while i < |queued|
        invariant 0 <= i <= |queued|
        invariant filtered + Drop(queued[i..], host, svc) == Drop(queued, host, svc)
      {
        assert queued[i..][1..] == queued[i + 1..];
        if !Same(queued[i], host, svc) {
          filtered := filtered + [queued[i]];
        }
        i := i + 1;
      }
      assert queued[i..] == [] && filtered == Drop(queued, host, svc);
      if filtered == [] {
        pendingRoutes := pendingRoutes - {account};
      } else {
        pendingRoutes := pendingRoutes[account := filtered];
      }
    }

    method AddRouteFor(account: string, host: string, route: Route)
      requires Valid()
      modifies this`pendingRoutes, entries.Values
      ensures Valid() && entries == old(entries)
      ensures View(account) == OnOp(old(View(account)), Add(host, route))
      ensures forall a :: a != account ==> View(a) == old(View(a))
    {
      if account !in entries {
        QueuePending(account, host, route);
      } else {
        entries[account].Add(host, route);
      }
    }

    method RemoveRouteFor(account: string, host: string, svc: string)
      requires Valid()
      modifies this`pendingRoutes, entries.Values
      ensures Valid() && entries == old(entries)
      ensures View(account) == OnOp(old(View(account)), Remove(host, svc))
      ensures forall a :: a != account ==> View(a) == old(View(a))
    {
      DropPending(account, host, svc);
      if account in entries {
        entries[account].Remove(host, svc);
      }
    }

    /** bringUp: publishes a fresh entry; from here on changes go to its router. */
    method Publish(account: string) returns (entry: Router)
      requires Valid()
      modifies this`entries
      ensures Valid() && fresh(entry) && entries == old(entries)[account := entry]
      ensures View(account) == Account(Some(EMPTY_TABLE), old(View(account)).queue)
      ensures forall a :: a != account ==> View(a) == old(View(a))
    {
      entry := new Router();
      entries := entries[account := entry];
    }

    /** flushPending, under the lock: takes the queue. */
    method TakePending(account: string) returns (queued: seq<Pending>)
      requires Valid()
      modifies this`pendingRoutes
      ensures Valid() && queued == old(View(account)).queue && View(account) == old(View(account)).(queue := [])
      ensures forall a :: a != account ==> View(a) == old(View(a))
    {
      queued := if account in pendingRoutes then pendingRoutes[account] else [];
      pendingRoutes := pendingRoutes - {account};
    }

    /** flushPending, without the lock: adds what was taken. */
    static method ReplayInto(router: Router, queued: seq<Pending>)
      modifies router
      ensures router.Content() == Replay(old(router.Content()), queued)
    {
      assert queued[0..] == queued;
      for i := 0 to |queued|
        invariant Replay(router.Content(), queued[i..]) == Replay(old(router.Content()), queued)
      {
        assert queued[i..][1..] == queued[i + 1..];
        router.Add(queued[i].host, queued[i].route);
      }
      assert queued[|queued|..] == [];
    }

    /** onClientReady with no change in between; nothing changes when a listener could not be opened. */
    method OnClientReady(account: string, listenOk: bool) returns (entry: Option<Router>)
      requires Valid()
      modifies this
      ensures Valid() && (entry.Some? <==> listenOk)
      ensures !listenOk ==> unchanged(this)
      ensures listenOk ==> fresh(entry.value) && entries == old(entries)[account := entry.value]
      ensures listenOk ==> View(account) == BroughtUp(old(View(account)))
      ensures forall a :: a != account ==> View(a) == old(View(a))
    {
      if !listenOk { return None; }
      var router := Publish(account);
      var queued := TakePending(account);
      ReplayInto(router, queued);
      entry := Some(router);
    }

    /** onClientStop with the entry it was given: a stale entry leaves the account alone. */
    method TearDown(account: string, entry: Router)
      requires Valid()
      modifies this
      ensures Valid()
      ensures var was := old(View(account));
              View(account) == if account in old(entries) && old(entries)[account] == entry then Account(None, []) else was
      ensures forall a :: a != account ==> View(a) == old(View(a))
    {
      if account in entries && entries[account] == entry {
        entries := entries - {account};
        pendingRoutes := pendingRoutes - {account};
      }
    }
  }
}
