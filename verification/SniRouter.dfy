/** The per-listener routing table of proxy/internal/tcp/router.go: for every
    SNI host an ordered list of routes, at most one per service, plus an
    optional catch-all route. */
module SniRouter {
  import opened Basics

  datatype RouteKind = HttpRoute | TcpRoute

  datatype Route = Route(kind: RouteKind, account: string, service: string, domain: string, target: string)

  datatype Table = Table(routes: map<string, seq<Route>>, fallback: Option<Route>)

  const EMPTY_TABLE := Table(map[], None)

  function RoutesFor(t: Table, h: string): seq<Route> {
    if h in t.routes then t.routes[h] else []
  }

  /** Replaces the service's own route in place, or appends. */
  function Upsert(rs: seq<Route>, r: Route): seq<Route> {
    if rs == [] then [r]
    else if rs[0].service == r.service then [r] + rs[1..]
    else [rs[0]] + Upsert(rs[1..], r)
  }

  /** The first route of the service is replaced in place. */
  lemma {:induction false} UpsertAt(rs: seq<Route>, r: Route, i: nat)
    requires i < |rs| && rs[i].service == r.service && forall j :: 0 <= j < i ==> rs[j].service != r.service
    ensures Upsert(rs, r) == rs[i := r]
    decreases i
  {
    if i > 0 { UpsertAt(rs[1..], r, i - 1); }
  }

  lemma {:induction false} UpsertNew(rs: seq<Route>, r: Route)
    requires forall j :: 0 <= j < |rs| ==> rs[j].service != r.service
    ensures Upsert(rs, r) == rs + [r]
    decreases |rs|
  {
    if rs != [] { UpsertNew(rs[1..], r); }
  }

  function Without(rs: seq<Route>, svc: string): seq<Route> {
    if rs == [] then []
    else if rs[0].service == svc then Without(rs[1..], svc)
    else [rs[0]] + Without(rs[1..], svc)
  }

  function AddRoute(t: Table, host: string, r: Route): Table {
    var h := Lower(host);
    if h == "" then t else t.(routes := t.routes[h := Upsert(RoutesFor(t, h), r)])
  }

  function RemoveRoute(t: Table, host: string, svc: string): Table {
    var h := Lower(host);
    var rest := Without(RoutesFor(t, h), svc);
    t.(routes := if rest == [] then t.routes - {h} else t.routes[h := rest])
  }

  function SetFallback(t: Table, r: Route): Table {
    t.(fallback := Some(r))
  }

  /** Clears the catch-all whoever owns it: the source ignores the service here. */
  function RemoveFallback(t: Table): Table {
    t.(fallback := None)
  }

  predicate IsEmpty(t: Table) {
    t.routes == map[] && t.fallback.None?
  }

  /** Hosts are never empty and never kept with an empty list. */
  ghost predicate WellFormed(t: Table) {
    forall h :: h in t.routes ==> h != "" && t.routes[h] != []
  }

  /** The observable content of a table: the route of one service at one host. */
  function FindIn(rs: seq<Route>, svc: string): Option<Route> {
    if rs == [] then None else if rs[0].service == svc then Some(rs[0]) else FindIn(rs[1..], svc)
  }

  function Find(t: Table, h: string, svc: string): Option<Route> {
    FindIn(RoutesFor(t, h), svc)
  }

  lemma {:induction false} FindInUpsert(rs: seq<Route>, r: Route, svc: string)
    ensures FindIn(Upsert(rs, r), svc) == if svc == r.service then Some(r) else FindIn(rs, svc)
  {
    if rs != [] && rs[0].service != r.service {
      FindInUpsert(rs[1..], r, svc);
    }
  }

  lemma {:induction false} FindInWithout(rs: seq<Route>, gone: string, svc: string)
    ensures FindIn(Without(rs, gone), svc) == if svc == gone then None else FindIn(rs, svc)
  {
    if rs != [] {
      FindInWithout(rs[1..], gone, svc);
    }
  }

  lemma FindAddRoute(t: Table, host: string, r: Route, h: string, svc: string)
    ensures Find(AddRoute(t, host, r), h, svc) ==
            if Lower(host) != "" && h == Lower(host) && svc == r.service then Some(r) else Find(t, h, svc)
  {
    FindInUpsert(RoutesFor(t, Lower(host)), r, svc);
  }

  lemma FindRemoveRoute(t: Table, host: string, gone: string, h: string, svc: string)
    ensures Find(RemoveRoute(t, host, gone), h, svc) ==
            if h == Lower(host) && svc == gone then None else Find(t, h, svc)
  {
    FindInWithout(RoutesFor(t, Lower(host)), gone, svc);
  }

  /** A well-formed table holds a route iff some service can be found in it. */
  lemma EmptyIffNothingFound(t: Table)
    requires WellFormed(t)
    ensures t.routes == map[] <==> forall h, s :: Find(t, h, s).None?
  {
    if t.routes != map[] {
      var h :| h in t.routes;
      assert Find(t, h, t.routes[h][0].service).Some?;
    }
  }

  /** The mutable router object. */
  class Router {
    var routes: map<string, seq<Route>>
    var fallback: Option<Route>

    constructor ()
      ensures Content() == EMPTY_TABLE
    {
      routes, fallback := map[], None;
    }

    function Content(): Table
      reads this
    {
      Table(routes, fallback)
    }

    method Add(host: string, r: Route)
      modifies this
      ensures Content() == AddRoute(old(Content()), host, r)
    {
      var h := Lower(host);
      if h == "" { return; }
      var rs := Upserted(if h in routes then routes[h] else [], r);
      routes := routes[h := rs];
    }

    static method Upserted(rs: seq<Route>, r: Route) returns (updated: seq<Route>)
      ensures updated == Upsert(rs, r)
    {
      for i := 0 to |rs|
        invariant forall j :: 0 <= j < i ==> rs[j].service != r.service
      {
        if rs[i].service == r.service {
          UpsertAt(rs, r, i);
          return rs[i := r];
        }
      }
      UpsertNew(rs, r);
      updated := rs + [r];
    }

    method Remove(host: string, svc: string)
      modifies this
      ensures Content() == RemoveRoute(old(Content()), host, svc)
    {
      var h := Lower(host);
      var rs := if h in routes then routes[h] else [];
      var kept: seq<Route> := [];
      var i := 0;
      assert rs[0..] == rs;
      while i < |rs|
        invariant 0 <= i <= |rs|
        invariant kept + Without(rs[i..], svc) == Without(rs, svc)
        invariant routes == old(routes) && fallback == old(fallback)
      {
        assert rs[i..][1..] == rs[i + 1..];
        if rs[i].service != svc {
          kept := kept + [rs[i]];
        }
        i := i + 1;
      }
      assert rs[i..] == [] && kept == Without(rs, svc);
      if kept == [] {
        routes := routes - {h};
      } else {
        routes := routes[h := kept];
      }
    }

    method InstallFallback(r: Route)
      modifies this
      ensures Content() == SetFallback(old(Content()), r)
    {
      fallback := Some(r);
    }

    method ClearFallback()
      modifies this
      ensures Content() == RemoveFallback(old(Content()))
    {
      fallback := None;
    }
  }
}
