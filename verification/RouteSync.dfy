/** Custom domains on routes: the control plane's answer to a route sync and the route list the agent
    makes of it. */
module RouteSync {
  import opened Text
  import opened Routes
  import PreviewNames

  datatype Override = Override(service: string, hostnames: seq<string>)

  /** What the control plane looks up: the server and service of each deployment row, and the verified
      hostnames of each service. */
  datatype Directory = Directory(rows: map<string, (string, string)>, verified: map<string, seq<string>>)

  function RoutesFor(existing: seq<Route>, current: Route): seq<Route> {
    if existing == [] then [current]
    else
      var rest := RoutesFor(existing[1..], current);
      if existing[0].service == current.service || existing[0].container == current.container then rest
      else [existing[0]] + rest
  }

  lemma {:induction false} RoutesForExact(existing: seq<Route>, current: Route)
    ensures forall r :: r in RoutesFor(existing, current) <==>
              r == current || (r in existing && r.service != current.service && r.container != current.container)
  {
    if existing != [] {
      RoutesForExact(existing[1..], current);
      assert existing == [existing[0]] + existing[1..];
    }
  }

  /** routesForDeployment's loop. */
  method RoutesForDeployment(existing: seq<Route>, current: Route) returns (out: seq<Route>)
    ensures out == RoutesFor(existing, current)
  {
    out := [];
    for n := 0 to |existing|
      invariant out + RoutesFor(existing[n..], current) == RoutesFor(existing, current)
    {
      assert existing[n..][1..] == existing[n + 1..];
      var r := existing[n];
      if r.service == current.service || r.container == current.container { continue; }
      assert out + ([r] + RoutesFor(existing[n + 1..], current)) == (out + [r]) + RoutesFor(existing[n + 1..], current);
      out := out + [r];
    }
    out := out + [current];
  }

  // ---- Control plane ----

  /** The control plane believes the route: its deployment row is on this server and of this service.
      A preview is labelled with its routing key, which is no service id. */
  predicate Vouched(dir: Directory, server: string, r: Route) {
    && r.port > 0
    && PreviewNames.IsUuid(r.service) && PreviewNames.IsUuid(r.deployment)
    && r.deployment in dir.rows && dir.rows[r.deployment] == (server, r.service)
  }

  predicate Named(dir: Directory, service: string) { service in dir.verified && dir.verified[service] != [] }

  /** One override for each service with a believed route and a verified hostname, in any order. */
  ghost predicate IsAnswer(dir: Directory, server: string, routes: seq<Route>, out: seq<Override>) {
    && (forall i, j | 0 <= i < j < |out| :: out[i].service != out[j].service)
    && forall o :: o in out <==>
         && Named(dir, o.service) && o.hostnames == dir.verified[o.service]
         && exists r | r in routes :: r.service == o.service && Vouched(dir, server, r)
  }

  /** SyncRoutes: collect the services, then look their domains up in an order of the map's own. */
  method SyncRoutes(dir: Directory, server: string, routes: seq<Route>) returns (out: seq<Override>)
    ensures IsAnswer(dir, server, routes, out)
  {
    var services: set<string> := {};
    for n := 0 to |routes|
      invariant forall s :: s in services <==> exists r | r in routes[..n] :: r.service == s && Vouched(dir, server, r)
    {
      var r := routes[n];
      assert routes[..n + 1] == routes[..n] + [r];
      if Vouched(dir, server, r) { services := services + {r.service}; }
    }
    assert routes[..|routes|] == routes;
    out := [];
    var left := services;
    while left != {}
      invariant left <= services
      invariant forall o :: o in out <==>
                o.service in services - left && Named(dir, o.service) && o.hostnames == dir.verified[o.service]
      invariant forall i, j | 0 <= i < j < |out| :: out[i].service != out[j].service
      decreases left
    {
      var s :| s in left;
      left := left - {s};
      if Named(dir, s) {
        assert forall i | 0 <= i < |out| :: out[i] in out;
        out := out + [Override(s, dir.verified[s])];
      }
    }
  }

  // ---- Agent ----

  function OverrideRoute(r: Route, hosts: seq<string>): Route {
    Route(r.service, r.deployment, r.container, r.port, hosts, "", "", "")
  }

  /** The last listed route of each label. */
  function ByService(routes: seq<Route>): map<string, Route> {
    if routes == [] then map[]
    else ByService(routes[..|routes| - 1])[routes[|routes| - 1].service := routes[|routes| - 1]]
  }

  /** The desired routes after the overrides have been applied in order. */
  function Desired(routes: seq<Route>, overrides: seq<Override>): seq<Route> {
    if overrides == [] then routes
    else
      var before, o := Desired(routes, overrides[..|overrides| - 1]), overrides[|overrides| - 1];
      if o.service !in ByService(routes) || o.hostnames == [] then before
      else RoutesFor(before, OverrideRoute(ByService(routes)[o.service], o.hostnames))
  }

  predicate OnePerLabel(routes: seq<Route>) {
    forall r, q | r in routes && q in routes && r.service == q.service :: r == q
  }

  lemma {:induction false} ByServiceSound(routes: seq<Route>)
    ensures forall s :: s in ByService(routes) <==> exists r | r in routes :: r.service == s
    ensures forall s | s in ByService(routes) :: ByService(routes)[s] in routes && ByService(routes)[s].service == s
  {
    if routes != [] {
      ByServiceSound(routes[..|routes| - 1]);
      assert routes == routes[..|routes| - 1] + [routes[|routes| - 1]];
    }
  }

  /** The hostnames a route is due: its service's verified ones, if the control plane believes it. */
  function DueHosts(dir: Directory, server: string, r: Route): seq<string> {
    if Vouched(dir, server, r) && Named(dir, r.service) then dir.verified[r.service] else []
  }

  function Due(dir: Directory, server: string, r: Route): Route {
    var hosts := DueHosts(dir, server, r);
    if hosts == [] then r else OverrideRoute(r, hosts)
  }

  /** The hostnames of the last override of a service in the list. */
  function Lookup(overrides: seq<Override>, service: string): Option<seq<string>> {
    if overrides == [] then None
    else if overrides[|overrides| - 1].service == service then Some(overrides[|overrides| - 1].hostnames)
    else Lookup(overrides[..|overrides| - 1], service)
  }

  lemma {:induction false} LookupSound(overrides: seq<Override>, service: string)
    ensures Lookup(overrides, service).Some? ==> Override(service, Lookup(overrides, service).value) in overrides
    ensures Lookup(overrides, service).None? ==> forall o | o in overrides :: o.service != service
  {
    if overrides != [] {
      LookupSound(overrides[..|overrides| - 1], service);
      assert overrides == overrides[..|overrides| - 1] + [overrides[|overrides| - 1]];
    }
  }

  function Replaced(overrides: seq<Override>, r: Route): Route {
    match Lookup(overrides, r.service) case None => r case Some(hosts) => OverrideRoute(r, hosts)
  }

  function ReplacedAll(overrides: seq<Override>, routes: seq<Route>): seq<Route> {
    if routes == [] then []
    else ReplacedAll(overrides, routes[..|routes| - 1]) + [Replaced(overrides, routes[|routes| - 1])]
  }

  lemma {:induction false} ReplacedFrom(overrides: seq<Override>, routes: seq<Route>, x: Route) returns (r: Route)
    requires x in ReplacedAll(overrides, routes)
    ensures r in routes && x == Replaced(overrides, r)
  {
    r := routes[|routes| - 1];
    if x != Replaced(overrides, r) { r := ReplacedFrom(overrides, routes[..|routes| - 1], x); }
  }

  lemma {:induction false} ReplacedInto(overrides: seq<Override>, routes: seq<Route>, r: Route)
    requires r in routes
    ensures Replaced(overrides, r) in ReplacedAll(overrides, routes)
  {
    if r != routes[|routes| - 1] {
      assert routes == routes[..|routes| - 1] + [routes[|routes| - 1]];
      ReplacedInto(overrides, routes[..|routes| - 1], r);
    }
  }

  lemma Separate(routes: seq<Route>, r: Route, q: Route)
    requires OnePerLabel(routes) && DistinctContainers(routes) && r in routes && q in routes && r != q
    ensures r.service != q.service && r.container != q.container
  {
  }

  lemma ReplacedNext(done: seq<Override>, o: Override, r: Route)
    ensures Replaced(done + [o], r) == if r.service == o.service then OverrideRoute(r, o.hostnames)
                                         else Replaced(done, r)
  {
    assert (done + [o])[..|done|] == done;
  }

  /** Applying one more override to a list that holds the replaced routes. */
  lemma ReplaceOne(xs: seq<Route>, routes: seq<Route>, done: seq<Override>, base: Route, o: Override, x: Route)
    requires OnePerLabel(routes) && DistinctContainers(routes)
    requires forall y :: y in xs <==> y in ReplacedAll(done, routes)
    requires base in routes && base.service == o.service
    ensures x in RoutesFor(xs, OverrideRoute(base, o.hostnames)) <==> x in ReplacedAll(done + [o], routes)
  {
    var current := OverrideRoute(base, o.hostnames);
    RoutesForExact(xs, current);
    ReplacedNext(done, o, base);
    ReplacedInto(done + [o], routes, base);
    if x != current && x in xs {
      var r := ReplacedFrom(done, routes, x);
      ReplacedNext(done, o, r);
      ReplacedInto(done + [o], routes, r);
      if r != base { Separate(routes, r, base); }
    }
    if x != current && x in ReplacedAll(done + [o], routes) {
      var r := ReplacedFrom(done + [o], routes, x);
      ReplacedNext(done, o, r);
      ReplacedInto(done, routes, r);
      if r != base { Separate(routes, r, base); }
    }
  }

  lemma {:induction false} DesiredPrefix(routes: seq<Route>, overrides: seq<Override>, n: nat)
    requires OnePerLabel(routes) && DistinctContainers(routes) && n <= |overrides|
    requires forall i | 0 <= i < |overrides| ::
              overrides[i].hostnames != [] && overrides[i].service in ByService(routes)
    ensures forall x :: x in Desired(routes, overrides[..n]) <==> x in ReplacedAll(overrides[..n], routes)
  {
    if n == 0 {
      NoneReplaced(routes);
    } else {
      var init, o := overrides[..n - 1], overrides[n - 1];
      DesiredPrefix(routes, overrides, n - 1);
      assert overrides[..n][..n - 1] == init && overrides[..n] == init + [o];
      ByServiceSound(routes);
      forall x ensures x in Desired(routes, overrides[..n]) <==> x in ReplacedAll(overrides[..n], routes) {
        ReplaceOne(Desired(routes, init), routes, init, ByService(routes)[o.service], o, x);
      }
    }
  }

  lemma {:induction false} NoneReplaced(routes: seq<Route>)
    ensures ReplacedAll([], routes) == routes
  {
    if routes != [] { NoneReplaced(routes[..|routes| - 1]); }
  }

  lemma AnswerLookup(dir: Directory, server: string, routes: seq<Route>, overrides: seq<Override>, r: Route)
    requires OnePerLabel(routes) && IsAnswer(dir, server, routes, overrides) && r in routes
    ensures Replaced(overrides, r) == Due(dir, server, r)
  {
    LookupSound(overrides, r.service);
    if Vouched(dir, server, r) && Named(dir, r.service) {
      assert Override(r.service, dir.verified[r.service]) in overrides;
    }
  }

  /** The listed routes, each with the hostnames it is due. */
  function DueAll(dir: Directory, server: string, routes: seq<Route>): seq<Route> {
    if routes == [] then [] else DueAll(dir, server, routes[..|routes| - 1]) + [Due(dir, server, routes[|routes| - 1])]
  }

  lemma {:induction false} ReplacedIsDue(dir: Directory, server: string, routes: seq<Route>, overrides: seq<Override>,
          n: nat)
    requires OnePerLabel(routes) && IsAnswer(dir, server, routes, overrides) && n <= |routes|
    ensures ReplacedAll(overrides, routes[..n]) == DueAll(dir, server, routes[..n])
  {
    if n > 0 {
      ReplacedIsDue(dir, server, routes, overrides, n - 1);
      assert routes[..n][..n - 1] == routes[..n - 1];
      AnswerLookup(dir, server, routes, overrides, routes[n - 1]);
    }
  }

  lemma {:induction false} DueFrom(dir: Directory, server: string, routes: seq<Route>, x: Route) returns (r: Route)
    requires x in DueAll(dir, server, routes)
    ensures r in routes && x == Due(dir, server, r)
  {
    r := routes[|routes| - 1];
    if x != Due(dir, server, r) { r := DueFrom(dir, server, routes[..|routes| - 1], x); }
  }

  lemma {:induction false} DueInto(dir: Directory, server: string, routes: seq<Route>, r: Route)
    requires r in routes
    ensures Due(dir, server, r) in DueAll(dir, server, routes)
  {
    if r != routes[|routes| - 1] {
      assert routes == routes[..|routes| - 1] + [routes[|routes| - 1]];
      DueInto(dir, server, routes[..|routes| - 1], r);
    }
  }

  /** Where each label has one container, the desired routes are, as a set, each listed route with the
      hostnames it is due: neither the listing order nor the order of the answer matters. */
  lemma DesiredExact(dir: Directory, server: string, routes: seq<Route>, overrides: seq<Override>)
    requires OnePerLabel(routes) && DistinctContainers(routes) && IsAnswer(dir, server, routes, overrides)
    ensures forall x :: x in Desired(routes, overrides) <==> x in DueAll(dir, server, routes)
  {
    forall i | 0 <= i < |overrides| ensures overrides[i].hostnames != [] && overrides[i].service in ByService(routes) {
      var o := overrides[i];
      assert o in overrides;
      var r :| r in routes && r.service == o.service && Vouched(dir, server, r);
      ByServiceSound(routes);
    }
    DesiredPrefix(routes, overrides, |overrides|);
    assert overrides[..|overrides|] == overrides && routes[..|routes|] == routes;
    ReplacedIsDue(dir, server, routes, overrides, |routes|);
  }

  /** The due routes keep one container each. */
  lemma DueDistinct(dir: Directory, server: string, routes: seq<Route>)
    requires OnePerLabel(routes) && DistinctContainers(routes)
    ensures DistinctContainers(DueAll(dir, server, routes))
  {
    var out := DueAll(dir, server, routes);
    forall a, b | a in out && b in out && a.container == b.container ensures a == b {
      var r := DueFrom(dir, server, routes, a);
      var q := DueFrom(dir, server, routes, b);
      if r != q { Separate(routes, r, q); }
    }
  }

  // ---- Several containers of one label ----

  /** The override is placed: its service is listed and it has hostnames. */
  predicate Placed(routes: seq<Route>, overrides: seq<Override>, o: Override) {
    o in overrides && o.service in ByService(routes) && o.hostnames != []
  }

  predicate DistinctServices(overrides: seq<Override>) {
    forall i, j | 0 <= i < j < |overrides| :: overrides[i].service != overrides[j].service
  }

  /** x is what an override makes of the last listed route of its service. */
  predicate Overridden(routes: seq<Route>, overrides: seq<Override>, x: Route) {
    exists o | o in overrides ::
      Placed(routes, overrides, o) && x == OverrideRoute(ByService(routes)[o.service], o.hostnames)
  }

  /** x is listed and no override is placed on its service. */
  predicate Untouched(routes: seq<Route>, overrides: seq<Override>, x: Route) {
    x in routes && forall o | o in overrides && Placed(routes, overrides, o) :: o.service != x.service
  }

  /** The route a label maps to is the one listed last. */
  lemma {:induction false} ByServiceLast(routes: seq<Route>, s: string) returns (k: nat)
    requires s in ByService(routes)
    ensures k < |routes| && routes[k] == ByService(routes)[s] && routes[k].service == s
    ensures forall j | k < j < |routes| :: routes[j].service != s
  {
    k := |routes| - 1;
    if routes[k].service != s { k := ByServiceLast(routes[..|routes| - 1], s); }
  }

  lemma SplitLast(overrides: seq<Override>, o: Override)
    requires overrides != []
    ensures o in overrides <==> o in overrides[..|overrides| - 1] || o == overrides[|overrides| - 1]
  {
    assert overrides == overrides[..|overrides| - 1] + [overrides[|overrides| - 1]];
  }

  lemma OverriddenLast(routes: seq<Route>, overrides: seq<Override>, x: Route)
    requires overrides != []
    ensures var init, o := overrides[..|overrides| - 1], overrides[|overrides| - 1];
            Overridden(routes, overrides, x) <==>
            Overridden(routes, init, x)
              || (Placed(routes, overrides, o) && x == OverrideRoute(ByService(routes)[o.service], o.hostnames))
  {
    var init := overrides[..|overrides| - 1];
    forall o ensures o in overrides <==> o in init || o == overrides[|overrides| - 1] { SplitLast(overrides, o); }
    if o :| o in init && Placed(routes, init, o) && x == OverrideRoute(ByService(routes)[o.service], o.hostnames) {
      assert Placed(routes, overrides, o);
    }
    if o :|
      o in overrides && Placed(routes, overrides, o) && x == OverrideRoute(ByService(routes)[o.service], o.hostnames)
    {
      assert o in init ==> Placed(routes, init, o);
    }
  }

  lemma UntouchedLast(routes: seq<Route>, overrides: seq<Override>, x: Route)
    requires overrides != []
    ensures var init, o := overrides[..|overrides| - 1], overrides[|overrides| - 1];
            Untouched(routes, overrides, x) <==>
              Untouched(routes, init, x) && !(Placed(routes, overrides, o) && o.service == x.service)
  {
    var init := overrides[..|overrides| - 1];
    forall o ensures o in overrides <==> o in init || o == overrides[|overrides| - 1] { SplitLast(overrides, o); }
    assert forall o | o in init :: Placed(routes, init, o) <==> Placed(routes, overrides, o);
  }

  lemma OverriddenService(routes: seq<Route>, overrides: seq<Override>, x: Route) returns (o: Override)
    requires Overridden(routes, overrides, x)
    ensures Placed(routes, overrides, o) && o.service == x.service
    ensures ByService(routes)[o.service] in routes && x == OverrideRoute(ByService(routes)[o.service], o.hostnames)
  {
    ByServiceSound(routes);
    o :| o in overrides && Placed(routes, overrides, o)
      && x == OverrideRoute(ByService(routes)[o.service], o.hostnames);
  }

  /** A desired route of another label is in another container than the one an override is placed on. */
  lemma OtherContainer(routes: seq<Route>, overrides: seq<Override>, base: Route, x: Route)
    requires DistinctContainers(routes) && base in routes && x.service != base.service
    requires Overridden(routes, overrides, x) || Untouched(routes, overrides, x)
    ensures x.container != base.container
  {
    if Overridden(routes, overrides, x) {
      var o := OverriddenService(routes, overrides, x);
      ByServiceSound(routes);
    }
  }

  /** What the agent wants of any listing and any answer that names each service once: of an overridden
      service the route listed last, with the domains and without the rest; of every other service all its
      listed routes. */
  lemma {:induction false} DesiredEach(routes: seq<Route>, overrides: seq<Override>, x: Route)
    requires DistinctContainers(routes) && DistinctServices(overrides)
    ensures x in Desired(routes, overrides) <==> Overridden(routes, overrides, x) || Untouched(routes, overrides, x)
    decreases overrides
  {
    if overrides != [] {
      var init, o := overrides[..|overrides| - 1], overrides[|overrides| - 1];
      DesiredEach(routes, init, x);
      OverriddenLast(routes, overrides, x);
      UntouchedLast(routes, overrides, x);
      if Placed(routes, overrides, o) {
        ByServiceSound(routes);
        var base := ByService(routes)[o.service];
        RoutesForExact(Desired(routes, init), OverrideRoute(base, o.hostnames));
        if x.service != o.service && (Overridden(routes, init, x) || Untouched(routes, init, x)) {
          OtherContainer(routes, init, base, x);
        }
        if Overridden(routes, init, x) {
          var other := OverriddenService(routes, init, x);
          var i :| 0 <= i < |init| && init[i] == other;
          assert overrides[i] == other;
        }
      }
    }
  }

  lemma DesiredDistinct(routes: seq<Route>, overrides: seq<Override>)
    requires DistinctContainers(routes) && DistinctServices(overrides)
    ensures DistinctContainers(Desired(routes, overrides))
  {
    var out := Desired(routes, overrides);
    forall a, b | a in out && b in out && a.container == b.container ensures a == b {
      DesiredEach(routes, overrides, a);
      DesiredEach(routes, overrides, b);
      var p := DesiredOrigin(routes, overrides, a);
      var q := DesiredOrigin(routes, overrides, b);
      SameOrigin(routes, overrides, a, b, p, q);
    }
  }

  /** The listed route behind a desired one. */
  lemma DesiredOrigin(routes: seq<Route>, overrides: seq<Override>, x: Route) returns (r: Route)
    requires Overridden(routes, overrides, x) || Untouched(routes, overrides, x)
    ensures r in routes && r.service == x.service && r.container == x.container && r.deployment == x.deployment
              && r.port == x.port
    ensures x == r || Overridden(routes, overrides, x)
  {
    ByServiceSound(routes);
    if Overridden(routes, overrides, x) {
      var o := OverriddenService(routes, overrides, x);
      r := ByService(routes)[o.service];
    } else {
      r := x;
    }
  }

  lemma SameOrigin(routes: seq<Route>, overrides: seq<Override>, a: Route, b: Route, p: Route, q: Route)
    requires DistinctContainers(routes) && DistinctServices(overrides) && p in routes && q in routes
    requires a.container == b.container == p.container == q.container && a.service == p.service
              && b.service == q.service
    requires Overridden(routes, overrides, a) || Untouched(routes, overrides, a)
    requires Overridden(routes, overrides, b) || Untouched(routes, overrides, b)
    ensures a == b
  {
    assert p == q;
    if Overridden(routes, overrides, a) && Overridden(routes, overrides, b) {
      var o := OverriddenService(routes, overrides, a);
      var u := OverriddenService(routes, overrides, b);
      var i, j :| 0 <= i < |overrides| && 0 <= j < |overrides| && overrides[i] == o && overrides[j] == u;
    } else if Overridden(routes, overrides, a) {
      var o := OverriddenService(routes, overrides, a);
    } else if Overridden(routes, overrides, b) {
      var o := OverriddenService(routes, overrides, b);
    }
  }

  /** However many containers of a service are listed, its domains are placed on the tie-break winner exactly
      when the winner is listed last. */
  lemma DomainsReachTheWinnerExactly(routes: seq<Route>, overrides: seq<Override>, o: Override, w: Route)
    requires DistinctContainers(routes) && DistinctServices(overrides) && Placed(routes, overrides, o)
    requires Wins(w, routes) && w.service == o.service
    ensures OverrideRoute(w, o.hostnames) in Desired(routes, overrides) <==> ByService(routes)[o.service] == w
    ensures forall x | x in Desired(routes, overrides) && x.service == o.service ::
              x == OverrideRoute(ByService(routes)[o.service], o.hostnames)
  {
    ByServiceSound(routes);
    var last := ByService(routes)[o.service];
    DesiredEach(routes, overrides, OverrideRoute(last, o.hostnames));
    assert Overridden(routes, overrides, OverrideRoute(last, o.hostnames));
    forall x | x in Desired(routes, overrides) && x.service == o.service ensures x == OverrideRoute(last, o.hostnames) {
      DesiredEach(routes, overrides, x);
      if Overridden(routes, overrides, x) {
        var u := OverriddenService(routes, overrides, x);
        var i, j :| 0 <= i < |overrides| && 0 <= j < |overrides| && overrides[i] == o && overrides[j] == u;
      }
    }
  }

  /** Two listings of the same two containers whose domains go to different ones. */
  lemma ListingOrderMovesDomains(a: Route, b: Route, o: Override)
    requires a.service == b.service == o.service && a.container != b.container && o.hostnames != []
    ensures Desired([a, b], [o]) == [OverrideRoute(b, o.hostnames)]
    ensures Desired([b, a], [o]) == [OverrideRoute(a, o.hostnames)]
  {
    DesiredOfTwo(a, b, o);
    DesiredOfTwo(b, a, o);
  }

  lemma DesiredOfTwo(a: Route, b: Route, o: Override)
    requires a.service == b.service == o.service && o.hostnames != []
    ensures Desired([a, b], [o]) == [OverrideRoute(b, o.hostnames)]
  {
    assert [o][..0] == [];
    assert [a, b][..1] == [a] && [a][..0] == [];
    assert ByService([a, b])[o.service] == b;
    var current := OverrideRoute(b, o.hostnames);
    assert [a, b][1..] == [b] && [b][1..] == [];
    assert RoutesFor([b], current) == [current];
    assert RoutesFor([a, b], current) == [current];
  }

  /** The agent's loops over the listing and over the answer. */
  method ApplyOverrides(routes: seq<Route>, overrides: seq<Override>)
    returns (desired: seq<Route>, applied: seq<Override>)
    ensures desired == Desired(routes, overrides)
    ensures forall o :: o in applied <==> Placed(routes, overrides, o)
  {
    var byService: map<string, Route> := map[];
    for n := 0 to |routes|
      invariant byService == ByService(routes[..n])
    {
      assert routes[..n + 1][..n] == routes[..n];
      byService := byService[routes[n].service := routes[n]];
    }
    assert routes[..|routes|] == routes;
    desired, applied := routes, [];
    for n := 0 to |overrides|
      invariant desired == Desired(routes, overrides[..n])
      invariant forall o :: o in applied <==> o in overrides[..n] && o.service in byService && o.hostnames != []
    {
      var o := overrides[n];
      assert overrides[..n + 1][..n] == overrides[..n];
      assert overrides[..n + 1] == overrides[..n] + [o];
      if o.service !in byService || o.hostnames == [] { continue; }
      desired := RoutesForDeployment(desired, OverrideRoute(byService[o.service], o.hostnames));
      applied := applied + [o];
    }
    assert overrides[..|overrides|] == overrides;
  }


  // ---- The desired routes, field by field ----

  /** x is r with the domains: its label, its deployment, its container and its port, and neither a password nor a
      host of its own. */
  predicate WithDomains(x: Route, r: Route, hosts: seq<string>) {
    && x.service == r.service && x.deployment == r.deployment && x.container == r.container && x.port == r.port
    && x.customHosts == hosts && x.authUser == "" && x.authHash == "" && x.routeHost == ""
  }

  /** The k-th route is the last one listed of its service. */
  predicate LastListed(routes: seq<Route>, k: nat) {
    k < |routes| && forall j | k < j < |routes| :: routes[j].service != routes[k].service
  }

  ghost predicate ByOverride(routes: seq<Route>, overrides: seq<Override>, x: Route) {
    exists k: nat, o :: LastListed(routes, k) && o in overrides && o.hostnames != []
                        && routes[k].service == o.service && WithDomains(x, routes[k], o.hostnames)
  }

  lemma OverriddenExactly(routes: seq<Route>, overrides: seq<Override>, x: Route)
    ensures Overridden(routes, overrides, x) <==> ByOverride(routes, overrides, x)
  {
    ByServiceSound(routes);
    if Overridden(routes, overrides, x) {
      var o := OverriddenService(routes, overrides, x);
      var k := ByServiceLast(routes, o.service);
      assert LastListed(routes, k) && WithDomains(x, routes[k], x.customHosts);
    }
    if ByOverride(routes, overrides, x) {
      var k: nat, o :| LastListed(routes, k) && o in overrides && o.hostnames != []
                       && routes[k].service == o.service && WithDomains(x, routes[k], o.hostnames);
      assert routes[k] in routes;
      var j := ByServiceLast(routes, o.service);
      assert Placed(routes, overrides, o);
    }
  }

  /** A sync wants, of a service with an override, the route listed last, with the domains; and of every other
      service all its routes. */
  lemma DesiredExactly(routes: seq<Route>, overrides: seq<Override>, x: Route)
    requires DistinctContainers(routes) && DistinctServices(overrides)
    ensures x in Desired(routes, overrides) <==>
            || ByOverride(routes, overrides, x)
            || (x in routes && forall o | o in overrides && o.hostnames != [] :: o.service != x.service)
  {
    DesiredEach(routes, overrides, x);
    OverriddenExactly(routes, overrides, x);
    ByServiceSound(routes);
  }
}
