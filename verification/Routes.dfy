/** Route normalisation: one route per service label, the winner of the tie-break, in ascending
    order of label, whatever order the containers were listed in. */
module Routes {
  import opened Text
  import Hostnames

  /** The desired Caddy route of one running container. */
  datatype Route = Route(
    service: string, deployment: string, container: string, port: int,
    customHosts: seq<string>, authUser: string, authHash: string, routeHost: string)

  datatype RouteError = BadLabel | BadPort | BadHost | SharedHost

  function ServiceOf(r: Route): string { r.service }

  function Folded(name: string): string { Lower(TrimSpace(name)) }

  /** A route with its label and custom hosts in normal form. */
  function Clean(r: Route): Result<Route, RouteError> {
    var svc := Folded(r.service);
    if !Hostnames.ValidLabel(svc) then Err(BadLabel)
    else if r.port <= 0 || r.port > 65535 then Err(BadPort)
    else match Hostnames.CustomHosts(r.customHosts)
      case None => Err(BadHost)
      case Some(hosts) => Ok(r.(service := svc, customHosts := hosts))
  }

  function CleanAll(routes: seq<Route>): (r: Result<seq<Route>, RouteError>) {
    if routes == [] then Ok([])
    else match CleanAll(routes[..|routes| - 1])
      case Err(e) => Err(e)
      case Ok(init) => match Clean(routes[|routes| - 1])
        case Err(e) => Err(e)
        case Ok(c) => Ok(init + [c])
  }

  function TieBreak(a: Route, b: Route): int {
    if a.deployment != b.deployment then (if Less(b.deployment, a.deployment) then 1 else -1)
    else if Less(b.container, a.container) then 1
    else if Less(a.container, b.container) then -1
    else 0
  }

  /** The tie-break is a total order on (deployment, container). */
  lemma TieBreakTotal(a: Route, b: Route)
    ensures TieBreak(a, b) == -TieBreak(b, a)
    ensures TieBreak(a, b) == 0 <==> a.deployment == b.deployment && a.container == b.container
  {
    LessTotal(a.deployment, b.deployment);
    LessTotal(a.container, b.container);
  }

  lemma TieBreakTransitive(a: Route, b: Route, c: Route)
    requires TieBreak(a, b) >= 0 && TieBreak(b, c) >= 0
    ensures TieBreak(a, c) >= 0
    ensures TieBreak(a, b) > 0 || TieBreak(b, c) > 0 ==> TieBreak(a, c) > 0
  {
    TieBreakTotal(a, b);
    TieBreakTotal(b, c);
    LessTotal(a.deployment, c.deployment);
    LessTotal(a.container, c.container);
    if a.deployment != b.deployment && b.deployment != c.deployment {
      LessTransitive(c.deployment, b.deployment, a.deployment);
    }
    if a.container != b.container && b.container != c.container && a.deployment == b.deployment == c.deployment {
      LessTransitive(c.container, b.container, a.container);
    }
  }

  // ---- The winners, as one ascending list ----

  /** r takes its place in an ascending list, displacing a route of its service only if it wins. */
  function Merge(r: Route, ws: seq<Route>): seq<Route> {
    if ws == [] || Less(r.service, ws[0].service) then [r] + ws
    else if r.service == ws[0].service then [if TieBreak(r, ws[0]) > 0 then r else ws[0]] + ws[1..]
    else [ws[0]] + Merge(r, ws[1..])
  }

  function Winners(cs: seq<Route>): seq<Route> {
    if cs == [] then [] else Merge(cs[|cs| - 1], Winners(cs[..|cs| - 1]))
  }

  function Find(ws: seq<Route>, service: string): Option<Route> {
    if ws == [] then None else if ws[0].service == service then Some(ws[0]) else Find(ws[1..], service)
  }

  predicate SharesHost(a: Route, b: Route) { exists h | h in a.customHosts :: h in b.customHosts }

  predicate Shared(ws: seq<Route>) {
    exists i, j | 0 <= i < |ws| && 0 <= j < |ws| :: ws[i].service != ws[j].service && SharesHost(ws[i], ws[j])
  }

  function Normalize(routes: seq<Route>): Result<seq<Route>, RouteError> {
    match CleanAll(routes)
    case Err(e) => Err(e)
    case Ok(cs) => if Shared(Winners(cs)) then Err(SharedHost) else Ok(Winners(cs))
  }

  lemma {:induction false} MergeSound(r: Route, ws: seq<Route>)
    requires Ascending(ws, ServiceOf)
    ensures Ascending(Merge(r, ws), ServiceOf)
    ensures forall x | x in Merge(r, ws) :: x == r || x in ws
    ensures forall s :: Find(Merge(r, ws), s) ==
                        if s != r.service then Find(ws, s)
                        else if Find(ws, s).Some? && TieBreak(r, Find(ws, s).value) <= 0 then Find(ws, s)
                        else Some(r)
  {
    if ws != [] {
      assert ws == [ws[0]] + ws[1..];
      LessTotal(r.service, ws[0].service);
      if Less(r.service, ws[0].service) {
        forall j | 0 <= j < |ws| ensures Less(r.service, ws[j].service) {
          if 0 < j { LessTransitive(r.service, ws[0].service, ws[j].service); }
        }
        FindAbsent(ws, r.service);
      } else if r.service != ws[0].service {
        MergeSound(r, ws[1..]);
        var rest := Merge(r, ws[1..]);
        forall j | 0 <= j < |rest| ensures Less(ws[0].service, rest[j].service) {
          assert rest[j] in Merge(r, ws[1..]);
          if rest[j] != r {
            var k :| 0 <= k < |ws[1..]| && ws[1..][k] == rest[j];
            assert ws[k + 1] == rest[j];
          }
        }
      } else {
        FindAbsent(ws[1..], r.service);
      }
    }
  }

  lemma {:induction false} FindAbsent(ws: seq<Route>, s: string)
    requires forall j | 0 <= j < |ws| :: Less(s, ws[j].service)
    ensures Find(ws, s).None?
  {
    if ws != [] {
      LessTotal(s, ws[0].service);
      FindAbsent(ws[1..], s);
    }
  }

  lemma {:induction false} FindSound(ws: seq<Route>, s: string)
    ensures Find(ws, s).Some? ==> Find(ws, s).value in ws && Find(ws, s).value.service == s
    ensures Find(ws, s).None? ==> forall x | x in ws :: x.service != s
  {
    if ws != [] {
      FindSound(ws[1..], s);
      assert ws == [ws[0]] + ws[1..];
    }
  }

  /** In an ascending list a member is found under its label. */
  lemma FindMember(ws: seq<Route>, x: Route)
    requires Ascending(ws, ServiceOf) && x in ws
    ensures Find(ws, x.service) == Some(x)
  {
    FindSound(ws, x.service);
    var y := Find(ws, x.service).value;
    var i, j :| 0 <= i < |ws| && 0 <= j < |ws| && ws[i] == x && ws[j] == y;
    LessTotal(x.service, x.service);
  }

  /** x wins its label among cs. */
  predicate Wins(x: Route, cs: seq<Route>) {
    x in cs && forall c | c in cs && c.service == x.service :: TieBreak(x, c) >= 0
  }

  /** The winners ascend by label; every label has one, and each is a maximum of the tie-break. */
  lemma {:induction false} WinnersSound(cs: seq<Route>)
    ensures Ascending(Winners(cs), ServiceOf)
    ensures forall x | x in Winners(cs) :: Wins(x, cs)
    ensures forall c | c in cs :: Find(Winners(cs), c.service).Some?
  {
    if cs != [] {
      var init, r := cs[..|cs| - 1], cs[|cs| - 1];
      assert cs == init + [r];
      WinnersSound(init);
      var ws := Winners(init);
      MergeSound(r, ws);
      TieBreakTotal(r, r);
      forall x | x in Winners(cs) ensures Wins(x, cs) {
        FindMember(Winners(cs), x);
        if x == r {
          if Find(ws, r.service).Some? {
            var held := Find(ws, r.service).value;
            FindSound(ws, r.service);
            TieBreakTotal(r, held);
            forall c | c in init && c.service == r.service ensures TieBreak(r, c) >= 0 {
              TieBreakTransitive(r, held, c);
            }
          } else {
            forall c | c in init ensures c.service != r.service { assert Find(ws, c.service).Some?; }
          }
        } else {
          assert x in ws;
          FindMember(ws, x);
          if x.service == r.service { TieBreakTotal(r, x); }
        }
      }
    }
  }

  lemma {:induction false} CleanAllSound(routes: seq<Route>)
    ensures CleanAll(routes).Ok? <==> forall r | r in routes :: Clean(r).Ok?
    ensures CleanAll(routes).Ok? ==>
              forall c :: c in CleanAll(routes).value <==> exists r :: r in routes && Clean(r) == Ok(c)
  {
    if routes != [] {
      var init, last := routes[..|routes| - 1], routes[|routes| - 1];
      CleanAllSound(init);
      assert routes == init + [last];
      if CleanAll(routes).Ok? {
        forall c | c in CleanAll(routes).value ensures exists r :: r in routes && Clean(r) == Ok(c) {
          if c in CleanAll(init).value {
            var r :| r in init && Clean(r) == Ok(c);
            assert r in routes;
          } else {
            assert last in routes;
          }
        }
      }
    }
  }

  /** Containers have distinct ids: two listed routes with one id are one route. */
  predicate DistinctContainers(routes: seq<Route>) {
    forall a, b | a in routes && b in routes && a.container == b.container :: a == b
  }

  predicate TieFree(cs: seq<Route>) {
    forall x, y | x in cs && y in cs && x.service == y.service && TieBreak(x, y) == 0 :: x == y
  }

  lemma CleanTieFree(routes: seq<Route>)
    requires DistinctContainers(routes) && CleanAll(routes).Ok?
    ensures TieFree(CleanAll(routes).value)
  {
    var cs := CleanAll(routes).value;
    forall x, y | x in cs && y in cs && x.service == y.service && TieBreak(x, y) == 0 ensures x == y {
      TieBreakTotal(x, y);
      var r := CleanOrigin(routes, x);
      var q := CleanOrigin(routes, y);
    }
  }

  lemma CleanKeeps(r: Route, c: Route)
    requires Clean(r) == Ok(c)
    ensures r.container == c.container && r.deployment == c.deployment
  {
  }

  lemma CleanAllLast(routes: seq<Route>)
    requires routes != [] && CleanAll(routes).Ok?
    ensures CleanAll(routes[..|routes| - 1]).Ok? && Clean(routes[|routes| - 1]).Ok?
    ensures CleanAll(routes).value == CleanAll(routes[..|routes| - 1]).value + [Clean(routes[|routes| - 1]).value]
  {
  }

  lemma {:induction false} CleanOrigin(routes: seq<Route>, c: Route) returns (r: Route)
    requires CleanAll(routes).Ok? && c in CleanAll(routes).value
    ensures r in routes && Clean(r) == Ok(c)
    ensures r.container == c.container && r.deployment == c.deployment
  {
    CleanAllLast(routes);
    var init := routes[..|routes| - 1];
    if c in CleanAll(init).value {
      r := CleanOrigin(init, c);
    } else {
      r := routes[|routes| - 1];
      CleanKeeps(r, c);
    }
  }

  /** Without ties the winners are exactly the maxima, so they depend on the set of routes only. */
  lemma WinnersExact(cs: seq<Route>)
    requires TieFree(cs)
    ensures forall x :: x in Winners(cs) <==> Wins(x, cs)
  {
    WinnersSound(cs);
    forall x | Wins(x, cs) ensures x in Winners(cs) {
      FindSound(Winners(cs), x.service);
      var y := Find(Winners(cs), x.service).value;
      assert Wins(y, cs);
      TieBreakTotal(x, y);
    }
  }

  /** Two winners of different labels claim one custom host. */
  predicate Clash(cs: seq<Route>) {
    exists x, y | x in cs && y in cs :: Wins(x, cs) && Wins(y, cs) && x.service != y.service && SharesHost(x, y)
  }

  lemma SharedExactly(cs: seq<Route>)
    requires TieFree(cs)
    ensures Shared(Winners(cs)) <==> Clash(cs)
  {
    WinnersExact(cs);
    var ws := Winners(cs);
    if x, y :| x in cs && y in cs && Wins(x, cs) && Wins(y, cs) && x.service != y.service && SharesHost(x, y) {
      SharedFound(ws, y, x);
    }
    if i, j :| 0 <= i < |ws| && 0 <= j < |ws| && ws[i].service != ws[j].service && SharesHost(ws[i], ws[j]) {
      assert Wins(ws[i], cs) && Wins(ws[j], cs);
    }
  }

  /** What normalisation returns, and exactly when it fails: some route is malformed, or two
      winners of different labels claim one custom host. */
  lemma NormalizeExact(routes: seq<Route>)
    requires DistinctContainers(routes)
    ensures Normalize(routes).Ok? <==> CleanAll(routes).Ok? && !Clash(CleanAll(routes).value)
    ensures Normalize(routes).Ok? ==>
            && Ascending(Normalize(routes).value, ServiceOf)
            && forall x :: x in Normalize(routes).value <==> Wins(x, CleanAll(routes).value)
  {
    if CleanAll(routes).Ok? {
      var cs := CleanAll(routes).value;
      CleanTieFree(routes);
      WinnersExact(cs);
      WinnersSound(cs);
      SharedExactly(cs);
    }
  }

  /** Success and the result depend only on the set of routes, not on the order of the listing. */
  lemma NormalizeOrderFree(a: seq<Route>, b: seq<Route>)
    requires forall r :: r in a <==> r in b
    requires DistinctContainers(a)
    ensures Normalize(a).Ok? <==> Normalize(b).Ok?
    ensures Normalize(a).Ok? ==> Normalize(a) == Normalize(b)
  {
    CleanAllSound(a);
    CleanAllSound(b);
    if CleanAll(a).Ok? {
      var ca, cb := CleanAll(a).value, CleanAll(b).value;
      assert forall c :: c in ca <==> c in cb;
      CleanTieFree(a);
      assert TieFree(cb);
      WinnersExact(ca);
      WinnersExact(cb);
      assert forall x :: Wins(x, ca) <==> Wins(x, cb);
      WinnersSound(ca);
      WinnersSound(cb);
      AscendingUnique(Winners(ca), Winners(cb), ServiceOf);
    }
  }

  // ---- The agent's loops ----

  /** The map holds exactly the list's routes, keyed by label. */
  ghost predicate Represents(m: map<string, Route>, ws: seq<Route>) {
    forall s :: if s in m then Find(ws, s) == Some(m[s]) else Find(ws, s) == None
  }

  lemma KeepWinner(m: map<string, Route>, ws: seq<Route>, c: Route)
    requires Represents(m, ws) && Ascending(ws, ServiceOf)
    ensures Represents(if c.service !in m || TieBreak(c, m[c.service]) > 0 then m[c.service := c] else m, Merge(c, ws))
  {
    MergeSound(c, ws);
  }

  /** The checks at the head of the first loop. */
  method CleanRoute(route: Route) returns (r: Result<Route, RouteError>)
    ensures r == Clean(route)
  {
    var svc := Folded(route.service);
    if !Hostnames.ValidLabel(svc) { return Err(BadLabel); }
    if route.port <= 0 || route.port > 65535 { return Err(BadPort); }
    var hosts := Hostnames.NormalizeCustomHosts(route.customHosts);
    if hosts.None? { return Err(BadHost); }
    return Ok(route.(service := svc, customHosts := hosts.value));
  }

  method CollectWinners(routes: seq<Route>) returns (r: Result<map<string, Route>, RouteError>)
    ensures r.Err? <==> CleanAll(routes).Err?
    ensures r.Err? ==> CleanAll(routes) == Err(r.error)
    ensures r.Ok? ==> Represents(r.value, Winners(CleanAll(routes).value))
  {
    var byService: map<string, Route> := map[];
    ghost var cs: seq<Route> := [];
    for n := 0 to |routes|
      invariant CleanAll(routes[..n]) == Ok(cs)
      invariant Represents(byService, Winners(cs))
    {
      var cleaned := CleanRoute(routes[n]);
      if cleaned.Err? {
        FailedNext(routes, n, cs, cleaned.error);
        return Err(cleaned.error);
      }
      var c := cleaned.value;
      CleanedNext(routes, n, cs, c);
      WinnersSound(cs);
      KeepWinner(byService, Winners(cs), c);
      assert (cs + [c])[..|cs|] == cs;
      if c.service !in byService || TieBreak(c, byService[c.service]) > 0 {
        byService := byService[c.service := c];
      }
      cs := cs + [c];
    }
    assert routes[..|routes|] == routes;
    return Ok(byService);
  }

  lemma CleanedNext(routes: seq<Route>, n: nat, cs: seq<Route>, c: Route)
    requires n < |routes| && CleanAll(routes[..n]) == Ok(cs) && Clean(routes[n]) == Ok(c)
    ensures CleanAll(routes[..n + 1]) == Ok(cs + [c])
  {
    assert routes[..n + 1][..n] == routes[..n];
  }

  lemma FailedNext(routes: seq<Route>, n: nat, cs: seq<Route>, e: RouteError)
    requires n < |routes| && CleanAll(routes[..n]) == Ok(cs) && Clean(routes[n]) == Err(e)
    ensures CleanAll(routes) == Err(e)
  {
    assert routes[..n + 1][..n] == routes[..n];
    FirstErrorStays(routes, n + 1);
  }

  lemma {:induction false} FirstErrorStays(routes: seq<Route>, n: nat)
    requires n <= |routes| && CleanAll(routes[..n]).Err?
    ensures CleanAll(routes) == CleanAll(routes[..n])
  {
    if n < |routes| {
      var init := routes[..|routes| - 1];
      assert init[..n] == routes[..n];
      FirstErrorStays(init, n);
    } else {
      assert routes[..n] == routes;
    }
  }

  /** owners maps each custom host of the routes to the label of the route that has it. */
  ghost predicate Owned(routes: seq<Route>, owners: map<string, string>) {
    && (forall x, h | x in routes && h in x.customHosts :: h in owners && owners[h] == x.service)
    && (forall h | h in owners :: exists x :: x in routes && h in x.customHosts && x.service == owners[h])
  }

  /** Claim a route's hosts, unless a route of another label already has one of them. */
  method ClaimHosts(route: Route, out: seq<Route>, owners: map<string, string>)
    returns (clash: bool, owners': map<string, string>)
    requires Owned(out, owners) && forall x | x in out :: x.service != route.service
    ensures clash <==> exists x | x in out :: x.service != route.service && SharesHost(route, x)
    ensures !clash ==> Owned(out + [route], owners')
  {
    owners' := owners;
    for n := 0 to |route.customHosts|
      invariant owners' == Claimed(owners, route, n)
      invariant forall h | h in route.customHosts[..n] :: h !in owners
    {
      var host := route.customHosts[n];
      ClaimedExact(owners, route, n, host);
      if host in owners' && owners'[host] != route.service {
        ghost var x :| x in out && host in x.customHosts && x.service == owners[host];
        assert SharesHost(route, x);
        return true, owners';
      }
      owners' := owners'[host := route.service];
    }
    assert route.customHosts[..|route.customHosts|] == route.customHosts;
    clash := false;
    ClaimedOwned(route, out, owners);
  }

  /** The owners once the first n hosts of a route are claimed. */
  function Claimed(owners: map<string, string>, route: Route, n: nat): map<string, string>
    requires n <= |route.customHosts|
  {
    if n == 0 then owners else Claimed(owners, route, n - 1)[route.customHosts[n - 1] := route.service]
  }

  lemma {:induction false} ClaimedExact(owners: map<string, string>, route: Route, n: nat, h: string)
    requires n <= |route.customHosts|
    ensures h in Claimed(owners, route, n) <==> h in owners || h in route.customHosts[..n]
    ensures h in Claimed(owners, route, n) ==>
              Claimed(owners, route, n)[h] == if h in route.customHosts[..n] then route.service else owners[h]
  {
    if 0 < n {
      ClaimedExact(owners, route, n - 1, h);
      assert route.customHosts[..n] == route.customHosts[..n - 1] + [route.customHosts[n - 1]];
    }
  }

  lemma ClaimedOwned(route: Route, out: seq<Route>, owners: map<string, string>)
    requires Owned(out, owners) && forall h | h in route.customHosts :: h !in owners
    ensures Owned(out + [route], Claimed(owners, route, |route.customHosts|))
    ensures forall x | x in out :: !SharesHost(route, x)
  {
    var n := |route.customHosts|;
    assert route.customHosts[..n] == route.customHosts;
    assert route in out + [route];
    forall h ensures h in Claimed(owners, route, n) <==> h in owners || h in route.customHosts
             ensures h in Claimed(owners, route, n) ==>
                       Claimed(owners, route, n)[h] == if h in route.customHosts then route.service else owners[h]
    {
      ClaimedExact(owners, route, n, h);
    }
  }

  /** out holds the winners whose labels have been walked, each once. */
  ghost predicate Walked(ws: seq<Route>, left: set<string>, out: seq<Route>) {
    DistinctKeys(out, ServiceOf) && forall x :: x in out <==> x in ws && x.service !in left
  }

  lemma WalkOne(ws: seq<Route>, left: set<string>, out: seq<Route>, route: Route)
    requires Ascending(ws, ServiceOf) && Walked(ws, left, out) && route in ws && route.service in left
    ensures Walked(ws, left - {route.service}, out + [route])
  {
    forall x ensures x in out + [route] <==> x in ws && x.service !in left - {route.service} {
      if x in ws && x.service == route.service {
        FindMember(ws, x);
        FindMember(ws, route);
      }
    }
    assert forall i | 0 <= i < |out| :: out[i] in out;
  }

  lemma AllWalked(ws: seq<Route>, out: seq<Route>, owners: map<string, string>)
    requires Ascending(ws, ServiceOf) && Walked(ws, {}, out) && Owned(out, owners)
    ensures SortBy(out, ServiceOf) == ws && !Shared(ws)
  {
    NoneShared(ws, out, owners);
    SortSound(out, ServiceOf);
    AscendingUnique(SortBy(out, ServiceOf), ws, ServiceOf);
  }

  /** normalizeRoutes: the result is Normalize's whichever order the map is walked in. */
  method NormalizeRoutes(routes: seq<Route>) returns (r: Result<seq<Route>, RouteError>)
    ensures r == Normalize(routes)
  {
    var collected := CollectWinners(routes);
    if collected.Err? { return Err(collected.error); }
    ghost var ws := Winners(CleanAll(routes).value);
    WinnersSound(CleanAll(routes).value);
    var out := WalkWinners(collected.value, ws);
    r := if out.None? then Err(SharedHost) else Ok(SortBy(out.value, ServiceOf));
  }

  /** The loop over the map, which claims every route's hosts. */
  method WalkWinners(byService: map<string, Route>, ghost ws: seq<Route>) returns (r: Option<seq<Route>>)
    requires Represents(byService, ws) && Ascending(ws, ServiceOf)
    ensures r.None? <==> Shared(ws)
    ensures r.Some? ==> SortBy(r.value, ServiceOf) == ws
  {
    var out: seq<Route> := [];
    var seenHosts: map<string, string> := map[];
    var left := byService.Keys;
    NoneWalked(byService, ws);
    while left != {}
      invariant left <= byService.Keys
      invariant Walked(ws, left, out) && Owned(out, seenHosts)
      decreases left
    {
      var service :| service in left;
      var route := byService[service];
      FindSound(ws, service);
      var clash;
      clash, seenHosts := ClaimHosts(route, out, seenHosts);
      if clash {
        ghost var x :| x in out && x.service != service && SharesHost(route, x);
        SharedFound(ws, x, route);
        return None;
      }
      WalkOne(ws, left, out, route);
      out := out + [route];
      left := left - {service};
    }
    AllWalked(ws, out, seenHosts);
    return Some(out);
  }

  lemma NoneWalked(byService: map<string, Route>, ws: seq<Route>)
    requires Represents(byService, ws)
    ensures Walked(ws, byService.Keys, [])
  {
    forall x | x in ws ensures x.service in byService { FindSound(ws, x.service); }
  }

  lemma SharedFound(ws: seq<Route>, a: Route, b: Route)
    requires a in ws && b in ws && a.service != b.service && SharesHost(b, a)
    ensures Shared(ws)
  {
    var i, j :| 0 <= i < |ws| && 0 <= j < |ws| && ws[i] == a && ws[j] == b;
    assert SharesHost(ws[i], ws[j]);
  }

  lemma NoneShared(ws: seq<Route>, out: seq<Route>, owners: map<string, string>)
    requires forall x | x in ws :: x in out
    requires Owned(out, owners)
    ensures !Shared(ws)
  {
    forall i, j, h | 0 <= i < |ws| && 0 <= j < |ws| && h in ws[i].customHosts && h in ws[j].customHosts
      ensures ws[i].service == ws[j].service
    {
      assert ws[i] in out && ws[j] in out;
      assert owners[h] == ws[i].service && owners[h] == ws[j].service;
    }
  }
}
