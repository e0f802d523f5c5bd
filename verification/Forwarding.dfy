/** The generated address of a service: which container a rendered configuration forwards it to. */
module Forwarding {
  import opened Text
  import opened Routes
  import opened Caddyfile
  import Hostnames
  import PreviewNames
  import opened Serving
  import Syncing
  import TearingDown

  // ---- Routes as the control plane asks for them ----

  predicate ProductionRoute(r: Route) { PreviewNames.IsUuid(r.service) && r.routeHost == "" && r.customHosts == [] }

  predicate PreviewRoute(r: Route) {
    && Hostnames.ValidLabel(r.service) && |r.service| >= 38
    && Hostnames.ValidLabel(r.routeHost) && !PreviewNames.IsUuid(r.routeHost)
    && r.customHosts == []
  }

  predicate Stamped(r: Route) { ProductionRoute(r) || PreviewRoute(r) }

  function GeneratedName(p: string, cfg: Settings): string { p + "." + Folded(cfg.baseDomain) }

  function AddressOf(p: string, cfg: Settings): string { SiteAddress(GeneratedName(p, cfg), cfg.httpPort) }

  /** Verified domains, in the form the control plane stores. */
  predicate Domains(hosts: seq<string>) {
    forall i | 0 <= i < |hosts| :: Hostnames.NormalizeHostname(hosts[i]) == Ok(hosts[i])
  }

  /** A preview's route, or a production route with verified domains on it. */
  predicate Sane(r: Route) {
    PreviewRoute(r) || (PreviewNames.IsUuid(r.service) && r.routeHost == "" && Domains(r.customHosts))
  }

  lemma AddressApart(a: string, b: string, port: nat)
    requires SiteAddress(a, port) == SiteAddress(b, port)
    ensures a == b
  {
    var prefix: string := "http://";
    if port == 80 {
      assert (prefix + a)[7..] == a && (prefix + b)[7..] == b;
    } else {
      var tail := ":" + Itoa(port);
      var x, y := SiteAddress(a, port), SiteAddress(b, port);
      assert x == prefix + a + tail && y == prefix + b + tail;
      assert x[7..|x| - |tail|] == a && y[7..|y| - |tail|] == b;
    }
  }

  lemma SameHead(a: string, b: string, dot: string, tail: string)
    requires a + dot + tail == b + dot + tail
    ensures a == b
  {
    var x, y := a + dot + tail, b + dot + tail;
    assert |a| == |b|;
    assert a == x[..|a|] && b == y[..|b|];
  }

  lemma LabelFixed(s: string)
    requires Hostnames.ValidLabel(s)
    ensures Folded(s) == s
  {
    assert forall i | 0 <= i < |s| :: Hostnames.IsLabelChar(s[i]);
    TrimFixed(s, IsSpace);
  }

  lemma BaseFixed(cfg: Settings)
    requires cfg.Valid()
    ensures Hostnames.ValidDomain(Folded(cfg.baseDomain))
  {
    Hostnames.ValidDomainFixed(cfg.baseDomain);
    Hostnames.DomainChars(cfg.baseDomain);
    var b := cfg.baseDomain;
    assert forall i | 0 <= i < |b| :: Hostnames.IsDomainChar(b[i]);
    TrimFixed(b, IsSpace);
    assert Lower(b) == b;
  }

  lemma SaneLabels(r: Route)
    requires Sane(r)
    ensures Folded(r.service) == r.service && Hostnames.ValidLabel(r.service)
    ensures Folded(HostLabel(r)) == HostLabel(r) && Hostnames.ValidLabel(HostLabel(r))
    ensures PreviewNames.IsUuid(HostLabel(r)) ==> HostLabel(r) == r.service
  {
    if PreviewRoute(r) {
      LabelFixed(r.service);
      LabelFixed(r.routeHost);
    } else {
      Syncing.UuidLabel(r.service);
    }
  }

  /** Cleaning such a route leaves everything but the order of its hosts. */
  lemma SaneClean(r: Route, y: Route)
    requires Sane(r) && Clean(r) == Ok(y)
    ensures y == r.(customHosts := y.customHosts) && 0 < r.port
    ensures forall n :: n in y.customHosts <==> n in r.customHosts
  {
    SaneLabels(r);
    if PreviewRoute(r) {
      Hostnames.CustomHostsExact([], []);
    } else {
      Hostnames.AcceptedDomainsRoute(r.customHosts);
    }
  }

  lemma {:induction false} CleanInto(routes: seq<Route>, r: Route) returns (c: Route)
    requires CleanAll(routes).Ok? && r in routes
    ensures Clean(r) == Ok(c) && c in CleanAll(routes).value
  {
    CleanAllLast(routes);
    var init := routes[..|routes| - 1];
    if r in init { c := CleanInto(init, r); } else { c := Clean(routes[|routes| - 1]).value; }
  }

  predicate AllSane(routes: seq<Route>) { forall r | r in routes :: Sane(r) && AuthReadable(r) }

  predicate KeepsLabel(r: Route) { Clean(r).Ok? ==> Clean(r).value.service == r.service }

  lemma SaneKeep(routes: seq<Route>)
    requires AllSane(routes)
    ensures forall r | r in routes :: KeepsLabel(r)
  {
    forall r | r in routes ensures KeepsLabel(r) { SaneLabels(r); }
  }

  lemma SameTie(a: Route, b: Route, a': Route, b': Route)
    requires a.container == a'.container && a.deployment == a'.deployment
    requires b.container == b'.container && b.deployment == b'.deployment
    ensures TieBreak(a, b) == TieBreak(a', b')
  {
  }

  /** Where cleaning keeps the labels, a route wins its label exactly when its clean form does. */
  lemma CleanWins(routes: seq<Route>, x: Route, y: Route, cs: seq<Route>)
    requires forall r | r in routes :: KeepsLabel(r)
    requires CleanAll(routes) == Ok(cs) && x in routes && Clean(x) == Ok(y)
    ensures Wins(y, cs) <==> Wins(x, routes)
  {
    CleanKeeps(x, y);
    var z := CleanInto(routes, x);
    if Wins(y, cs) {
      forall r | r in routes && r.service == x.service ensures TieBreak(x, r) >= 0 {
        var c := CleanInto(routes, r);
        CleanKeeps(r, c);
        SameTie(x, r, y, c);
      }
    }
    if Wins(x, routes) {
      forall c | c in cs && c.service == y.service ensures TieBreak(y, c) >= 0 {
        var r := CleanOrigin(routes, c);
        SameTie(x, r, y, c);
      }
    }
  }

  /** x wins label p among the routes. */
  predicate Top(routes: seq<Route>, p: string, x: Route) { x.service == p && Wins(x, routes) }

  // ---- Sites ----

  /** The hosts of a route are its generated name and its custom hosts. */
  lemma SiteNamed(y: Route, cfg: Settings, s: Site) returns (n: string)
    requires Folded(HostLabel(y)) == HostLabel(y) && y.port >= 0 && s in SitesFor(y, cfg)
    ensures n == GeneratedName(HostLabel(y), cfg) || n in y.customHosts
    ensures s == Site(SiteAddress(n, cfg.httpPort), AuthOf(y), y.port)
  {
    var hosts := [GeneratedName(HostLabel(y), cfg)] + y.customHosts;
    SitesAtExact(hosts, y, cfg.httpPort, s);
    n :| n in hosts && s.address == SiteAddress(n, cfg.httpPort);
  }

  lemma GeneratedSite(y: Route, cfg: Settings) returns (s: Site)
    requires cfg.Valid() && y.port >= 0 && Folded(HostLabel(y)) == HostLabel(y) && Hostnames.ValidLabel(HostLabel(y))
    ensures s in SitesFor(y, cfg) && s == Site(AddressOf(HostLabel(y), cfg), AuthOf(y), y.port)
  {
    BaseFixed(cfg);
    var host := GeneratedName(HostLabel(y), cfg);
    s := Site(SiteAddress(host, cfg.httpPort), AuthOf(y), y.port);
    SitesAtExact([host] + y.customHosts, y, cfg.httpPort, s);
    assert host in [host] + y.customHosts;
  }

  /** The route has a host at the generated address of label l: its own, or a verified domain that spells it. */
  predicate Claims(r: Route, cfg: Settings, l: string) { HostLabel(r) == l || GeneratedName(l, cfg) in r.customHosts }

  /** A site at l's generated address belongs to a route that claims it. */
  lemma ClaimedSite(r: Route, y: Route, cfg: Settings, l: string, s: Site)
    requires Sane(r) && Clean(r) == Ok(y)
    requires y.port >= 0 && s in SitesFor(y, cfg) && s.address == AddressOf(l, cfg)
    ensures Claims(r, cfg, l) && s.port == r.port
  {
    SaneClean(r, y);
    SaneLabels(r);
    var n := SiteNamed(y, cfg, s);
    AddressApart(n, GeneratedName(l, cfg), cfg.httpPort);
    if n !in y.customHosts { SameHead(HostLabel(r), l, ".", Folded(cfg.baseDomain)); }
  }

  lemma CustomSite(y: Route, cfg: Settings, n: string) returns (s: Site)
    requires cfg.Valid() && y.port >= 0 && Folded(HostLabel(y)) == HostLabel(y) && Hostnames.ValidLabel(HostLabel(y))
    requires n in y.customHosts
    ensures s in SitesFor(y, cfg) && s == Site(SiteAddress(n, cfg.httpPort), AuthOf(y), y.port)
  {
    BaseFixed(cfg);
    var hosts := [GeneratedName(HostLabel(y), cfg)] + y.customHosts;
    s := Site(SiteAddress(n, cfg.httpPort), AuthOf(y), y.port);
    SitesAtExact(hosts, y, cfg.httpPort, s);
    assert n in hosts;
  }

  /** The host is one of the route's: its generated name or a custom one. */
  predicate HasHost(x: Route, cfg: Settings, n: string) { n == GeneratedName(HostLabel(x), cfg) || n in x.customHosts }

  // ---- What a rendered configuration serves ----

  /** Every loaded site is a winner's, at one of its hosts. */
  lemma ServedBy(routes: seq<Route>, cfg: Settings, s: Site) returns (x: Route, y: Route)
    requires cfg.Valid() && Render(routes, cfg).Ok? && AllSane(routes)
    requires Read(Render(routes, cfg).value).Some? && s in Read(Render(routes, cfg).value).value
    ensures Wins(x, routes) && Sane(x) && Clean(x) == Ok(y) && y.port >= 0 && s in SitesFor(y, cfg)
  {
    y := RenderedFrom(routes, cfg, s);
    x := CleanOrigin(routes, y);
    SaneKeep(routes);
    CleanWins(routes, x, y, CleanAll(routes).value);
  }

  lemma WinnerCleans(routes: seq<Route>, x: Route) returns (y: Route)
    requires AllSane(routes) && CleanAll(routes).Ok? && Wins(x, routes)
    ensures Sane(x) && Clean(x) == Ok(y) && Wins(y, CleanAll(routes).value)
  {
    SaneKeep(routes);
    y := CleanInto(routes, x);
    CleanWins(routes, x, y, CleanAll(routes).value);
  }

  lemma AllReadable(routes: seq<Route>)
    requires AllSane(routes)
    ensures forall r | r in routes :: AuthReadable(r)
  {
  }

  lemma NamedSite(x: Route, y: Route, cfg: Settings, n: string) returns (s: Site)
    requires cfg.Valid() && Sane(x) && Clean(x) == Ok(y) && HasHost(x, cfg, n)
    ensures y.port >= 0 && s in SitesFor(y, cfg)
    ensures x.port >= 0 && s == Site(SiteAddress(n, cfg.httpPort), AuthOf(x), x.port)
  {
    SaneClean(x, y);
    SaneLabels(x);
    if n in x.customHosts { s := CustomSite(y, cfg, n); } else { s := GeneratedSite(y, cfg); }
  }

  /** Every host of a winner is served. */
  lemma WinnerServed(routes: seq<Route>, cfg: Settings, x: Route, n: string) returns (s: Site)
    requires cfg.Valid() && Render(routes, cfg).Ok? && DistinctContainers(routes) && AllSane(routes)
    requires Wins(x, routes) && HasHost(x, cfg, n)
    ensures Read(Render(routes, cfg).value).Some? && s in Read(Render(routes, cfg).value).value
    ensures x.port >= 0 && s == Site(SiteAddress(n, cfg.httpPort), AuthOf(x), x.port)
  {
    Syncing.RenderCleans(routes, cfg);
    var y := WinnerCleans(routes, x);
    s := NamedSite(x, y, cfg, n);
    AllReadable(routes);
    RenderedInto(routes, cfg, y, s);
  }

  predicate ServesHost(h: Host, cfg: Settings, n: string) {
    exists s | s in LoadedSites(h) :: s.address == SiteAddress(n, cfg.httpPort)
  }

  /** The hosts served are exactly the winners' generated names and custom hosts. */
  lemma HostsServedExactly(h: Host, cfg: Settings, routes: seq<Route>, n: string)
    requires cfg.Valid() && DistinctContainers(routes) && AllSane(routes)
    requires TearingDown.RunsText(h.caddy, Render(routes, cfg))
    ensures ServesHost(h, cfg, n) <==> exists x | x in routes :: Wins(x, routes) && HasHost(x, cfg, n)
  {
    if s :| s in LoadedSites(h) && s.address == SiteAddress(n, cfg.httpPort) {
      var x, y := ServedBy(routes, cfg, s);
      SaneClean(x, y);
      SaneLabels(x);
      var m := SiteNamed(y, cfg, s);
      AddressApart(m, n, cfg.httpPort);
      assert HasHost(x, cfg, n);
    }
    if x :| x in routes && Wins(x, routes) && HasHost(x, cfg, n) {
      var s := WinnerServed(routes, cfg, x, n);
      assert s in LoadedSites(h);
    }
  }

  /** Caddy forwards l's generated address to this port, and to no other. */
  predicate Forwards(h: Host, cfg: Settings, l: string, port: int) {
    && (exists s | s in LoadedSites(h) :: s.address == AddressOf(l, cfg))
    && (forall s | s in LoadedSites(h) && s.address == AddressOf(l, cfg) :: s.port == port)
  }

  /** The winner claims l's generated address. */
  predicate Claimant(routes: seq<Route>, cfg: Settings, l: string, x: Route) { Wins(x, routes) && Claims(x, cfg, l) }

  /** An address is forwarded to a port exactly when some winner claims it and every winner that does has
      that port. */
  lemma ForwardsExactly(h: Host, cfg: Settings, routes: seq<Route>, l: string, port: int)
    requires cfg.Valid() && DistinctContainers(routes) && AllSane(routes)
    requires TearingDown.RunsText(h.caddy, Render(routes, cfg))
    ensures Forwards(h, cfg, l, port) <==>
              && (exists x :: Claimant(routes, cfg, l, x))
              && (forall x | Claimant(routes, cfg, l, x) :: x.port == port)
  {
    if exists x :: Claimant(routes, cfg, l, x) {
      var x :| Claimant(routes, cfg, l, x);
      var site := ClaimantSite(h, cfg, routes, l, x);
    }
    forall s | s in LoadedSites(h) && s.address == AddressOf(l, cfg)
      ensures exists x :: Claimant(routes, cfg, l, x) && x.port == s.port
    {
      var x := ClaimedBy(routes, cfg, l, s);
    }
    forall x | Forwards(h, cfg, l, port) && Claimant(routes, cfg, l, x) ensures x.port == port {
      var s := ClaimantSite(h, cfg, routes, l, x);
    }
  }

  lemma ClaimantSite(h: Host, cfg: Settings, routes: seq<Route>, l: string, x: Route) returns (s: Site)
    requires cfg.Valid() && DistinctContainers(routes) && AllSane(routes)
    requires TearingDown.RunsText(h.caddy, Render(routes, cfg)) && Claimant(routes, cfg, l, x)
    ensures s in LoadedSites(h) && s.address == AddressOf(l, cfg) && s.port == x.port
  {
    s := WinnerServed(routes, cfg, x, GeneratedName(l, cfg));
  }

  lemma ClaimedBy(routes: seq<Route>, cfg: Settings, l: string, s: Site) returns (x: Route)
    requires cfg.Valid() && Render(routes, cfg).Ok? && AllSane(routes)
    requires Read(Render(routes, cfg).value).Some? && s in Read(Render(routes, cfg).value).value
    requires s.address == AddressOf(l, cfg)
    ensures Claimant(routes, cfg, l, x) && x.port == s.port
  {
    var y;
    x, y := ServedBy(routes, cfg, s);
    ClaimedSite(x, y, cfg, l, s);
  }

  /** No other winner claims the address. */
  ghost predicate SoleClaimant(routes: seq<Route>, cfg: Settings, l: string, x: Route) {
    Claimant(routes, cfg, l, x) && forall y | Claimant(routes, cfg, l, y) :: y == x
  }

  lemma SoleForwarded(h: Host, cfg: Settings, routes: seq<Route>, l: string, x: Route)
    requires cfg.Valid() && DistinctContainers(routes) && AllSane(routes)
    requires TearingDown.RunsText(h.caddy, Render(routes, cfg)) && SoleClaimant(routes, cfg, l, x)
    ensures Forwards(h, cfg, l, x.port)
    ensures forall port :: Forwards(h, cfg, l, port) <==> port == x.port
  {
    forall port ensures Forwards(h, cfg, l, port) <==> port == x.port { ForwardsExactly(h, cfg, routes, l, port); }
  }

  lemma StampedSane(routes: seq<Route>)
    requires forall r | r in routes :: Stamped(r) && AuthReadable(r)
    ensures AllSane(routes)
  {
  }

  // ---- One route ----

  lemma OneWinner(x: Route)
    ensures Winners([x]) == [x] && !Shared([x])
  {
    assert [x][..0] == [] && Winners([]) == [];
    assert [x] + [] == [x];
  }

  lemma OneNormal(x: Route, y: Route)
    requires Clean(x) == Ok(y)
    ensures Normalize([x]) == Ok([y])
  {
    assert [x][..0] == [] && CleanAll([]) == Ok([]);
    assert [] + [y] == [y];
    assert CleanAll([x]) == Ok([y]);
    OneWinner(y);
  }

  lemma OneClean(x: Route) returns (y: Route)
    requires Sane(x) && 0 < x.port <= 65535
    ensures Clean(x) == Ok(y)
  {
    SaneLabels(x);
    Hostnames.AcceptedDomainsRoute(x.customHosts);
    y := Clean(x).value;
  }

  /** A single route renders. */
  lemma OneRenders(x: Route, cfg: Settings)
    requires cfg.Valid() && Sane(x) && 0 < x.port <= 65535
    ensures Render([x], cfg).Ok?
  {
    var y := OneClean(x);
    OneNormal(x, y);
    SaneClean(x, y);
    SaneLabels(x);
    BaseFixed(cfg);
    assert [y][..0] == [] && SitesOf([], cfg) == Some([]);
    assert RouteHost(HostLabel(y), cfg.baseDomain).Some?;
    assert AddSites(Some([]), y, cfg).Some?;
  }

  lemma OneForwards(h: Host, cfg: Settings, x: Route)
    requires cfg.Valid() && Sane(x) && AuthReadable(x) && TearingDown.RunsText(h.caddy, Render([x], cfg))
    ensures Forwards(h, cfg, HostLabel(x), x.port)
  {
    TieBreakTotal(x, x);
    assert Wins(x, [x]);
    SoleForwarded(h, cfg, [x], HostLabel(x), x);
  }
}
