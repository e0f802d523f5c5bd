/** What a rendered configuration serves, said of the routes themselves: which of them is served, at which
    hosts, behind which password and at which port. */
module Sites {
  import opened Text
  import opened Routes
  import opened Caddyfile
  import opened Serving
  import Hostnames
  import opened Forwarding

  // ---- The law ----

  function Plainly(name: string): string { Lower(TrimSpace(name)) }

  /** a was deployed after b, or is b's deployment in the container whose id comes no sooner. */
  predicate NotBefore(a: Route, b: Route) {
    Less(b.deployment, a.deployment) || (a.deployment == b.deployment && !Less(a.container, b.container))
  }

  /** No route of r's label comes after r. */
  predicate Latest(r: Route, routes: seq<Route>) {
    r in routes && forall q | q in routes && Plainly(q.service) == Plainly(r.service) :: NotBefore(r, q)
  }

  function Dotless(h: string): string { if h != "" && h[|h| - 1] == '.' then h[..|h| - 1] else h }

  /** n is the route's name under the base domain, or one of its custom hosts. */
  predicate HostOf(r: Route, base: string, n: string) {
    || n == Plainly(if r.routeHost == "" then r.service else r.routeHost) + "." + Plainly(base)
    || (n != "" && exists h | h in r.customHosts :: n == Plainly(Dotless(h)))
  }

  /** s serves the route at host n: over plain HTTP, behind the route's password if it has a whole pair. */
  predicate Serves(s: Site, r: Route, httpPort: nat, n: string) {
    && s.address == (if httpPort == 80 then "http://" + n else "http://" + n + ":" + Itoa(httpPort))
    && s.auth == (if r.authUser == "" || r.authHash == "" then None else Some((r.authUser, r.authHash)))
    && s.port == r.port
  }

  /** A rendered file serves every host of the latest route of every label, and nothing else. */
  lemma SitesExactly(routes: seq<Route>, cfg: Settings, s: Site)
    requires cfg.Valid() && Render(routes, cfg).Ok? && DistinctContainers(routes)
    requires forall r | r in routes :: AuthReadable(r)
    ensures Read(Render(routes, cfg).value).Some?
    ensures s in Read(Render(routes, cfg).value).value <==>
            exists r, n :: Latest(r, routes) && HostOf(r, cfg.baseDomain, n) && Serves(s, r, cfg.httpPort, n)
  {
    RenderReadBack(routes, cfg);
    if s in Read(Render(routes, cfg).value).value { var r, n := Behind(routes, cfg, s); }
    if r, n :| Latest(r, routes) && HostOf(r, cfg.baseDomain, n) && Serves(s, r, cfg.httpPort, n) {
      Shown(routes, cfg, s, r, n);
    }
  }

  lemma Behind(routes: seq<Route>, cfg: Settings, s: Site) returns (r: Route, n: string)
    requires cfg.Valid() && Render(routes, cfg).Ok?
    requires forall q | q in routes :: AuthReadable(q)
    requires Read(Render(routes, cfg).value).Some? && s in Read(Render(routes, cfg).value).value
    ensures Latest(r, routes) && HostOf(r, cfg.baseDomain, n) && Serves(s, r, cfg.httpPort, n)
  {
    var x := RenderedFrom(routes, cfg, s);
    r := CleanOrigin(routes, x);
    LatestWins(routes, CleanAll(routes).value, r, x);
    n := SiteHost(r, x, cfg, s);
  }

  lemma Shown(routes: seq<Route>, cfg: Settings, s: Site, r: Route, n: string)
    requires cfg.Valid() && Render(routes, cfg).Ok? && DistinctContainers(routes)
    requires forall q | q in routes :: AuthReadable(q)
    requires Latest(r, routes) && HostOf(r, cfg.baseDomain, n) && Serves(s, r, cfg.httpPort, n)
    ensures Read(Render(routes, cfg).value).Some? && s in Read(Render(routes, cfg).value).value
  {
    var cs := CleanAll(routes).value;
    var x := CleanInto(routes, r);
    LatestWins(routes, cs, r, x);
    NormalizeExact(routes);
    NormalizedPorts(routes);
    var k :| 0 <= k < |Normalize(routes).value| && Normalize(routes).value[k] == x;
    Named(Normalize(routes).value, cfg, k);
    HostSite(r, x, cfg, s, n);
    RenderedInto(routes, cfg, x, s);
  }

  // ---- The head of the file ----

  /** Every rendered file opens with the agent's marker and a global block that names the admin address and
      turns automatic HTTPS off. */
  lemma HeadExactly(routes: seq<Route>, cfg: Settings)
    requires Render(routes, cfg).Ok?
    ensures ("# plorigo-managed-caddyfile: true" + "\n"
             + ("# Generated by the Plorigo agent." + " Do not edit by hand.") + "\n" + "{" + "\n")
            + (("\tadmin " + cfg.admin) + "\n" + ("\tauto_https off" + "\n" + "}" + "\n" + "" + "\n"))
            <= Render(routes, cfg).value
  {
    NormalizedPorts(routes);
    var sites := SitesOf(Normalize(routes).value, cfg).value;
    UnlinesConcat(HeaderLines(cfg), SitesLines(sites));
    HeadLines(MARKER, NOTICE, "\tadmin " + cfg.admin);
  }

  lemma HeadLines(a: string, b: string, c: string)
    ensures Unlines([a, b, "{", c, "\tauto_https off", "}", ""]) ==
            (a + "\n" + b + "\n" + "{" + "\n")
              + (c + "\n" + ("\tauto_https off" + "\n" + "}" + "\n" + "" + "\n"))
  {
    var top, rest := [a, b, "{"], ["\tauto_https off", "}", ""];
    assert [a, b, "{", c, "\tauto_https off", "}", ""] == top + ([c] + rest);
    UnlinesConcat(top, [c] + rest);
    UnlinesConcat([c], rest);
    UnlinesThree(a, b, "{");
    UnlinesThree("\tauto_https off", "}", "");
    assert [c][1..] == [];
  }

  lemma UnlinesThree(a: string, b: string, c: string)
    ensures Unlines([a, b, c]) == a + "\n" + b + "\n" + c + "\n"
  {
    assert [a, b, c][1..] == [b, c] && [b, c][1..] == [c] && [c][1..] == [];
    assert Unlines([c]) == c + "\n";
    assert Unlines([b, c]) == b + "\n" + (c + "\n");
  }

  // ---- Latest routes ----

  lemma NotBeforeTie(a: Route, b: Route)
    ensures NotBefore(a, b) <==> TieBreak(a, b) >= 0
  {
    LessTotal(a.deployment, b.deployment);
    LessTotal(a.container, b.container);
  }

  lemma CleanFields(r: Route, x: Route)
    requires Clean(r) == Ok(x)
    ensures x.service == Plainly(r.service) && x.routeHost == r.routeHost
    ensures x.port == r.port && x.authUser == r.authUser && x.authHash == r.authHash
    ensures x.deployment == r.deployment && x.container == r.container
  {
  }

  lemma LatestWins(routes: seq<Route>, cs: seq<Route>, r: Route, x: Route)
    requires CleanAll(routes) == Ok(cs) && r in routes && Clean(r) == Ok(x)
    ensures Latest(r, routes) <==> Wins(x, cs)
  {
    CleanFields(r, x);
    if Latest(r, routes) {
      var again := CleanInto(routes, r);
      forall c | c in cs && c.service == x.service ensures TieBreak(x, c) >= 0 { Beats(routes, cs, r, x, c); }
    }
    if Wins(x, cs) {
      forall q | q in routes && Plainly(q.service) == Plainly(r.service) ensures NotBefore(r, q) {
        var c := CleanInto(routes, q);
        CleanFields(q, c);
        NotBeforeTie(r, q);
        SameTie(r, q, x, c);
      }
    }
  }

  lemma Beats(routes: seq<Route>, cs: seq<Route>, r: Route, x: Route, c: Route)
    requires CleanAll(routes) == Ok(cs) && Clean(r) == Ok(x) && Latest(r, routes)
    requires c in cs && c.service == x.service
    ensures TieBreak(x, c) >= 0
  {
    var q := CleanOrigin(routes, c);
    CleanFields(r, x);
    CleanFields(q, c);
    NotBeforeTie(r, q);
    SameTie(r, q, x, c);
  }

  // ---- Hosts of a route in normal form ----

  /** A site of the normal form serves one of the route's hosts. */
  lemma SiteHost(r: Route, x: Route, cfg: Settings, s: Site) returns (n: string)
    requires Clean(r) == Ok(x) && x.port >= 0 && s in SitesFor(x, cfg)
    ensures HostOf(r, cfg.baseDomain, n) && Serves(s, r, cfg.httpPort, n)
  {
    var hosts := [RouteHost(HostLabel(x), cfg.baseDomain).value] + x.customHosts;
    SitesAtExact(hosts, x, cfg.httpPort, s);
    n :| n in hosts && s.address == SiteAddress(n, cfg.httpPort);
    CleanHosts(r, x, cfg.baseDomain, n);
    CleanFields(r, x);
  }

  lemma HostSite(r: Route, x: Route, cfg: Settings, s: Site, n: string)
    requires Clean(r) == Ok(x) && x.port >= 0 && RouteHost(HostLabel(x), cfg.baseDomain).Some?
    requires HostOf(r, cfg.baseDomain, n) && Serves(s, r, cfg.httpPort, n)
    ensures s in SitesFor(x, cfg)
  {
    var hosts := [RouteHost(HostLabel(x), cfg.baseDomain).value] + x.customHosts;
    SitesAtExact(hosts, x, cfg.httpPort, s);
    CleanHosts(r, x, cfg.baseDomain, n);
    CleanFields(r, x);
    assert n in hosts && s.address == SiteAddress(n, cfg.httpPort);
  }

  lemma LastNamed(ws: seq<Route>, cfg: Settings)
    requires ws != [] && forall i | 0 <= i < |ws| :: ws[i].port >= 0
    requires SitesOf(ws, cfg).Some?
    ensures SitesOf(ws[..|ws| - 1], cfg).Some? && RouteHost(HostLabel(ws[|ws| - 1]), cfg.baseDomain).Some?
  {
  }

  /** Every rendered route has a name under the base domain. */
  lemma {:induction false} Named(ws: seq<Route>, cfg: Settings, k: nat)
    requires k < |ws| && forall i | 0 <= i < |ws| :: ws[i].port >= 0
    requires SitesOf(ws, cfg).Some?
    ensures RouteHost(HostLabel(ws[k]), cfg.baseDomain).Some?
  {
    LastNamed(ws, cfg);
    if k < |ws| - 1 { Named(ws[..|ws| - 1], cfg, k); }
  }

  /** Normal form keeps the hosts. */
  lemma CleanHosts(r: Route, x: Route, base: string, n: string)
    requires Clean(r) == Ok(x)
    ensures HostOf(r, base, n) <==>
              n == Plainly(if x.routeHost == "" then x.service else x.routeHost) + "." + Plainly(base)
                || n in x.customHosts
  {
    CleanFields(r, x);
    CleanLabel(r, x);
    CleanCustom(r, x, n);
  }

  lemma CleanLabel(r: Route, x: Route)
    requires Clean(r) == Ok(x)
    ensures Plainly(x.service) == x.service
  {
    LabelFixed(x.service);
  }

  lemma CleanCustom(r: Route, x: Route, n: string)
    requires Clean(r) == Ok(x)
    ensures n in x.customHosts <==> n != "" && exists h | h in r.customHosts :: n == Plainly(Dotless(h))
  {
    Hostnames.CustomHostsExact(r.customHosts, x.customHosts);
    InFolded(r.customHosts, n);
  }

  lemma InFolded(hosts: seq<string>, n: string)
    ensures n in Hostnames.Folded(hosts) <==> exists h | h in hosts :: n == Plainly(Dotless(h))
  {
    var names := Hostnames.Folded(hosts);
    if h :| h in hosts && n == Plainly(Dotless(h)) {
      var i :| 0 <= i < |hosts| && hosts[i] == h;
      assert names[i] == n;
    }
    if n in names {
      var i :| 0 <= i < |names| && names[i] == n;
      assert n == Plainly(Dotless(hosts[i]));
    }
  }
}
