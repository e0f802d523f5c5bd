/** What one server runs and what its Caddy serves: when every loaded route has a running container
    behind it. */
module Serving {
  import opened Text
  import opened Routes
  import opened Caddyfile
  import opened Docker
  import CaddyManager
  import PreviewNames

  /** Everything the agent's attempts change. */
  datatype Host = Host(containers: Containers, networks: set<string>, caddy: CaddyManager.State)

  /** The sites of the loaded configuration, as far as it is in the generated form. */
  function LoadedSites(h: Host): seq<Site> {
    if h.caddy.loaded.None? then []
    else match Read(h.caddy.loaded.value) case Some(sites) => sites case None => []
  }

  predicate Publishes(c: Container, port: nat) { exists p | p in c.ports :: Published(p) && p.public == port }

  /** The auth labels of every listed container are tokens, as the control plane supplies them. */
  predicate Tidy(cs: Containers) {
    forall id | id in cs && RouteOf(id, cs[id]).Some? :: AuthReadable(RouteOf(id, cs[id]).value)
  }

  /** The auth pair a container is labelled with, if it is whole. */
  function LabelPair(c: Container): Option<(string, string)> {
    if Value(c, AUTH_USER) == "" || Value(c, AUTH_HASH) == "" then None
    else Some((Value(c, AUTH_USER), Value(c, AUTH_HASH)))
  }

  /** The route has the container's host and auth pair. With custom domains on it, the route of a production
      service has neither. */
  predicate Guarded(c: Container, r: Route) {
    var pair := if r.authUser == "" || r.authHash == "" then None else Some((r.authUser, r.authHash));
    || (Value(c, ROUTE_HOST) == r.routeHost && LabelPair(c) == pair)
    || (PreviewNames.IsUuid(r.service) && r.routeHost == "" && pair == None)
  }

  /** The route's own container, with its label, its host and its auth pair, runs and publishes its port. */
  predicate Backed(cs: Containers, r: Route) {
    && r.container in cs && cs[r.container].running && HasLabel(cs[r.container], r.service)
    && Guarded(cs[r.container], r)
    && r.port > 0 && Publishes(cs[r.container], r.port)
  }

  lemma ListedBacked(cs: Containers, r: Route)
    requires Listed(cs, r)
    ensures Backed(cs, r)
  {
    ChosenPublished(cs[r.container].ports);
  }

  lemma {:induction false} ChosenPublished(ports: seq<Binding>)
    ensures Chosen(ports).Some? ==> Chosen(ports).value in ports && Published(Chosen(ports).value)
  {
    if ports != [] {
      ChosenPublished(ports[..|ports| - 1]);
    }
  }

  // ---- The sites a set of routes is rendered to ----

  /** One site per host, all with the route's auth pair and port. */
  lemma {:induction false} SitesAtExact(hosts: seq<string>, r: Route, httpPort: nat, s: Site)
    requires r.port >= 0
    ensures s in SitesAt(hosts, r, httpPort) <==>
            s.port == r.port && s.auth == AuthOf(r) && exists h | h in hosts :: s.address == SiteAddress(h, httpPort)
  {
    if hosts != [] {
      SitesAtExact(hosts[..|hosts| - 1], r, httpPort, s);
      assert hosts == hosts[..|hosts| - 1] + [hosts[|hosts| - 1]];
    }
  }

  /** The sites of one normalised route: its generated host and its custom hosts. */
  function SitesFor(x: Route, cfg: Settings): seq<Site>
    requires x.port >= 0
  {
    match RouteHost(HostLabel(x), cfg.baseDomain)
    case None => []
    case Some(host) => SitesAt([host] + x.customHosts, x, cfg.httpPort)
  }

  lemma {:induction false} SiteFrom(ws: seq<Route>, cfg: Settings, s: Site) returns (x: Route)
    requires forall i | 0 <= i < |ws| :: ws[i].port >= 0
    requires SitesOf(ws, cfg).Some? && s in SitesOf(ws, cfg).value
    ensures x in ws && s in SitesFor(x, cfg)
  {
    var init := ws[..|ws| - 1];
    x := ws[|ws| - 1];
    if s !in SitesFor(x, cfg) { x := SiteFrom(init, cfg, s); }
  }

  lemma {:induction false} SiteInto(ws: seq<Route>, cfg: Settings, x: Route, s: Site)
    requires forall i | 0 <= i < |ws| :: ws[i].port >= 0
    requires SitesOf(ws, cfg).Some? && x in ws && s in SitesFor(x, cfg)
    ensures s in SitesOf(ws, cfg).value
  {
    var init := ws[..|ws| - 1];
    if x in init {
      assert SitesOf(init, cfg).Some?;
      SiteInto(init, cfg, x, s);
    } else {
      assert x == ws[|ws| - 1];
    }
  }

  /** Every site of a rendered configuration is a site of a route that wins its label. */
  lemma RenderedFrom(routes: seq<Route>, cfg: Settings, s: Site) returns (x: Route)
    requires cfg.Valid() && Render(routes, cfg).Ok?
    requires forall r | r in routes :: AuthReadable(r)
    requires Read(Render(routes, cfg).value).Some? && s in Read(Render(routes, cfg).value).value
    ensures CleanAll(routes).Ok? && Wins(x, CleanAll(routes).value) && 0 < x.port && s in SitesFor(x, cfg)
  {
    RenderReadBack(routes, cfg);
    NormalizedPorts(routes);
    x := SiteFrom(Normalize(routes).value, cfg, s);
    WinnersSound(CleanAll(routes).value);
  }

  /** Every site of a route that wins its label is there. */
  lemma RenderedInto(routes: seq<Route>, cfg: Settings, x: Route, s: Site)
    requires cfg.Valid() && Render(routes, cfg).Ok? && DistinctContainers(routes)
    requires forall r | r in routes :: AuthReadable(r)
    requires CleanAll(routes).Ok? && Wins(x, CleanAll(routes).value) && x.port >= 0 && s in SitesFor(x, cfg)
    ensures Read(Render(routes, cfg).value).Some? && s in Read(Render(routes, cfg).value).value
  {
    RenderReadBack(routes, cfg);
    NormalizedPorts(routes);
    NormalizeExact(routes);
    SiteInto(Normalize(routes).value, cfg, x, s);
  }

  // ---- Live sites ----

  /** x is the route in normal form, and s one of its sites. */
  predicate SiteOf(r: Route, x: Route, cfg: Settings, s: Site) {
    Clean(r) == Ok(x) && x.port >= 0 && s in SitesFor(x, cfg)
  }

  /** The site belongs to one of the routes, and that route's own container backs it. */
  ghost predicate Hosted(cs: Containers, cfg: Settings, routes: seq<Route>, s: Site) {
    exists r, x | r in routes :: SiteOf(r, x, cfg, s) && Backed(cs, r)
  }

  /** Caddy has nothing loaded, or the rendering of the routes. */
  predicate Runs(h: Host, cfg: Settings, routes: seq<Route>) {
    h.caddy.loaded.None? || Render(routes, cfg) == Ok(h.caddy.loaded.value)
  }

  /** Caddy runs these routes, and every site it has loaded belongs to one whose own container runs and
      publishes the port. */
  ghost predicate Live(h: Host, cfg: Settings, routes: seq<Route>) {
    Runs(h, cfg, routes) && forall s | s in LoadedSites(h) :: Hosted(h.containers, cfg, routes, s)
  }

  /** A running container publishes the site's port, and the site asks for the pair it is labelled with;
      a production service's may ask for none. */
  predicate Answered(cs: Containers, s: Site) {
    exists id | id in cs ::
      && cs[id].running && Publishes(cs[id], s.port)
      && (s.auth == LabelPair(cs[id]) || (s.auth == None && PreviewNames.IsUuid(Value(cs[id], SERVICE))))
  }

  /** On a live server every loaded site is answered. */
  lemma LiveAnswers(h: Host, cfg: Settings, routes: seq<Route>, s: Site)
    requires Live(h, cfg, routes) && s in LoadedSites(h)
    ensures Answered(h.containers, s)
  {
    assert Hosted(h.containers, cfg, routes, s);
    var r, x :| r in routes && SiteOf(r, x, cfg, s) && Backed(h.containers, r);
    SiteAsks(r, x, cfg, s);
    GuardedAnswers(h.containers, r, s);
  }

  lemma GuardedAnswers(cs: Containers, r: Route, s: Site)
    requires Backed(cs, r) && s.port == r.port
    requires s.auth == if r.authUser == "" || r.authHash == "" then None else Some((r.authUser, r.authHash))
    ensures Answered(cs, s)
  {
  }

  lemma SiteAsks(r: Route, x: Route, cfg: Settings, s: Site)
    requires SiteOf(r, x, cfg, s)
    ensures s.port == r.port && s.auth == if r.authUser == "" || r.authHash == "" then None
                                          else Some((r.authUser, r.authHash))
  {
    SitesAtExact([RouteHost(HostLabel(x), cfg.baseDomain).value] + x.customHosts, x, cfg.httpPort, s);
  }

  lemma HostedBy(routes: seq<Route>, cfg: Settings, s: Site) returns (r: Route, x: Route)
    requires cfg.Valid() && Render(routes, cfg).Ok?
    requires forall q | q in routes :: AuthReadable(q)
    requires Read(Render(routes, cfg).value).Some? && s in Read(Render(routes, cfg).value).value
    ensures r in routes && SiteOf(r, x, cfg, s)
  {
    x := RenderedFrom(routes, cfg, s);
    r := CleanOrigin(routes, x);
  }

  lemma RenderedLive(routes: seq<Route>, cfg: Settings, h: Host)
    requires cfg.Valid() && Render(routes, cfg).Ok? && h.caddy.loaded == Some(Render(routes, cfg).value)
    requires forall r | r in routes :: AuthReadable(r) && Backed(h.containers, r)
    ensures Live(h, cfg, routes)
  {
    forall s | s in LoadedSites(h) ensures Hosted(h.containers, cfg, routes, s) {
      var r, x := HostedBy(routes, cfg, s);
    }
  }

  lemma LiveKept(h: Host, h': Host, cfg: Settings, routes: seq<Route>)
    requires Live(h, cfg, routes) && h'.caddy.loaded == h.caddy.loaded
    requires forall id | id in h.containers && h.containers[id].running ::
              id in h'.containers && h'.containers[id] == h.containers[id]
    ensures Live(h', cfg, routes)
  {
    forall s | s in LoadedSites(h') ensures Hosted(h'.containers, cfg, routes, s) {
      assert Hosted(h.containers, cfg, routes, s);
      var r, x :| r in routes && SiteOf(r, x, cfg, s) && Backed(h.containers, r);
      assert Backed(h'.containers, r);
    }
  }
}
