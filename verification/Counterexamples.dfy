/** Servers and attempts after which something one would like to hold does not. */
module Counterexamples {
  import opened Text
  import opened Routes
  import opened Caddyfile
  import opened Docker
  import CaddyManager
  import Hostnames
  import opened RouteSync
  import opened Serving
  import opened Attempts
  import TearingDown
  import Addresses
  import opened Forwarding
  import opened Isolation

  // ---- One container, and a second one of the same label ----

  /** A server that runs the container of one job, and a Caddy that runs this text. */
  function OneContainer(input: RunInput, text: string): Host {
    Host(map["a" := Started(input, 8001)], {}, CaddyManager.State(Some(text), Some(text)))
  }

  /** The same server once the container of another job is started. */
  function TwoContainers(input: RunInput, next: RunInput): Containers {
    map["a" := Started(input, 8001), "b" := Started(next, 8002)]
  }

  function First(input: RunInput): Route { CurrentRoute(input, "a", 8001) }

  function Second(next: RunInput): Route { CurrentRoute(next, "b", 8002) }

  /** Everything goes well until the old container is to be removed. */
  function Answered(removes: set<string>): Answers {
    Answers(true, true, true, None, true, Up("b", 8002), true, true,
            CaddyManager.Attempt(true, true, true, true, true, true, CaddyManager.Restored), Daemon(true, {}, removes))
  }

  lemma {:induction false} OnlyOwn(listing: seq<Route>, x: Route)
    requires forall r | r in listing :: r.service == x.service
    ensures RoutesFor(listing, x) == [x]
  {
    if listing != [] {
      assert listing[0] in listing;
      OnlyOwn(listing[1..], x);
    }
  }

  lemma OneListed(input: RunInput, text: string, r: Route)
    requires PublicInput(input)
    ensures Listed(OneContainer(input, text).containers, r) <==> r == First(input)
  {
    LabelsRoundTrip(input, "a", 8001);
  }

  lemma TwoListed(input: RunInput, next: RunInput, r: Route)
    requires PublicInput(input) && PublicInput(next)
    ensures Listed(TwoContainers(input, next), r) <==> r == First(input) || r == Second(next)
  {
    LabelsRoundTrip(input, "a", 8001);
    LabelsRoundTrip(next, "b", 8002);
  }

  lemma SaneRoute(input: RunInput, id: string, port: nat)
    requires StampedInput(input)
    ensures Sane(CurrentRoute(input, id, port)) && AuthReadable(CurrentRoute(input, id, port))
  {
  }

  lemma HostKnown(cfg: Settings, x: Route)
    requires cfg.Valid() && Sane(x)
    ensures RouteHost(HostLabel(x), cfg.baseDomain).Some?
  {
    SaneLabels(x);
    BaseFixed(cfg);
  }

  // ---- A redeploy whose old container stays ----

  lemma RedeployListing(input: RunInput, next: RunInput) returns (listing: seq<Route>)
    requires PublicInput(input) && PublicInput(next) && input.appLabel == next.appLabel
    ensures Listing(TwoContainers(input, next), listing) && RoutesFor(listing, Second(next)) == [Second(next)]
  {
    listing := SomeListing(TwoContainers(input, next));
    forall r | r in listing ensures r.service == next.appLabel { TwoListed(input, next, r); }
    OnlyOwn(listing, Second(next));
  }

  lemma RedeployLaunched(cfg: Settings, h: Host, h': Host, next: RunInput, listing: seq<Route>)
    requires next.public && h'.networks == Networked(h.networks, next, Up("b", 8002))
    requires RouteHost(HostLabel(Second(next)), cfg.baseDomain).Some?
    requires Listing(Created(h.containers, next, Up("b", 8002)), listing)
    requires RoutedAs(h, h', cfg, next, Answered({}), Running(false), listing)
    ensures Deployed(h, h', cfg, Job(next, false), Answered({}), Running(false))
  {
  }

  lemma NotRemoved(input: RunInput, next: RunInput)
    requires input.appLabel == next.appLabel
    ensures var two := TwoContainers(input, next); Retired(two, two, next.appLabel, "b", Daemon(true, {}, {}), false)
  {
    assert !Spared(TwoContainers(input, next)["a"], "a", next.appLabel, "b");
  }

  lemma RedeployRouted(cfg: Settings, h: Host, h': Host, next: RunInput, now: string, listing: seq<Route>)
    requires h.caddy.file.Some? && CaddyManager.Managed(h.caddy.file.value)
    requires RoutesFor(listing, Second(next)) == [Second(next)] && Render([Second(next)], cfg) == Ok(now)
    requires h'.caddy == CaddyManager.State(Some(now), Some(now))
    requires Created(h.containers, next, Up("b", 8002)) == h'.containers
    requires Retired(h'.containers, h'.containers, next.appLabel, "b", Daemon(true, {}, {}), false)
    ensures RoutedAs(h, h', cfg, next, Answered({}), Running(false), listing)
  {
  }

  lemma RedeployGrows(input: RunInput, next: RunInput, h: Host)
    requires h.containers == OneContainer(input, "").containers
    ensures Created(h.containers, next, Up("b", 8002)) == TwoContainers(input, next)
  {
  }

  /** A redeploy comes up while the daemon does not remove the old container. */
  lemma Redeploy(cfg: Settings, input: RunInput, next: RunInput, h: Host) returns (h': Host)
    requires cfg.Valid() && PublicInput(input) && PublicInput(next) && input.appLabel == next.appLabel
    requires h.containers == OneContainer(input, "").containers
    requires h.caddy.file.Some? && CaddyManager.Managed(h.caddy.file.value)
    ensures Deployed(h, h', cfg, Job(next, false), Answered({}), Running(false))
    ensures h'.containers == TwoContainers(input, next) && TearingDown.RunsText(h'.caddy, Render([Second(next)], cfg))
  {
    SaneRoute(next, "b", 8002);
    OneRenders(Second(next), cfg);
    HostKnown(cfg, Second(next));
    var now := Render([Second(next)], cfg).value;
    h' := Host(TwoContainers(input, next), Networked(h.networks, next, Up("b", 8002)),
      CaddyManager.State(Some(now), Some(now)));
    var listing := RedeployListing(input, next);
    RedeployGrows(input, next, h);
    NotRemoved(input, next);
    RedeployRouted(cfg, h, h', next, now, listing);
    RedeployLaunched(cfg, h, h', next, listing);
  }

  lemma OldTop(cs: Containers, k: string, prev: Route, x: Route)
    requires prev.service == k == x.service && TieBreak(x, prev) < 0
    requires forall r :: Listed(cs, r) <==> r == prev || r == x
    ensures TopIn(cs, k, prev) && !TopIn(cs, k, x)
  {
    TieBreakTotal(prev, prev);
    TieBreakTotal(prev, x);
  }

  /** A redeploy whose old container the daemon would not remove, where the old row's id is the greater: Caddy
      forwards to the new container, but the old one is the winner, and the next attempt of another label takes
      the address back to it. */
  lemma LeftOverWinsBack(cfg: Settings, input: RunInput, next: RunInput, text: string) returns (h': Host)
    requires cfg.Valid() && PublicInput(input) && PublicInput(next) && input.appLabel == next.appLabel
    requires Less(next.deployment, input.deployment) && CaddyManager.Managed(text)
    ensures Deployed(OneContainer(input, text), h', cfg, Job(next, false), Answered({}), Running(false))
    ensures Forwards(h', cfg, HostLabel(Second(next)), 8002)
    ensures TopIn(h'.containers, next.appLabel, First(input)) && !TopIn(h'.containers, next.appLabel, Second(next))
  {
    h' := Redeploy(cfg, input, next, OneContainer(input, text));
    SaneRoute(next, "b", 8002);
    OneForwards(h', cfg, Second(next));
    LessTotal(next.deployment, input.deployment);
    forall r ensures Listed(h'.containers, r) <==> r == First(input) || r == Second(next) { TwoListed(input, next, r); }
    OldTop(h'.containers, next.appLabel, First(input), Second(next));
  }

  // ---- Custom domains that go ----

  /** The route of a production container with one verified domain on it, as a sync leaves it. */
  function WithDomain(input: RunInput, n: string): Route { OverrideRoute(First(input), [n]) }

  lemma TwoLabels(host: string, parts: seq<string>)
    requires |host| <= 253 && Split(host, '.') == parts && |parts| == 2
    requires forall part | part in parts :: Hostnames.ValidLabel(part)
    ensures Hostnames.Accepted(host)
  {
    if '.' !in host {
      SplitWhole(host, '.');
      assert false;
    }
    Hostnames.AcceptedUnmarked(host);
  }

  lemma ShopSplit()
    ensures Split("shop.io", '.') == ["shop", "io"]
  {
    var shop: string, io: string, host: string := "shop", "io", "shop.io";
    SplitCons(shop, io, '.');
    SplitWhole(io, '.');
    assert host == shop + ['.'] + io;
  }

  lemma ShopCore()
    ensures Hostnames.HostCore("shop.io") == "shop.io"
  {
    var host: string := "shop.io";
    assert Lower(host) == host;
    TrimFixed(host, IsSpace);
  }

  /** There are such domains. */
  lemma SomeDomain()
    ensures Domains(["shop.io"])
  {
    ShopSplit();
    ShopCore();
    var parts: seq<string> := ["shop", "io"];
    TwoLabels("shop.io", parts);
    Hostnames.NormalizeHostnameExact("shop.io");
  }

  lemma DomainServed(h: Host, cfg: Settings, x: Route, n: string)
    requires cfg.Valid() && Sane(x) && AuthReadable(x) && TearingDown.RunsText(h.caddy, Render([x], cfg))
              && HasHost(x, cfg, n)
    ensures ServesHost(h, cfg, n)
  {
    TieBreakTotal(x, x);
    assert Wins(x, [x]);
    HostsServedExactly(h, cfg, [x], n);
  }

  lemma OnlyNamedServed(h: Host, cfg: Settings, x: Route, n: string)
    requires cfg.Valid() && Sane(x) && AuthReadable(x) && TearingDown.RunsText(h.caddy, Render([x], cfg))
              && !HasHost(x, cfg, n)
    ensures !ServesHost(h, cfg, n)
  {
    HostsServedExactly(h, cfg, [x], n);
  }

  lemma Marked(routes: seq<Route>, cfg: Settings, text: string)
    requires Render(routes, cfg) == Ok(text)
    ensures CaddyManager.Managed(text)
  {
    RenderIsManaged(routes, cfg);
  }

  /** A production service whose verified domain Caddy serves is redeployed: the domain is served no more. */
  lemma RedeployDropsTheDomain(cfg: Settings, input: RunInput, next: RunInput, n: string) returns (h: Host, h': Host)
    requires cfg.Valid() && PublicInput(input) && PublicInput(next) && input.appLabel == next.appLabel
    requires ProductionRoute(First(input)) && ProductionRoute(Second(next))
    requires Domains([n]) && n != GeneratedName(next.appLabel, cfg)
    ensures h.containers == OneContainer(input, "").containers && ServesHost(h, cfg, n)
    ensures Deployed(h, h', cfg, Job(next, false), Answered({}), Running(false)) && !ServesHost(h', cfg, n)
  {
    var x := WithDomain(input, n);
    OneRenders(x, cfg);
    var text := Render([x], cfg).value;
    Marked([x], cfg, text);
    h := OneContainer(input, text);
    DomainServed(h, cfg, x, n);
    h' := Redeploy(cfg, input, next, h);
    SaneRoute(next, "b", 8002);
    OnlyNamedServed(h', cfg, Second(next), n);
  }

  // ---- Sites that lead nowhere ----

  lemma OneContainerLive(cfg: Settings, input: RunInput, h: Host)
    requires cfg.Valid() && PublicInput(input) && h.containers == OneContainer(input, "").containers
    requires TearingDown.RunsText(h.caddy, Render([First(input)], cfg))
    ensures Live(h, cfg, [First(input)])
  {
    OneListed(input, "", First(input));
    SaneRoute(input, "a", 8001);
    ListedBacked(h.containers, First(input));
    RenderedLive([First(input)], cfg, h);
  }

  lemma PortlessNotLive(h: Host, cfg: Settings, l: string, port: int)
    requires Forwards(h, cfg, l, port) && forall id | id in h.containers :: h.containers[id].ports == []
    ensures forall routes :: !Live(h, cfg, routes)
  {
    var s :| s in LoadedSites(h);
    forall routes ensures !Live(h, cfg, routes) { assert !Hosted(h.containers, cfg, routes, s); }
  }

  /** A server that runs one public container, and serves it. */
  lemma OneServed(cfg: Settings, input: RunInput) returns (h: Host)
    requires cfg.Valid() && PublicInput(input)
    ensures h.containers == OneContainer(input, "").containers && h.networks == {}
    ensures TearingDown.RunsText(h.caddy, Render([First(input)], cfg))
    ensures Live(h, cfg, [First(input)]) && Forwards(h, cfg, HostLabel(First(input)), 8001)
  {
    SaneRoute(input, "a", 8001);
    OneRenders(First(input), cfg);
    h := OneContainer(input, Render([First(input)], cfg).value);
    OneContainerLive(cfg, input, h);
    OneForwards(h, cfg, First(input));
  }

  /** The server as it is, but with these containers, none of which publishes a port. */
  lemma StillForwarded(cfg: Settings, input: RunInput, h: Host, h': Host)
    requires cfg.Valid() && PublicInput(input) && TearingDown.RunsText(h.caddy, Render([First(input)], cfg))
    requires h'.caddy == h.caddy && forall id | id in h'.containers :: h'.containers[id].ports == []
    ensures Forwards(h', cfg, HostLabel(First(input)), 8001) && forall routes :: !Live(h', cfg, routes)
  {
    SaneRoute(input, "a", 8001);
    OneForwards(h', cfg, First(input));
    PortlessNotLive(h', cfg, HostLabel(First(input)), 8001);
  }

  lemma PrivateRedeploy(cfg: Settings, input: RunInput, next: RunInput, h: Host, h': Host)
    requires !next.public && input.appLabel == next.appLabel && h.containers == OneContainer(input, "").containers
    requires h'.containers == map["b" := Started(next, 8002)]
    requires h'.networks == Networked(h.networks, next, Up("b", 8002)) && h'.caddy == h.caddy
    ensures Deployed(h, h', cfg, Job(next, false), Answered({"a"}), Running(true))
  {
    assert Created(h.containers, next, Up("b", 8002)) == map["a" := h.containers["a"], "b" := Started(next, 8002)];
  }

  /** A service that was public is redeployed as private, and its old container is removed: the site Caddy
      still serves at its address leads nowhere. */
  lemma PrivateRedeployLeavesADeadSite(cfg: Settings, input: RunInput, next: RunInput) returns (h: Host, h': Host)
    requires cfg.Valid() && PublicInput(input) && !next.public && input.appLabel == next.appLabel
    ensures Live(h, cfg, [First(input)]) && Forwards(h, cfg, HostLabel(First(input)), 8001)
    ensures Deployed(h, h', cfg, Job(next, false), Answered({"a"}), Running(true))
    ensures Forwards(h', cfg, HostLabel(First(input)), 8001) && forall routes :: !Live(h', cfg, routes)
  {
    h := OneServed(cfg, input);
    h' := Host(map["b" := Started(next, 8002)], Networked(h.networks, next, Up("b", 8002)), h.caddy);
    PrivateRedeploy(cfg, input, next, h, h');
    StillForwarded(cfg, input, h, h');
  }

  /** The container goes, and then the daemon does not list what is left. */
  const UNLISTED := TeardownAnswers(
    Daemon(true, {}, {"a"}), false,
    CaddyManager.Attempt(true, true, true, true, true, true, CaddyManager.Restored), true)

  lemma UnlistedTeardown(cfg: Settings, input: RunInput, h: Host, h': Host)
    requires h.containers == OneContainer(input, "").containers && h' == h.(containers := map[])
    ensures TornDown(h, h', cfg, input.appLabel, input.network, UNLISTED, NotListed)
  {
  }

  /** A teardown that removed its container and then could not list the routes: Caddy still serves the site,
      which leads nowhere. */
  lemma HalfTeardownLeavesADeadSite(cfg: Settings, input: RunInput) returns (h: Host, h': Host)
    requires cfg.Valid() && PublicInput(input)
    ensures Live(h, cfg, [First(input)]) && Forwards(h, cfg, HostLabel(First(input)), 8001)
    ensures TornDown(h, h', cfg, input.appLabel, input.network, UNLISTED, NotListed)
    ensures Forwards(h', cfg, HostLabel(First(input)), 8001) && forall routes :: !Live(h', cfg, routes)
  {
    h := OneServed(cfg, input);
    h' := h.(containers := map[]);
    UnlistedTeardown(cfg, input, h, h');
    StillForwarded(cfg, input, h, h');
  }

  // ---- One address for two ----

  /** Two winners of different ports claim one address: it is forwarded to neither alone. */
  lemma SharedAddressIsAmbiguous(h: Host, cfg: Settings, routes: seq<Route>, l: string, x: Route, y: Route)
    requires cfg.Valid() && DistinctContainers(routes) && AllSane(routes)
    requires TearingDown.RunsText(h.caddy, Render(routes, cfg))
    requires Claimant(routes, cfg, l, x) && Claimant(routes, cfg, l, y) && x.port != y.port
    ensures forall port :: !Forwards(h, cfg, l, port)
  {
    forall port ensures !Forwards(h, cfg, l, port) { ForwardsExactly(h, cfg, routes, l, port); }
  }

  lemma {:induction false} SitesKnown(ws: seq<Route>, cfg: Settings)
    requires forall i | 0 <= i < |ws| :: ws[i].port >= 0
    requires forall x | x in ws :: RouteHost(HostLabel(x), cfg.baseDomain).Some?
    ensures SitesOf(ws, cfg).Some?
  {
    if ws != [] {
      assert ws == ws[..|ws| - 1] + [ws[|ws| - 1]];
      SitesKnown(ws[..|ws| - 1], cfg);
    }
  }

  lemma PreviewClean(x: Route)
    requires PreviewRoute(x) && 0 < x.port <= 65535
    ensures Clean(x) == Ok(x)
  {
    var y := OneClean(x);
    SaneClean(x, y);
    Hostnames.CustomHostsExact([], []);
  }

  /** Two running previews with different labels and one host. */
  predicate SameHost(x: Route, y: Route) {
    && PreviewRoute(x) && PreviewRoute(y) && AuthReadable(x) && AuthReadable(y)
    && 0 < x.port <= 65535 && 0 < y.port <= 65535
    && x.service != y.service && x.container != y.container && x.routeHost == y.routeHost && x.port != y.port
  }

  lemma TwoClean(x: Route, y: Route)
    requires Clean(x) == Ok(x) && Clean(y) == Ok(y)
    ensures CleanAll([x, y]) == Ok([x, y])
  {
    assert [x, y][..1] == [x] && [x][..0] == [] && [] + [x] == [x] && [x] + [y] == [x, y];
    assert CleanAll([x]) == Ok([x]);
  }

  lemma TwoWin(x: Route, y: Route)
    requires x.service != y.service
    ensures Wins(x, [x, y]) && Wins(y, [x, y])
  {
    TieBreakTotal(x, x);
    TieBreakTotal(y, y);
  }

  lemma TwoNormal(x: Route, y: Route)
    requires Clean(x) == Ok(x) && Clean(y) == Ok(y) && x.service != y.service && x.container != y.container
    requires x.customHosts == [] && y.customHosts == []
    ensures Normalize([x, y]).Ok? && forall z :: z in Normalize([x, y]).value <==> z == x || z == y
  {
    TwoClean(x, y);
    NormalizeExact([x, y]);
    TwoWin(x, y);
    assert !Clash([x, y]);
  }

  lemma TwoRender(cfg: Settings, x: Route, y: Route, ws: seq<Route>)
    requires cfg.Valid() && Sane(x) && Sane(y) && Normalize([x, y]) == Ok(ws)
    requires forall z :: z in ws <==> z == x || z == y
    ensures Render([x, y], cfg).Ok?
  {
    HostKnown(cfg, x);
    HostKnown(cfg, y);
    NormalizedPorts([x, y]);
    SitesKnown(ws, cfg);
  }

  lemma RepeatedHost(ws: seq<Route>, cfg: Settings, x: Route, y: Route)
    requires x in ws && y in ws && x != y && HostLabel(x) == HostLabel(y)
    ensures !Addresses.OwnHostsApart(ws, cfg)
  {
    var i, j :| 0 <= i < |ws| && 0 <= j < |ws| && ws[i] == x && ws[j] == y;
    assert Addresses.OwnHost(ws[i], cfg) == Addresses.OwnHost(ws[j], cfg);
  }

  lemma TwoSane(cfg: Settings, x: Route, y: Route)
    requires SameHost(x, y)
    ensures AllSane([x, y]) && DistinctContainers([x, y])
    ensures Claimant([x, y], cfg, x.routeHost, x) && Claimant([x, y], cfg, x.routeHost, y)
  {
    TwoWin(x, y);
  }

  lemma Ambiguous(cfg: Settings, x: Route, y: Route, text: string, h: Host)
    requires cfg.Valid() && SameHost(x, y) && Render([x, y], cfg) == Ok(text)
    requires h.caddy == CaddyManager.State(Some(text), Some(text))
    ensures forall port :: !Forwards(h, cfg, x.routeHost, port)
  {
    TwoSane(cfg, x, y);
    SharedAddressIsAmbiguous(h, cfg, [x, y], x.routeHost, x, y);
  }

  /** Their configuration renders, with one address twice, which leads to neither. */
  lemma TwoPreviewsOneAddress(cfg: Settings, x: Route, y: Route) returns (text: string)
    requires cfg.Valid() && SameHost(x, y)
    ensures Render([x, y], cfg) == Ok(text) && Read(text).Some? && !Addresses.AddressesDistinct(Read(text).value)
    ensures forall h: Host | h.caddy == CaddyManager.State(Some(text), Some(text)) ::
              forall port :: !Forwards(h, cfg, x.routeHost, port)
  {
    PreviewClean(x);
    PreviewClean(y);
    TwoNormal(x, y);
    var ws := Normalize([x, y]).value;
    TwoRender(cfg, x, y, ws);
    text := Render([x, y], cfg).value;
    Addresses.AddressesDistinctExactly([x, y], cfg);
    RepeatedHost(ws, cfg, x, y);
    forall h: Host | h.caddy == CaddyManager.State(Some(text), Some(text))
      ensures forall port :: !Forwards(h, cfg, x.routeHost, port)
    {
      Ambiguous(cfg, x, y, text, h);
    }
  }
}
