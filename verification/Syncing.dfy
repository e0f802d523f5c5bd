/** What a route sync leaves Caddy serving: a function of the running containers and the verified
    domains only. */
module Syncing {
  import opened Text
  import opened Routes
  import opened Caddyfile
  import opened Docker
  import CaddyManager
  import Hostnames
  import PreviewNames
  import opened RouteSync
  import opened Serving
  import opened Attempts
  import Agent
  import Deploying

  // ---- The text ----

  lemma DueAllSame(dir: Directory, server: string, a: seq<Route>, b: seq<Route>)
    requires forall r :: r in a <==> r in b
    ensures forall x :: x in DueAll(dir, server, a) <==> x in DueAll(dir, server, b)
  {
    forall x ensures x in DueAll(dir, server, a) <==> x in DueAll(dir, server, b) {
      if x in DueAll(dir, server, a) {
        var r := DueFrom(dir, server, a, x);
        DueInto(dir, server, b, r);
      }
      if x in DueAll(dir, server, b) {
        var r := DueFrom(dir, server, b, x);
        DueInto(dir, server, a, r);
      }
    }
  }

  /** Whatever order the daemon lists in and the control plane answers in, the desired routes render to
      what the due routes of any listing render to. */
  lemma DesiredRenders(cs: Containers, cfg: Settings, dir: Directory, server: string, given: seq<Route>,
          overrides: seq<Override>, listing: seq<Route>)
    requires Listing(cs, given) && Listing(cs, listing) && OnePerLabel(listing)
              && IsAnswer(dir, server, given, overrides)
    ensures Render(Desired(given, overrides), cfg).Ok? <==> Render(DueAll(dir, server, listing), cfg).Ok?
    ensures Render(DueAll(dir, server, listing), cfg).Ok? ==>
              Render(Desired(given, overrides), cfg) == Render(DueAll(dir, server, listing), cfg)
  {
    ListingDistinct(cs, given);
    DesiredExact(dir, server, given, overrides);
    DueAllSame(dir, server, given, listing);
    DueDistinct(dir, server, listing);
    NormalizeOrderFree(DueAll(dir, server, listing), Desired(given, overrides));
  }

  lemma SyncedExactly(h: Host, caddy: CaddyManager.State, cfg: Settings, dir: Directory, server: string, a: SyncAnswers,
          given: seq<Route>, overrides: seq<Override>, failure: Option<CaddyManager.Failure>,
          results: seq<(Override, bool)>)
    requires SyncOf(h, caddy, cfg, dir, server, a, given, overrides, failure, results)
    ensures failure.None? <==> Render(Desired(given, overrides), cfg).Ok? && Deploying.Accepts(h.caddy, a.apply)
    ensures failure.None? ==>
              var text := Render(Desired(given, overrides), cfg).value;
              caddy == CaddyManager.State(Some(text), Some(text))
    ensures failure.Some? ==> caddy.loaded == h.caddy.loaded
  {
    Deploying.StepAccepts(h.caddy, Render(Desired(given, overrides), cfg), a.apply);
    CaddyManager.StepOutcome(h.caddy, Render(Desired(given, overrides), cfg), a.apply);
  }

  /** A sync that was attempted succeeds exactly when the due routes render and Caddy accepts them. What
      it leaves loaded is their rendering: a function of the containers and the verified domains, not of
      what Caddy had before, of the listing order or of the answer's order. */
  lemma SyncCanonical(h: Host, h': Host, cfg: Settings, dir: Directory, server: string, a: SyncAnswers,
          o: SyncOutcome, listing: seq<Route>)
    requires SyncedBy(h, h', cfg, dir, server, a, o) && o.Synced?
    requires Listing(h.containers, listing) && OnePerLabel(listing)
    ensures o.failure.None? <==> Render(DueAll(dir, server, listing), cfg).Ok? && Deploying.Accepts(h.caddy, a.apply)
    ensures o.failure.None? ==>
              var text := Render(DueAll(dir, server, listing), cfg).value;
              h' == h.(caddy := CaddyManager.State(Some(text), Some(text)))
    ensures o.failure.Some? ==> h'.caddy.loaded == h.caddy.loaded
  {
    var given, overrides :| SyncOf(h, h'.caddy, cfg, dir, server, a, given, overrides, o.failure, o.results);
    SyncedExactly(h, h'.caddy, cfg, dir, server, a, given, overrides, o.failure, o.results);
    DesiredRenders(h.containers, cfg, dir, server, given, overrides, listing);
  }

  /** Every override the control plane sent is reported back, as active exactly when Caddy loaded it. */
  lemma SyncReportsExactly(h: Host, h': Host, cfg: Settings, dir: Directory, server: string, a: SyncAnswers,
          o: SyncOutcome, service: string, hosts: seq<string>, ok: bool, listing: seq<Route>)
    requires SyncedBy(h, h', cfg, dir, server, a, o) && o.Synced? && Listing(h.containers, listing)
    ensures (Override(service, hosts), ok) in o.results <==>
            && ok == o.failure.None? && Named(dir, service) && hosts == dir.verified[service]
            && exists r | r in listing :: r.service == service && Vouched(dir, server, r)
  {
    var given, overrides :| SyncOf(h, h'.caddy, cfg, dir, server, a, given, overrides, o.failure, o.results);
    ByServiceSound(given);
    assert forall r :: r in given <==> r in listing;
  }

  // ---- The sites ----

  /** Containers have distinct labels, even after the router folds them. */
  predicate OnePerName(routes: seq<Route>) {
    forall r, q | r in routes && q in routes && Folded(r.service) == Folded(q.service) :: r == q
  }

  /** x is the route as it is due, in normal form, and s one of its sites. */
  predicate SiteOfDue(dir: Directory, server: string, r: Route, x: Route, cfg: Settings, s: Site) {
    Clean(Due(dir, server, r)) == Ok(x) && x.port >= 0 && s in SitesFor(x, cfg)
  }

  lemma DueAuth(dir: Directory, server: string, routes: seq<Route>)
    requires forall r | r in routes :: AuthReadable(r)
    ensures forall x | x in DueAll(dir, server, routes) :: AuthReadable(x)
  {
    forall x | x in DueAll(dir, server, routes) ensures AuthReadable(x) {
      var r := DueFrom(dir, server, routes, x);
    }
  }

  /** With one route per label, every route wins its label. */
  lemma OneWins(routes: seq<Route>, d: Route)
    requires OnePerName(routes) && d in routes && CleanAll(routes).Ok?
    ensures Clean(d).Ok? && Wins(Clean(d).value, CleanAll(routes).value)
  {
    CleanAllSound(routes);
    var x, cs := Clean(d).value, CleanAll(routes).value;
    TieBreakTotal(x, x);
    forall c | c in cs && c.service == x.service ensures TieBreak(x, c) >= 0 {
      var q := CleanOrigin(routes, c);
      CleanLabel(q);
      CleanLabel(d);
      assert q == d;
    }
  }

  lemma CleanLabel(r: Route)
    requires Clean(r).Ok?
    ensures Clean(r).value.service == Folded(r.service)
  {
  }

  lemma DueOnePerName(dir: Directory, server: string, routes: seq<Route>)
    requires OnePerName(routes)
    ensures OnePerName(DueAll(dir, server, routes))
  {
    var due := DueAll(dir, server, routes);
    forall x, y | x in due && y in due && Folded(x.service) == Folded(y.service) ensures x == y {
      var r := DueFrom(dir, server, routes, x);
      var q := DueFrom(dir, server, routes, y);
    }
  }

  /** Caddy runs the rendering of the due routes: what a successful sync leaves. */
  predicate RunsDue(h: Host, cfg: Settings, dir: Directory, server: string, listing: seq<Route>) {
    var rendered := Render(DueAll(dir, server, listing), cfg);
    rendered.Ok? && h.caddy.loaded == Some(rendered.value)
  }

  lemma ServedFrom(h: Host, cfg: Settings, dir: Directory, server: string, listing: seq<Route>, s: Site)
    returns (r: Route, x: Route)
    requires cfg.Valid() && Tidy(h.containers) && Listing(h.containers, listing)
    requires RunsDue(h, cfg, dir, server, listing) && s in LoadedSites(h)
    ensures r in listing && SiteOfDue(dir, server, r, x, cfg, s)
  {
    TidyListing(h.containers, listing);
    DueAuth(dir, server, listing);
    r, x := SyncedFrom(cfg, dir, server, listing, s);
  }

  lemma ServedInto(h: Host, cfg: Settings, dir: Directory, server: string, listing: seq<Route>, r: Route, x: Route,
          s: Site)
    requires cfg.Valid() && Tidy(h.containers) && Listing(h.containers, listing) && OnePerName(listing)
    requires RunsDue(h, cfg, dir, server, listing) && r in listing
    requires SiteOfDue(dir, server, r, x, cfg, s)
    ensures s in LoadedSites(h)
  {
    TidyListing(h.containers, listing);
    DueAuth(dir, server, listing);
    ListingDistinct(h.containers, listing);
    SyncedInto(cfg, dir, server, listing, r, x, s);
  }

  /** After a successful sync the sites Caddy has loaded are exactly those of the listed routes, each
      with the hostnames it is due. */
  lemma SyncServesExactly(h: Host, cfg: Settings, dir: Directory, server: string, listing: seq<Route>, s: Site)
    requires cfg.Valid() && Tidy(h.containers) && Listing(h.containers, listing) && OnePerName(listing)
    requires RunsDue(h, cfg, dir, server, listing)
    ensures s in LoadedSites(h) <==> exists r, x | r in listing :: SiteOfDue(dir, server, r, x, cfg, s)
  {
    if s in LoadedSites(h) {
      var r, x := ServedFrom(h, cfg, dir, server, listing, s);
    }
    if r, x :| r in listing && SiteOfDue(dir, server, r, x, cfg, s) {
      ServedInto(h, cfg, dir, server, listing, r, x, s);
    }
  }

  lemma TidyListing(cs: Containers, listing: seq<Route>)
    requires Tidy(cs) && Listing(cs, listing)
    ensures forall r | r in listing :: AuthReadable(r)
  {
  }

  lemma SyncedFrom(cfg: Settings, dir: Directory, server: string, listing: seq<Route>, s: Site)
    returns (r: Route, x: Route)
    requires cfg.Valid() && Render(DueAll(dir, server, listing), cfg).Ok?
    requires forall q | q in DueAll(dir, server, listing) :: AuthReadable(q)
    requires var text := Render(DueAll(dir, server, listing), cfg).value; Read(text).Some? && s in Read(text).value
    ensures r in listing && SiteOfDue(dir, server, r, x, cfg, s)
  {
    x := RenderedFrom(DueAll(dir, server, listing), cfg, s);
    var d := CleanOrigin(DueAll(dir, server, listing), x);
    r := DueFrom(dir, server, listing, d);
  }

  lemma SyncedInto(cfg: Settings, dir: Directory, server: string, listing: seq<Route>, r: Route, x: Route, s: Site)
    requires cfg.Valid() && Render(DueAll(dir, server, listing), cfg).Ok?
    requires forall q | q in DueAll(dir, server, listing) :: AuthReadable(q)
    requires DistinctContainers(listing) && OnePerName(listing) && r in listing
    requires SiteOfDue(dir, server, r, x, cfg, s)
    ensures var text := Render(DueAll(dir, server, listing), cfg).value; Read(text).Some? && s in Read(text).value
  {
    DueInto(dir, server, listing, r);
    DueOnePerName(dir, server, listing);
    DueDistinct(dir, server, listing);
    RouteInto(DueAll(dir, server, listing), cfg, Due(dir, server, r), x, s);
  }

  lemma RouteInto(routes: seq<Route>, cfg: Settings, d: Route, x: Route, s: Site)
    requires cfg.Valid() && Render(routes, cfg).Ok?
    requires forall q | q in routes :: AuthReadable(q)
    requires DistinctContainers(routes) && OnePerName(routes)
    requires d in routes && Clean(d) == Ok(x) && x.port >= 0 && s in SitesFor(x, cfg)
    ensures var text := Render(routes, cfg).value; Read(text).Some? && s in Read(text).value
  {
    RenderCleans(routes, cfg);
    assert Wins(x, CleanAll(routes).value) by { OneWins(routes, d); }
    RenderedInto(routes, cfg, x, s);
  }

  lemma RenderCleans(routes: seq<Route>, cfg: Settings)
    requires Render(routes, cfg).Ok?
    ensures CleanAll(routes).Ok? && Normalize(routes).Ok?
  {
  }

  // ---- Live sites ----

  lemma DesiredBacked(cs: Containers, listing: seq<Route>, overrides: seq<Override>)
    requires Tidy(cs) && Listing(cs, listing) && RouteSync.DistinctServices(overrides)
    requires forall o | o in overrides :: PreviewNames.IsUuid(o.service)
    ensures forall x | x in Desired(listing, overrides) :: AuthReadable(x) && Backed(cs, x)
  {
    ListingDistinct(cs, listing);
    forall x | x in Desired(listing, overrides) ensures AuthReadable(x) && Backed(cs, x) {
      DesiredEach(listing, overrides, x);
      var r := DesiredOrigin(listing, overrides, x);
      ListedBacked(cs, r);
      if Overridden(listing, overrides, x) { var o := OverriddenService(listing, overrides, x); }
    }
  }

  /** After a sync that Caddy loaded, whatever was listed, every loaded site has its own route's container
      running behind it. */
  lemma SyncLive(h: Host, h': Host, cfg: Settings, dir: Directory, server: string, a: SyncAnswers, listing: seq<Route>,
          overrides: seq<Override>, results: seq<(Override, bool)>)
    requires cfg.Valid() && Tidy(h.containers) && h'.containers == h.containers
    requires SyncOf(h, h'.caddy, cfg, dir, server, a, listing, overrides, None, results)
    ensures Live(h', cfg, Desired(listing, overrides))
  {
    CaddyManager.StepOutcome(h.caddy, Render(Desired(listing, overrides), cfg), a.apply);
    DesiredBacked(h.containers, listing, overrides);
    RenderedLive(Desired(listing, overrides), cfg, h');
  }

  /** However a sync ends, a live server stays live. */
  lemma SyncStaysLive(h: Host, h': Host, cfg: Settings, dir: Directory, server: string, a: SyncAnswers, o: SyncOutcome,
          before: seq<Route>) returns (after: seq<Route>)
    requires cfg.Valid() && Tidy(h.containers) && SyncedBy(h, h', cfg, dir, server, a, o) && Live(h, cfg, before)
    ensures Live(h', cfg, after) && ((o.Synced? && o.failure.None?) || after == before)
  {
    after := before;
    if o.Synced? {
      var listing, overrides :| SyncOf(h, h'.caddy, cfg, dir, server, a, listing, overrides, o.failure, o.results);
      if o.failure.None? {
        after := Desired(listing, overrides);
        SyncLive(h, h', cfg, dir, server, a, listing, overrides, o.results);
      } else {
        CaddyManager.StepOutcome(h.caddy, Render(Desired(listing, overrides), cfg), a.apply);
        LiveKept(h, h', cfg, before);
      }
    }
  }

  lemma TidyCreated(cs: Containers, input: RunInput, reply: RunReply)
    requires Tidy(cs) && ReplyOk(cs, reply) && AuthReadable(CurrentRoute(input, "", 1))
    ensures Tidy(Created(cs, input, reply))
  {
    if !reply.NotCreated? { assert Created(cs, input, reply)[reply.id].labels == Labels(input); }
  }

  lemma TidyShrunk(before: Containers, after: Containers, appLabel: string, keep: string)
    requires Tidy(before) && Shrunk(before, after, appLabel, keep)
    ensures Tidy(after)
  {
  }

  /** In a public deployment with the sync that closes it, every site Caddy has loaded has its own route's
      container running behind it in every state passed through, whatever fails: as before until Caddy is told,
      then as told, then as the sync told it. */
  lemma DeploymentStaysLive(h: Host, mid: Host, h': Host, cfg: Settings, job: Job, a: Answers, o: DeployOutcome,
          early: seq<Host>, late: seq<Host>, closing: seq<Host>, dir: Directory, server: string, sync: SyncAnswers,
          synced: SyncOutcome, before: seq<Route>)
    returns (told: seq<Route>, after: seq<Route>)
    requires job.input.public && Deploying.Sound(h, cfg, job.input) && Live(h, cfg, before)
    requires ReplyOk(h.containers, a.reply) && Deployed(h, mid, cfg, job, a, o)
    requires Agent.Passage(h, mid, Effective(job, a), a.reply, o, early, late)
    requires if o.Running? then SyncedBy(mid, h', cfg, dir, server, sync, synced) else h' == mid
    requires forall x | x in closing :: x == h'
    ensures forall x | x in early :: Live(x, cfg, before)
    ensures forall x | x in late :: Live(x, cfg, told)
    ensures Live(mid, cfg, told) && Live(h', cfg, after) && forall x | x in closing :: Live(x, cfg, after)
  {
    told := Deploying.DeployStaysLive(h, mid, cfg, job, a, o, early, late, before);
    after := told;
    if o.Running? {
      Deploying.RunningRetires(h, mid, cfg, job, a, o);
      TidyCreated(h.containers, Effective(job, a), a.reply);
      TidyShrunk(Created(h.containers, Effective(job, a), a.reply), mid.containers, job.input.appLabel, a.reply.id);
      after := SyncStaysLive(mid, h', cfg, dir, server, sync, synced, told);
    }
  }

  // ---- Production and previews ----

  /** The route of a preview's container: labelled with a routing key. */
  predicate IsPreviewRoute(sha: string -> string, r: Route, service: string, pr: int, ref: string)
    requires forall s :: |sha(s)| == 64
  {
    r.service == PreviewNames.RouteKey(sha, service, pr, ref)
  }

  /** The control plane never vouches for a preview, so a preview keeps its own host and basic auth and
      gains no custom host, and no override names it. */
  lemma PreviewKeepsItsRoute(sha: string -> string, dir: Directory, server: string, routes: seq<Route>, r: Route,
          service: string, pr: int, ref: string, overrides: seq<Override>)
    requires PreviewNames.IsHexDigest(sha) && PreviewNames.IsUuid(service) && pr <= PreviewNames.MAX_INT32
    requires IsPreviewRoute(sha, r, service, pr, ref) && IsAnswer(dir, server, routes, overrides)
    ensures Due(dir, server, r) == r
    ensures forall o | o in overrides :: o.service != r.service
  {
    PreviewNames.KeyShape(sha, service, pr, ref);
    assert !PreviewNames.IsUuid(r.service);
  }

  /** A production route the control plane believes gains exactly its service's verified domains, in
      ascending order, and the router accepts them. */
  lemma ProductionGainsItsDomains(dir: Directory, server: string, r: Route)
    requires Vouched(dir, server, r) && Named(dir, r.service) && r.port <= 65535
    requires forall i | 0 <= i < |dir.verified[r.service]| ::
               Hostnames.NormalizeHostname(dir.verified[r.service][i]) == Ok(dir.verified[r.service][i])
    ensures Clean(Due(dir, server, r)).Ok?
    ensures var c := Clean(Due(dir, server, r)).value;
            && Ascending(c.customHosts, Hostnames.Self)
            && (forall x :: x in c.customHosts <==> x in dir.verified[r.service])
            && c.service == r.service && c.port == r.port && c.container == r.container && c.routeHost == ""
  {
    Hostnames.AcceptedDomainsRoute(dir.verified[r.service]);
    UuidLabel(r.service);
  }

  /** A service id is a DNS label in normal form. */
  lemma UuidLabel(s: string)
    requires PreviewNames.IsUuid(s)
    ensures Hostnames.ValidLabel(s) && Folded(s) == s
  {
    assert forall i | 0 <= i < |s| :: Hostnames.IsLabelChar(s[i]);
    TrimFixed(s, IsSpace);
  }
}
