/** What a teardown keeps and removes, and that repeating it changes nothing more. */
module TearingDown {
  import opened Text
  import opened Routes
  import opened Caddyfile
  import opened Docker
  import CaddyManager
  import opened Serving
  import opened Attempts
  import Deploying
  import Rebuild

  /** However it ends, a teardown leaves every container of another label, and what Caddy runs changes
      only when the teardown succeeds. */
  lemma TeardownKeepsOthers(h: Host, h': Host, cfg: Settings, key: string, network: string, a: TeardownAnswers,
          o: TeardownOutcome)
    requires "" !in h.containers && TornDown(h, h', cfg, key, network, a, o)
    ensures forall id | id in h.containers && !HasLabel(h.containers[id], key) ::
              id in h'.containers && h'.containers[id] == h.containers[id]
    ensures h'.containers.Keys <= h.containers.Keys
    ensures !o.Gone? ==> h'.caddy.loaded == h.caddy.loaded && h'.networks == h.networks
    ensures o.Gone? ==> NoneLeft(h'.containers, key, "")
  {
    if Retires(h.containers, key, "", a.daemon) && a.listed {
      var listing :| Listing(h'.containers, listing) && Rerouted(h, h', cfg, network, a, o, listing);
      CaddyManager.StepOutcome(h.caddy, Render(listing, cfg), a.apply);
    }
  }

  /** A container with the key as its service label is gone after a teardown that got through, and else gone, stopped
      or as it was; one without it stays as it was. */
  lemma GoneAsLabelled(h: Host, h': Host, cfg: Settings, key: string, network: string, a: TeardownAnswers,
          o: TeardownOutcome, id: string)
    requires "" !in h.containers && TornDown(h, h', cfg, key, network, a, o) && id in h.containers
    ensures var c := h.containers[id];
            if SERVICE !in c.labels || c.labels[SERVICE] != key then id in h'.containers && h'.containers[id] == c
            else
              && (o.Gone? ==> id !in h'.containers)
              && (id in h'.containers ==> h'.containers[id] == c || h'.containers[id] == c.(running := false))
  {
    TeardownKeepsOthers(h, h', cfg, key, network, a, o);
  }

  /** The rendering succeeded, and is what Caddy runs and has on file. */
  predicate RunsText(caddy: CaddyManager.State, rendered: Result<string, RenderError>) {
    rendered.Ok? && caddy == CaddyManager.State(Some(rendered.value), Some(rendered.value))
  }

  lemma ReroutedExactly(h: Host, h': Host, cfg: Settings, network: string, a: TeardownAnswers, o: TeardownOutcome,
          listing: seq<Route>)
    requires Rerouted(h, h', cfg, network, a, o, listing)
    ensures o.Gone? <==> Render(listing, cfg).Ok? && Deploying.Accepts(h.caddy, a.apply)
    ensures o.Gone? ==> RunsText(h'.caddy, Render(listing, cfg)) && o.removed == |h.containers| - |h'.containers|
  {
    Deploying.StepAccepts(h.caddy, Render(listing, cfg), a.apply);
    CaddyManager.StepOutcome(h.caddy, Render(listing, cfg), a.apply);
  }

  /** A teardown succeeds exactly when the daemon removes every container of the key, lists what is left,
      and Caddy accepts its rendering. Then Caddy runs that rendering, for whichever listing. */
  lemma TeardownExactly(h: Host, h': Host, cfg: Settings, key: string, network: string, a: TeardownAnswers,
          o: TeardownOutcome, listing: seq<Route>)
    requires TornDown(h, h', cfg, key, network, a, o) && Listing(h'.containers, listing)
    ensures o.Gone? <==>
            && Retires(h.containers, key, "", a.daemon) && a.listed
            && Render(listing, cfg).Ok? && Deploying.Accepts(h.caddy, a.apply)
    ensures o.Gone? ==> RunsText(h'.caddy, Render(listing, cfg)) && o.removed == |h.containers| - |h'.containers|
  {
    if Retires(h.containers, key, "", a.daemon) && a.listed {
      var given :| Listing(h'.containers, given) && Rerouted(h, h', cfg, network, a, o, given);
      ReroutedExactly(h, h', cfg, network, a, o, given);
      Rebuild.ListingsStoredAlike(h'.containers, given, listing, cfg);
    }
  }

  /** After a successful teardown every loaded site has its own service's container running behind it, and no
      container is left that could be listed under the key. */
  lemma TeardownLive(h: Host, h': Host, cfg: Settings, key: string, network: string, a: TeardownAnswers,
          o: TeardownOutcome, listing: seq<Route>)
    requires TornDown(h, h', cfg, key, network, a, o) && o.Gone? && Listing(h'.containers, listing)
    requires cfg.Valid() && Tidy(h'.containers) && "" !in h.containers
    ensures Live(h', cfg, listing)
    ensures forall r | r in listing :: r.service != key
    ensures forall id | id in h'.containers :: !HasLabel(h'.containers[id], key)
  {
    TeardownExactly(h, h', cfg, key, network, a, o, listing);
    TeardownKeepsOthers(h, h', cfg, key, network, a, o);
    forall r | r in listing ensures AuthReadable(r) && Backed(h'.containers, r) { ListedBacked(h'.containers, r); }
    RenderedLive(listing, cfg, h');
  }

  lemma BackedStill(before: Containers, after: Containers, appLabel: string, keep: string, r: Route)
    requires Shrunk(before, after, appLabel, keep)
    ensures Backed(after, r) <==> Deploying.Survived(before, after, r)
  {
  }

  /** A teardown that did not get through tells Caddy nothing that it takes. The server stays live exactly when
      every loaded site has a route whose container came through; only containers of the key go. */
  lemma HalfTeardownLiveExactly(h: Host, h': Host, cfg: Settings, key: string, network: string, a: TeardownAnswers,
          o: TeardownOutcome, routes: seq<Route>)
    requires "" !in h.containers && TornDown(h, h', cfg, key, network, a, o) && !o.Gone? && Runs(h, cfg, routes)
    ensures Live(h', cfg, routes) <==>
              forall s | s in LoadedSites(h) ::
                exists r, x | r in routes :: SiteOf(r, x, cfg, s) && Deploying.Survived(h.containers, h'.containers, r)
    ensures forall id | id in h.containers && (id !in h'.containers || h'.containers[id] != h.containers[id]) ::
              HasLabel(h.containers[id], key) && a.daemon.lists
  {
    TeardownKeepsOthers(h, h', cfg, key, network, a, o);
    assert LoadedSites(h') == LoadedSites(h);
    forall s | s in LoadedSites(h)
      ensures Hosted(h'.containers, cfg, routes, s) <==>
                exists r, x | r in routes :: SiteOf(r, x, cfg, s) && Deploying.Survived(h.containers, h'.containers, r)
    {
      StillHosted(h.containers, h'.containers, cfg, key, routes, s);
    }
  }

  lemma StillHosted(before: Containers, after: Containers, cfg: Settings, key: string, routes: seq<Route>, s: Site)
    requires Shrunk(before, after, key, "")
    ensures Hosted(after, cfg, routes, s) <==>
              exists r, x | r in routes :: SiteOf(r, x, cfg, s) && Deploying.Survived(before, after, r)
  {
    if r, x :| r in routes && SiteOf(r, x, cfg, s) && Backed(after, r) { BackedStill(before, after, key, "", r); }
    if r, x :| r in routes && SiteOf(r, x, cfg, s) && Deploying.Survived(before, after, r) {
      BackedStill(before, after, key, "", r);
    }
  }

  // ---- Doing it again ----

  /** One more teardown of a key: how it was answered, how it ended, and the server afterwards. */
  datatype Redo = Redo(answers: TeardownAnswers, outcome: TeardownOutcome, after: Host)

  /** The server before the n-th one. */
  function Before(h: Host, redos: seq<Redo>, n: nat): Host
    requires n < |redos|
  {
    if n == 0 then h else redos[n - 1].after
  }

  ghost predicate Redone(h: Host, cfg: Settings, key: string, network: string, redos: seq<Redo>, n: nat)
    requires n < |redos|
  {
    TornDown(Before(h, redos, n), redos[n].after, cfg, key, network, redos[n].answers, redos[n].outcome)
  }

  /** One after the other. */
  ghost predicate Again(h: Host, cfg: Settings, key: string, network: string, redos: seq<Redo>) {
    forall n: nat | n < |redos| :: Redone(h, cfg, key, network, redos, n)
  }

  /** Whatever the order of the listing, the containers render to this text. */
  ghost predicate AllRender(cs: Containers, cfg: Settings, text: string) {
    forall listing | Listing(cs, listing) :: Render(listing, cfg) == Ok(text)
  }

  /** The key is gone: no container has it and Caddy runs what is left. */
  ghost predicate Settled(h: Host, cfg: Settings, key: string) {
    && NoneLeft(h.containers, key, "")
    && h.caddy.file.Some? && h.caddy.loaded == h.caddy.file
    && AllRender(h.containers, cfg, h.caddy.file.value)
  }

  /** The listing a successful teardown gave Caddy. */
  lemma TeardownListing(h: Host, h': Host, cfg: Settings, key: string, network: string, a: TeardownAnswers,
          o: TeardownOutcome)
    returns (listing: seq<Route>)
    requires TornDown(h, h', cfg, key, network, a, o) && o.Gone?
    ensures Listing(h'.containers, listing) && RunsText(h'.caddy, Render(listing, cfg))
    ensures network != "" && a.unlinked ==> network !in h'.networks
  {
    listing :| Listing(h'.containers, listing) && Rerouted(h, h', cfg, network, a, o, listing);
    CaddyManager.StepOutcome(h.caddy, Render(listing, cfg), a.apply);
  }

  lemma TeardownSettles(h: Host, h': Host, cfg: Settings, key: string, network: string, a: TeardownAnswers,
          o: TeardownOutcome)
    requires TornDown(h, h', cfg, key, network, a, o) && o.Gone?
    ensures Settled(h', cfg, key)
    ensures network != "" && a.unlinked ==> network !in h'.networks
  {
    var given := TeardownListing(h, h', cfg, key, network, a, o);
    forall listing | Listing(h'.containers, listing) ensures Render(listing, cfg) == Ok(h'.caddy.file.value) {
      Rebuild.ListingsStoredAlike(h'.containers, given, listing, cfg);
    }
  }

  lemma NothingToRemove(cs: Containers, after: Containers, key: string)
    requires NoneLeft(cs, key, "") && Shrunk(cs, after, key, "")
    ensures after == cs
  {
  }

  /** What Caddy runs is the rendering of the containers, whatever the file is. */
  ghost predicate Current(h: Host, cfg: Settings, key: string, text: string) {
    NoneLeft(h.containers, key, "") && h.caddy.loaded == Some(text) && AllRender(h.containers, cfg, text)
  }

  /** Reloading fails, and putting the file back is cut short: it was emptied and only its beginning written. */
  predicate CutsFile(a: TeardownAnswers, text: string) {
    && a.daemon.lists && a.listed && CaddyManager.ReloadsFail(a.apply)
    && a.apply.restore.Truncated? && a.apply.restore.kept < |text|
  }

  lemma CurrentManaged(h: Host, cfg: Settings, key: string, text: string)
    requires Current(h, cfg, key, text)
    ensures CaddyManager.Managed(text)
  {
    var listing := SomeListing(h.containers);
    RenderIsManaged(listing, cfg);
  }

  /** One more teardown of a key that is gone, however it ends: the same containers, the same configuration
      loaded, and at most the network goes. */
  lemma CurrentStays(h: Host, h': Host, cfg: Settings, key: string, network: string, a: TeardownAnswers,
          o: TeardownOutcome, text: string)
    requires Current(h, cfg, key, text) && TornDown(h, h', cfg, key, network, a, o)
    ensures h'.containers == h.containers && h'.caddy.loaded == h.caddy.loaded && Current(h', cfg, key, text)
    ensures h'.networks == h.networks || h'.networks == h.networks - {network}
    ensures o.Gone? ==> o.removed == 0
  {
    NothingToRemove(h.containers, h'.containers, key);
    if Retires(h.containers, key, "", a.daemon) && a.listed {
      var given :| Listing(h'.containers, given) && Rerouted(h, h', cfg, network, a, o, given);
      SameLoaded(h.caddy, text, Render(given, cfg), a.apply);
    }
  }

  /** Giving Caddy the text it already runs. */
  lemma SameLoaded(s: CaddyManager.State, text: string, rendered: Result<string, RenderError>, a: CaddyManager.Attempt)
    requires s.loaded == Some(text) && rendered == Ok(text)
    ensures CaddyManager.Step(s, rendered, a).0.loaded == s.loaded
  {
  }

  /** If the file was that configuration too, it changes exactly when reloading fails and restoring the file
      is cut short. Then its beginning is left. */
  lemma SettledStays(h: Host, h': Host, cfg: Settings, key: string, network: string, a: TeardownAnswers,
          o: TeardownOutcome)
    requires Settled(h, cfg, key) && TornDown(h, h', cfg, key, network, a, o)
    ensures h'.containers == h.containers && h'.caddy.loaded == h.caddy.loaded
    ensures h'.networks == h.networks || h'.networks == h.networks - {network}
    ensures h'.caddy != h.caddy <==> CutsFile(a, h.caddy.file.value)
    ensures CutsFile(a, h.caddy.file.value) ==> h'.caddy.file == Some(h.caddy.file.value[..a.apply.restore.kept])
    ensures Settled(h', cfg, key) <==> !CutsFile(a, h.caddy.file.value)
    ensures o.Gone? ==> o.removed == 0
  {
    var text := h.caddy.file.value;
    CurrentStays(h, h', cfg, key, network, a, o, text);
    CurrentManaged(h, cfg, key, text);
    if a.daemon.lists && a.listed {
      assert Retires(h.containers, key, "", a.daemon);
      var given :| Listing(h'.containers, given) && Rerouted(h, h', cfg, network, a, o, given);
      SameText(h.caddy, text, Render(given, cfg), a.apply);
    }
  }

  /** Giving Caddy the text it already runs and has on file. */
  lemma SameText(s: CaddyManager.State, text: string, rendered: Result<string, RenderError>, a: CaddyManager.Attempt)
    requires s == CaddyManager.State(Some(text), Some(text)) && rendered == Ok(text) && CaddyManager.Managed(text)
    ensures var cut := CaddyManager.ReloadsFail(a) && a.restore.Truncated? && a.restore.kept < |text|;
            && (CaddyManager.Step(s, rendered, a).0 != s <==> cut)
            && (cut ==> CaddyManager.Step(s, rendered, a).0.file == Some(text[..a.restore.kept]))
  {
    assert text[..|text|] == text;
  }

  /** The server as it was, but for the key's network and the file. */
  predicate SameButFile(h: Host, h': Host, network: string) {
    && h'.containers == h.containers && h'.caddy.loaded == h.caddy.loaded
    && (h'.networks == h.networks || h'.networks == h.networks - {network})
  }

  predicate Idle(h: Host, network: string, x: Redo) {
    SameButFile(h, x.after, network) && (x.outcome.Gone? ==> x.outcome.removed == 0)
  }

  lemma SameTwice(a: Host, b: Host, c: Host, network: string)
    requires SameButFile(a, b, network) && SameButFile(b, c, network)
    ensures SameButFile(a, c, network)
  {
    assert a.networks - {network} - {network} == a.networks - {network};
  }

  lemma OneMore(h: Host, cfg: Settings, key: string, network: string, redos: seq<Redo>, n: nat)
    requires Settled(h, cfg, key) && Again(h, cfg, key, network, redos) && n < |redos|
    requires SameButFile(h, Before(h, redos, n), network)
    ensures Idle(h, network, redos[n])
  {
    var b, x := Before(h, redos, n), redos[n];
    assert Current(b, cfg, key, h.caddy.file.value);
    assert Redone(h, cfg, key, network, redos, n);
    CurrentStays(b, x.after, cfg, key, network, x.answers, x.outcome, h.caddy.file.value);
    SameTwice(h, b, x.after, network);
  }

  /** Any number of duplicate teardowns after one that succeeded, whatever fails in them, leave the containers
      and what Caddy runs as that one left them, and remove nothing. */
  lemma {:induction false} DuplicatesChangeNothing(h: Host, cfg: Settings, key: string, network: string,
          redos: seq<Redo>, n: nat)
    requires Settled(h, cfg, key) && Again(h, cfg, key, network, redos) && n < |redos|
    ensures Idle(h, network, redos[n])
    decreases n
  {
    if 0 < n { DuplicatesChangeNothing(h, cfg, key, network, redos, n - 1); }
    OneMore(h, cfg, key, network, redos, n);
  }

  /** The n-th duplicate cuts the file short. */
  predicate Cuts(h: Host, redos: seq<Redo>, n: nat)
    requires n < |redos|
  {
    h.caddy.file.Some? && CutsFile(redos[n].answers, h.caddy.file.value)
  }

  /** As long as no duplicate cut it short the file is the same as well. */
  lemma {:induction false} FileStays(h: Host, cfg: Settings, key: string, network: string, redos: seq<Redo>, n: nat)
    requires Settled(h, cfg, key) && Again(h, cfg, key, network, redos) && n < |redos|
    requires forall i: nat | i < n :: !Cuts(h, redos, i)
    ensures Before(h, redos, n).caddy == h.caddy && Before(h, redos, n).containers == h.containers
    ensures redos[n].after.caddy == h.caddy <==> !Cuts(h, redos, n)
    decreases n
  {
    if 0 < n { FileStays(h, cfg, key, network, redos, n - 1); }
    if 0 < n { DuplicatesChangeNothing(h, cfg, key, network, redos, n - 1); }
    var b, x := Before(h, redos, n), redos[n];
    assert Settled(b, cfg, key);
    assert Redone(h, cfg, key, network, redos, n);
    SettledStays(b, x.after, cfg, key, network, x.answers, x.outcome);
  }

  /** The duplicates leave Caddy's file and configuration alone exactly when none of them cuts the file short. */
  lemma DuplicatesKeepTheFileExactly(h: Host, cfg: Settings, key: string, network: string, redos: seq<Redo>)
    requires Settled(h, cfg, key) && Again(h, cfg, key, network, redos)
    ensures (forall n: nat | n < |redos| :: redos[n].after.caddy == h.caddy) <==>
            (forall n: nat | n < |redos| :: !Cuts(h, redos, n))
  {
    if forall n: nat | n < |redos| :: !Cuts(h, redos, n) {
      forall n: nat | n < |redos| ensures redos[n].after.caddy == h.caddy { FileStays(h, cfg, key, network, redos, n); }
    } else {
      var n := FirstCut(h, redos);
      FileStays(h, cfg, key, network, redos, n);
    }
  }

  lemma FirstCut(h: Host, redos: seq<Redo>) returns (n: nat)
    requires exists i: nat | i < |redos| :: Cuts(h, redos, i)
    ensures n < |redos| && Cuts(h, redos, n) && forall i: nat | i < n :: !Cuts(h, redos, i)
  {
    n := 0;
    while !Cuts(h, redos, n)
      invariant n < |redos| && forall i: nat | i < n :: !Cuts(h, redos, i)
      invariant exists i: nat | i < |redos| :: i >= n && Cuts(h, redos, i)
      decreases |redos| - n
    {
      n := n + 1;
    }
  }

  /** Once the network is gone too, the server is the very same after every duplicate, exactly as long as none
      cuts the file short. */
  lemma DuplicatesChangeNothingAtAll(h: Host, cfg: Settings, key: string, network: string, redos: seq<Redo>)
    requires Settled(h, cfg, key) && Again(h, cfg, key, network, redos) && network !in h.networks
    ensures (forall n: nat | n < |redos| :: redos[n].after == h) <==>
            (forall n: nat | n < |redos| :: !Cuts(h, redos, n))
  {
    DuplicatesKeepTheFileExactly(h, cfg, key, network, redos);
    forall n: nat | n < |redos| ensures redos[n].after == h <==> redos[n].after.caddy == h.caddy {
      DuplicatesChangeNothing(h, cfg, key, network, redos, n);
      assert h.networks - {network} == h.networks;
    }
  }

  /** Everything is answered well until Caddy neither reloads nor starts, and the file is left empty. */
  const CUT := TeardownAnswers(
    Daemon(true, {}, {}), true,
    CaddyManager.Attempt(true, true, true, true, false, false, CaddyManager.Truncated(0)), false)

  /** After any successful teardown such a duplicate empties the file, and with it the agent's mark. */
  lemma DuplicateMayCutTheFile(h: Host, cfg: Settings, key: string, network: string) returns (h': Host)
    requires Settled(h, cfg, key)
    ensures TornDown(h, h', cfg, key, network, CUT, NotRouted(CaddyManager.ReloadFailed(false)))
    ensures h'.caddy == CaddyManager.State(Some(""), h.caddy.loaded) && !CaddyManager.Managed("")
  {
    var text := h.caddy.file.value;
    CurrentManaged(h, cfg, key, text);
    h' := h.(caddy := CaddyManager.State(Some(""), h.caddy.loaded));
    var listing := SomeListing(h.containers);
    assert text[..0] == "";
    assert Rerouted(h, h', cfg, network, CUT, NotRouted(CaddyManager.ReloadFailed(false)), listing);
  }
}
