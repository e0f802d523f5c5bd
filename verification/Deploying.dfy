/** What every deploy attempt keeps, however Docker, the app and Caddy answer. */
module Deploying {
  import opened Text
  import opened Routes
  import opened Caddyfile
  import opened Docker
  import CaddyManager
  import opened RouteSync
  import opened Serving
  import opened Attempts
  import opened Agent

  /** What the control plane supplies: routing settings that were checked, and token auth fields. */
  predicate Sound(h: Host, cfg: Settings, input: RunInput) {
    cfg.Valid() && Tidy(h.containers) && AuthReadable(CurrentRoute(input, "", 1))
  }

  /** The configuration Caddy runs is the rendering of a listing with the new route in it. */
  ghost predicate Routed(mid: Containers, caddy: CaddyManager.State, cfg: Settings, current: Route) {
    exists listing :: Listing(mid, listing) && RoutedBy(listing, caddy, cfg, current)
  }

  predicate RoutedBy(listing: seq<Route>, caddy: CaddyManager.State, cfg: Settings, current: Route) {
    && Render(RoutesFor(listing, current), cfg).Ok?
    && var text := Render(RoutesFor(listing, current), cfg).value;
       caddy == CaddyManager.State(Some(text), Some(text))
  }

  /** A public attempt that came up has Caddy running a configuration with its route in it. */
  lemma RunningIsRouted(h: Host, h': Host, cfg: Settings, job: Job, a: Answers, o: DeployOutcome)
    requires Deployed(h, h', cfg, job, a, o) && o.Running? && job.input.public
    ensures a.reply.Up?
    ensures var input := Effective(job, a);
            Routed(Created(h.containers, input, a.reply), h'.caddy, cfg, CurrentRoute(input, a.reply.id, a.reply.port))
  {
    var input := Effective(job, a);
    var listing :| Listing(Created(h.containers, input, a.reply), listing)
      && RoutedAs(h, h', cfg, input, a, o, listing);
    var current := CurrentRoute(input, a.reply.id, a.reply.port);
    CaddyManager.StepOutcome(h.caddy, Render(RoutesFor(listing, current), cfg), a.apply);
    assert RoutedBy(listing, h'.caddy, cfg, current);
  }

  /** An attempt that came up leaves the new container, every container of another label as it was, and
      none else of its label when they could be removed. */
  lemma RunningRetires(h: Host, h': Host, cfg: Settings, job: Job, a: Answers, o: DeployOutcome)
    requires Deployed(h, h', cfg, job, a, o) && o.Running?
    ensures a.reply.Up?
    ensures var input := Effective(job, a);
            Retired(Created(h.containers, input, a.reply), h'.containers, input.appLabel, a.reply.id, a.daemon,
              o.retired)
  {
    var input := Effective(job, a);
    if job.input.public {
      var listing :| Listing(Created(h.containers, input, a.reply), listing)
        && RoutedAs(h, h', cfg, input, a, o, listing);
    }
  }

  lemma RoutingFailed(h: Host, h': Host, cfg: Settings, input: RunInput, a: Answers, o: DeployOutcome,
          listing: seq<Route>)
    requires RoutedAs(h, h', cfg, input, a, o, listing) && o.Failed?
    ensures h'.containers == CleanedUp(h.containers, input, a.reply, a.daemon)
    ensures h'.caddy.loaded == h.caddy.loaded
    ensures h'.caddy.file != h.caddy.file ==> o == Failed(Routing, Some(CaddyManager.ReloadFailed(false)))
  {
    CaddyManager.StepOutcome(h.caddy, Render(RoutesFor(listing, CurrentRoute(input, a.reply.id, a.reply.port)), cfg),
      a.apply);
  }

  lemma LaunchFailed(h: Host, h': Host, cfg: Settings, input: RunInput, a: Answers, o: DeployOutcome)
    requires Launched(h, h', cfg, input, a, o) && o.Failed?
    ensures h'.containers == CleanedUp(h.containers, input, a.reply, a.daemon)
    ensures h'.caddy.loaded == h.caddy.loaded
    ensures h'.caddy.file != h.caddy.file ==> o == Failed(Routing, Some(CaddyManager.ReloadFailed(false)))
  {
    if Blocked(cfg, input, a).None? {
      var listing :| Listing(Created(h.containers, input, a.reply), listing)
        && RoutedAs(h, h', cfg, input, a, o, listing);
      RoutingFailed(h, h', cfg, input, a, o, listing);
    }
  }

  lemma CleaningKeeps(cs: Containers, input: RunInput, reply: RunReply, d: Daemon)
    requires ReplyOk(cs, reply)
    ensures forall id | id in cs :: id in CleanedUp(cs, input, reply, d) && CleanedUp(cs, input, reply, d)[id] == cs[id]
  {
  }

  /** A failed attempt changes nothing Caddy runs and no container that was there; the file changes only
      if restoring it failed. */
  lemma FailureKeeps(h: Host, h': Host, cfg: Settings, job: Job, a: Answers, o: DeployOutcome)
    requires ReplyOk(h.containers, a.reply) && Deployed(h, h', cfg, job, a, o) && o.Failed?
    ensures h'.caddy.loaded == h.caddy.loaded
    ensures h'.caddy.file != h.caddy.file ==> o == Failed(Routing, Some(CaddyManager.ReloadFailed(false)))
    ensures forall id | id in h.containers :: id in h'.containers && h'.containers[id] == h.containers[id]
    ensures h'.containers == h.containers
              || h'.containers == CleanedUp(h.containers, Effective(job, a), a.reply, a.daemon)
  {
    CleaningKeeps(h.containers, Effective(job, a), a.reply, a.daemon);
    if Fetched(job, a) { LaunchFailed(h, h', cfg, Effective(job, a), a, o); }
  }

  /** When the failed container could be removed and the file restored, a failed attempt leaves the
      containers and Caddy exactly as they were; at most the container's network is new. */
  lemma FailureRestores(h: Host, h': Host, cfg: Settings, job: Job, a: Answers, o: DeployOutcome)
    requires ReplyOk(h.containers, a.reply) && Deployed(h, h', cfg, job, a, o) && o.Failed?
    requires a.reply.NotCreated? || a.reply.id in a.daemon.removes
    requires o.why != Some(CaddyManager.ReloadFailed(false))
    ensures h'.containers == h.containers && h'.caddy == h.caddy
    ensures h'.networks == h.networks || h'.networks == h.networks + {job.input.network}
  {
    FailureKeeps(h, h', cfg, job, a, o);
    if !a.reply.NotCreated? {
      var id, c := a.reply.id, CreatedBy(Effective(job, a), a.reply);
      assert h.containers[id := c] - {id} == h.containers;
    }
    assert h'.caddy == CaddyManager.State(h'.caddy.file, h'.caddy.loaded);
  }

  // ---- What is started ----

  /** The container has the labels of the job's input, each as it stands there. */
  predicate LabelledBy(c: Container, input: RunInput) {
    && Value(c, MANAGED) == "true" && Value(c, SERVICE) == input.appLabel && Value(c, DEPLOYMENT) == input.deployment
    && Value(c, ROUTE_HOST) == input.routeHost
    && Value(c, AUTH_USER) == (if input.authUser != "" && input.authHash != "" then input.authUser else "")
    && Value(c, AUTH_HASH) == (if input.authUser != "" && input.authHash != "" then input.authHash else "")
    && forall l | l in c.labels :: !l.Other?
  }

  lemma LabelsAsAsked(c: Container, input: RunInput)
    requires c.labels == Labels(input)
    ensures LabelledBy(c, input)
  {
  }

  /** What an attempt leaves of the container it started is what the job and the image asked for: the job's
      labels, and for a public service one binding, of the port the job names, or of the one the built image
      exposes when the job names none, to the port that was reported. It is on the job's network. */
  lemma StartedAsAsked(h: Host, h': Host, cfg: Settings, job: Job, a: Answers, o: DeployOutcome)
    requires ReplyOk(h.containers, a.reply) && Deployed(h, h', cfg, job, a, o) && o.Running?
    ensures a.reply.Up? && a.reply.id in h'.containers
    ensures job.git && job.input.containerPort == 0 ==> a.detected.Some?
    ensures var c := h'.containers[a.reply.id];
            && c.running && LabelledBy(c, job.input)
            && c.ports ==
                 if !job.input.public then []
                 else if job.git && job.input.containerPort == 0 then [Binding(a.detected.value, a.reply.port, true)]
                 else [Binding(job.input.containerPort, a.reply.port, true)]
    ensures h'.networks == if job.input.network == "" then h.networks else h.networks + {job.input.network}
  {
    RunningRetires(h, h', cfg, job, a, o);
    LabelsAsAsked(h'.containers[a.reply.id], job.input);
  }

  /** A container that a failed attempt could not remove has the job's labels too. It does not run if the daemon
      stopped it. */
  lemma LeftAsAsked(h: Host, h': Host, cfg: Settings, job: Job, a: Answers, o: DeployOutcome, id: string)
    requires ReplyOk(h.containers, a.reply) && Deployed(h, h', cfg, job, a, o) && o.Failed?
    requires id in h'.containers && id !in h.containers
    ensures !a.reply.NotCreated? && id == a.reply.id && LabelledBy(h'.containers[id], job.input)
    ensures id !in a.daemon.removes && (id in a.daemon.stops ==> !h'.containers[id].running)
  {
    FailureKeeps(h, h', cfg, job, a, o);
    LeftBehind(h.containers, Effective(job, a), a.reply, a.daemon, h'.containers, id);
    LabelsAsAsked(h'.containers[id], job.input);
  }

  lemma LeftBehind(cs: Containers, input: RunInput, reply: RunReply, d: Daemon, after: Containers, id: string)
    requires after == CleanedUp(cs, input, reply, d) && id in after && id !in cs
    ensures !reply.NotCreated? && id == reply.id && after[id].labels == Labels(input)
    ensures id !in d.removes && (id in d.stops ==> !after[id].running)
  {
  }

  /** The containers with the job's service label, the new one aside: when an attempt came up and retired them all,
      none is left; one that is left is as it was or was stopped. Containers without that label stay as they were. */
  lemma OldAsLabelled(h: Host, h': Host, cfg: Settings, job: Job, a: Answers, o: DeployOutcome, id: string)
    requires ReplyOk(h.containers, a.reply) && Deployed(h, h', cfg, job, a, o) && o.Running? && id in h.containers
    ensures var c := h.containers[id];
            if SERVICE !in c.labels || c.labels[SERVICE] != job.input.appLabel then
              id in h'.containers && h'.containers[id] == c
            else
              && (o.retired ==> id !in h'.containers)
              && (id in h'.containers ==> h'.containers[id] == c || h'.containers[id] == c.(running := false))
  {
    RunningRetires(h, h', cfg, job, a, o);
  }

  // ---- What an attempt reports last ----

  /** An attempt that came up reports running last, with its container, and with its port exactly when it
      is public: the report that supersedes an older row is the one of a public service. */
  lemma RunningReport(h: Host, h': Host, cfg: Settings, job: Job, a: Answers, o: DeployOutcome)
    requires ReplyOk(h.containers, a.reply) && Deployed(h, h', cfg, job, a, o) && o.Running?
    ensures a.reply.Up? && EndsRunning(Said(job, a, o), if job.input.public then a.reply.port else 0, a.reply.id)
    ensures 0 < (if job.input.public then a.reply.port else 0) <==> job.input.public
  {
    RunningRetires(h, h', cfg, job, a, o);
    RunReportsEnd(Effective(job, a), a.reply);
    PrepQuiet(PrepReports(job, a), RunReports(Effective(job, a), a.reply, None), ReplyPort(job.input, a.reply),
      a.reply.id);
  }

  /** The last report is running with this port and container, and none before is. */
  predicate EndsRunning(said: seq<Report>, port: nat, id: string) {
    && said != [] && said[|said| - 1] == Report(RunningNow, port, id)
    && forall i | 0 <= i < |said| - 1 :: said[i].status != RunningNow
  }

  lemma RunReportsEnd(input: RunInput, reply: RunReply)
    requires reply.Up?
    ensures EndsRunning(RunReports(input, reply, None), ReplyPort(input, reply), reply.id)
  {
  }

  lemma PrepQuiet(prep: seq<Report>, run: seq<Report>, port: nat, id: string)
    requires EndsRunning(run, port, id) && forall i | 0 <= i < |prep| :: prep[i].status != RunningNow
    ensures EndsRunning(prep + run, port, id)
  {
  }

  // ---- Everything an attempt reports ----

  /** What a git or an image job reports while its image is put on the server. */
  function Fetching(git: bool): seq<Report> {
    if git then [Report(Cloning, 0, ""), Report(Building, 0, "")] else [Report(Pulling, 0, "")]
  }

  /** An attempt that came up reports each phase once, in order: a private service is neither checked nor routed. */
  lemma PhasesInOrder(h: Host, h': Host, cfg: Settings, job: Job, a: Answers, o: DeployOutcome)
    requires ReplyOk(h.containers, a.reply) && Deployed(h, h', cfg, job, a, o) && o.Running?
    ensures a.reply.Up?
    ensures var port, id := a.reply.port, a.reply.id;
            Said(job, a, o) ==
              Fetching(job.git) + [Report(StartingUp, 0, "")]
              + if job.input.public then
                  [Report(Healthcheck, port, id), Report(RoutingTraffic, port, id), Report(RunningNow, port, id)]
                else [Report(RunningNow, 0, id)]
  {
    RunningRetires(h, h', cfg, job, a, o);
    PrepPhases(job, a);
    RunPhases(Effective(job, a), a.reply);
    assert FailedStep(o) == None && Effective(job, a).public == job.input.public;
    Assoc(Fetching(job.git), [Report(StartingUp, 0, "")], LastPhases(job.input.public, a.reply.port, a.reply.id));
  }

  function LastPhases(public: bool, port: nat, id: string): seq<Report> {
    if public then [Report(Healthcheck, port, id), Report(RoutingTraffic, port, id), Report(RunningNow, port, id)]
    else [Report(RunningNow, 0, id)]
  }

  lemma PrepPhases(job: Job, a: Answers)
    requires Fetched(job, a)
    ensures PrepReports(job, a) == Fetching(job.git)
  {
  }

  lemma RunPhases(input: RunInput, reply: RunReply)
    requires reply.Up?
    ensures RunReports(input, reply, None) == [Report(StartingUp, 0, "")]
              + LastPhases(input.public, reply.port, reply.id)
  {
  }

  lemma FailedAtStart(h: Host, h': Host, cfg: Settings, job: Job, a: Answers, o: DeployOutcome)
    requires Deployed(h, h', cfg, job, a, o) && o.Failed?
    ensures o.at == Preparing <==> !Fetched(job, a)
    ensures o.at == Starting <==> Fetched(job, a) && !a.reply.Up?
    ensures o.at in {Checking, Naming, Inspecting, Routing} ==> Fetched(job, a) && a.reply.Up? && job.input.public
  {
  }

  /** The reports from the start of the container to the failure. */
  function RunUpTo(reply: RunReply, at: Step): seq<Report> {
    var port := if reply.Up? then reply.port else 0;
    var id := if reply.NotCreated? then "" else reply.id;
    [Report(StartingUp, 0, "")]
    + (if at == Starting then [] else [Report(Healthcheck, port, id)])
    + (if at in {Inspecting, Routing} then [Report(RoutingTraffic, port, id)] else [])
    + [Report(FailedNow, port, id)]
  }

  lemma RunPhasesUpTo(input: RunInput, reply: RunReply, at: Step)
    requires at != Preparing && (at == Starting <==> !reply.Up?) && (reply.Up? ==> input.public)
    ensures RunReports(input, reply, Some(at)) == RunUpTo(reply, at)
  {
  }

  /** A failed attempt reports the phases it entered, and then that it failed. */
  lemma PhasesUpToFailure(h: Host, h': Host, cfg: Settings, job: Job, a: Answers, o: DeployOutcome)
    requires ReplyOk(h.containers, a.reply) && Deployed(h, h', cfg, job, a, o) && o.Failed?
    ensures Said(job, a, o) ==
            if o.at != Preparing then Fetching(job.git) + RunUpTo(a.reply, o.at)
            else if job.git && !a.workspace then [Report(FailedNow, 0, "")]
            else if job.git && !a.cloned then [Report(Cloning, 0, ""), Report(FailedNow, 0, "")]
            else Fetching(job.git) + [Report(FailedNow, 0, "")]
  {
    FailedAtStart(h, h', cfg, job, a, o);
    if o.at != Preparing {
      PrepPhases(job, a);
      RunPhasesUpTo(Effective(job, a), a.reply, o.at);
    }
  }

  // ---- When an attempt comes up ----

  /** What apply needs of its surroundings to load a text that rendered. */
  predicate Accepts(s: CaddyManager.State, a: CaddyManager.Attempt) {
    && (s.file.Some? ==> a.readable && CaddyManager.Managed(s.file.value))
    && a.prepared && a.valid && a.renamed && (a.reloaded || a.started)
  }

  lemma SameSites(mid: Containers, a: seq<Route>, b: seq<Route>, current: Route, cfg: Settings)
    requires Listing(mid, a) && Listing(mid, b)
    ensures Render(RoutesFor(a, current), cfg).Ok? <==> Render(RoutesFor(b, current), cfg).Ok?
    ensures Render(RoutesFor(a, current), cfg).Ok? ==>
              Render(RoutesFor(a, current), cfg) == Render(RoutesFor(b, current), cfg)
  {
    RoutesForExact(a, current);
    RoutesForExact(b, current);
    ListingDistinct(mid, a);
    NormalizeOrderFree(RoutesFor(a, current), RoutesFor(b, current));
  }

  lemma StepAccepts(s: CaddyManager.State, rendered: Result<string, RenderError>, a: CaddyManager.Attempt)
    ensures CaddyManager.Step(s, rendered, a).1.Applied? <==> rendered.Ok? && Accepts(s, a)
  {
  }

  lemma RoutedRuns(h: Host, h': Host, cfg: Settings, input: RunInput, a: Answers, o: DeployOutcome,
          given: seq<Route>, listing: seq<Route>)
    requires RoutedAs(h, h', cfg, input, a, o, given)
    requires Listing(Created(h.containers, input, a.reply), given)
    requires Listing(Created(h.containers, input, a.reply), listing)
    ensures o.Running? <==>
              && Render(RoutesFor(listing, CurrentRoute(input, a.reply.id, a.reply.port)), cfg).Ok?
              && Accepts(h.caddy, a.apply)
  {
    var current := CurrentRoute(input, a.reply.id, a.reply.port);
    SameSites(Created(h.containers, input, a.reply), given, listing, current, cfg);
    StepAccepts(h.caddy, Render(RoutesFor(given, current), cfg), a.apply);
  }

  lemma LaunchRuns(h: Host, h': Host, cfg: Settings, input: RunInput, a: Answers, o: DeployOutcome, listing: seq<Route>)
    requires Launched(h, h', cfg, input, a, o) && Listing(Created(h.containers, input, a.reply), listing)
    ensures o.Running? <==>
              && Blocked(cfg, input, a).None?
              && (input.public ==>
                    && Render(RoutesFor(listing, CurrentRoute(input, a.reply.id, a.reply.port)), cfg).Ok?
                    && Accepts(h.caddy, a.apply))
  {
    if Blocked(cfg, input, a).None? && input.public {
      var given :| Listing(Created(h.containers, input, a.reply), given) && RoutedAs(h, h', cfg, input, a, o, given);
      RoutedRuns(h, h', cfg, input, a, o, given, listing);
    }
  }

  /** An attempt comes up exactly when the image was fetched, no step before routing fails, and, if it
      is public, the routes render and Caddy accepts them: whichever listing the daemon gave. */
  lemma RunsExactly(h: Host, h': Host, cfg: Settings, job: Job, a: Answers, o: DeployOutcome, listing: seq<Route>)
    requires Deployed(h, h', cfg, job, a, o)
    requires Listing(Created(h.containers, Effective(job, a), a.reply), listing)
    ensures o.Running? <==>
            && Fetched(job, a)
            && var input := Effective(job, a);
               && Blocked(cfg, input, a).None?
               && (input.public ==>
                     && Render(RoutesFor(listing, CurrentRoute(input, a.reply.id, a.reply.port)), cfg).Ok?
                     && Accepts(h.caddy, a.apply))
  {
    if Fetched(job, a) { LaunchRuns(h, h', cfg, Effective(job, a), a, o, listing); }
  }

  // ---- Old containers go last ----

  /** In every state an attempt passes through in which an old container is gone or stopped, the new
      container is there and Caddy is as the attempt leaves it, routed to the new container if public. */
  lemma OldGoLast(h: Host, h': Host, cfg: Settings, job: Job, a: Answers, o: DeployOutcome, early: seq<Host>,
          late: seq<Host>, x: Host, previous: string)
    requires ReplyOk(h.containers, a.reply) && Deployed(h, h', cfg, job, a, o)
    requires Passage(h, h', Effective(job, a), a.reply, o, early, late) && x in early + late
    requires previous in h.containers && (previous !in x.containers || x.containers[previous] != h.containers[previous])
    ensures o.Running? && x.caddy == h'.caddy && HasLabel(h.containers[previous], job.input.appLabel)
    ensures a.reply.id in x.containers && x.containers[a.reply.id] == Started(Effective(job, a), a.reply.port)
    ensures job.input.public ==>
              Routed(Created(h.containers, Effective(job, a), a.reply), x.caddy, cfg,
                CurrentRoute(Effective(job, a), a.reply.id, a.reply.port))
  {
    var input := Effective(job, a);
    assert x !in early;
    var mid := h'.(containers := Created(h.containers, input, a.reply));
    ShrinkingEach(mid, late, input.appLabel, a.reply.id);
    assert Shrinking(mid, x, input.appLabel, a.reply.id);
    RunningRetires(h, h', cfg, job, a, o);
    if job.input.public { RunningIsRouted(h, h', cfg, job, a, o); }
  }

  // ---- Routes stay live ----

  /** The routes applied by a deploy are all backed once the container is up. */
  lemma AppliedBacked(h: Host, input: RunInput, reply: RunReply, listing: seq<Route>)
    requires Tidy(h.containers) && AuthReadable(CurrentRoute(input, "", 1))
    requires reply.Up? && reply.id !in h.containers && input.public && 0 < reply.port
    requires Listing(Created(h.containers, input, reply), listing)
    ensures var mid := Created(h.containers, input, reply);
            forall r | r in RoutesFor(listing, CurrentRoute(input, reply.id, reply.port)) ::
              && AuthReadable(r) && Backed(mid, r)
              && (r.container == reply.id || r.service != input.appLabel)
  {
    var mid, current := Created(h.containers, input, reply), CurrentRoute(input, reply.id, reply.port);
    RoutesForExact(listing, current);
    forall r | r in RoutesFor(listing, current)
      ensures AuthReadable(r) && Backed(mid, r) && (r.container == reply.id || r.service != input.appLabel)
    {
      if r == current {
        assert HasLabel(mid[reply.id], input.appLabel);
        assert Binding(input.containerPort, reply.port, true) in mid[reply.id].ports;
      } else {
        ListedBacked(mid, r);
        assert r.container in h.containers && h.containers[r.container] == mid[r.container];
      }
    }
  }

  /** Removing the label's other containers leaves every applied route backed. */
  lemma BackedKept(mid: Containers, after: Containers, appLabel: string, id: string, r: Route)
    requires Shrunk(mid, after, appLabel, id)
    requires Backed(mid, r) && (r.container == id || !HasLabel(mid[r.container], appLabel))
    ensures Backed(after, r)
  {
  }

  lemma OtherLabel(cs: Containers, r: Route, appLabel: string)
    requires Listed(cs, r) && r.service != appLabel
    ensures !HasLabel(cs[r.container], appLabel)
  {
  }

  /** After routing, the server stays live while the label's old containers go. */
  lemma RetiringLive(h: Host, x: Host, cfg: Settings, input: RunInput, reply: RunReply, listing: seq<Route>)
    requires Sound(h, cfg, input) && reply.Up? && reply.id !in h.containers && input.public && 0 < reply.port
    requires var mid, current := Created(h.containers, input, reply), CurrentRoute(input, reply.id, reply.port);
             Listing(mid, listing) && RoutedBy(listing, x.caddy, cfg, current)
               && Shrunk(mid, x.containers, input.appLabel, reply.id)
    ensures Live(x, cfg, RoutesFor(listing, CurrentRoute(input, reply.id, reply.port)))
  {
    var mid, current := Created(h.containers, input, reply), CurrentRoute(input, reply.id, reply.port);
    AppliedBacked(h, input, reply, listing);
    RoutesForExact(listing, current);
    forall r | r in RoutesFor(listing, current) ensures Backed(x.containers, r) {
      if r != current { OtherLabel(mid, r, input.appLabel); }
      BackedKept(mid, x.containers, input.appLabel, reply.id, r);
    }
    RenderedLive(RoutesFor(listing, current), cfg, x);
  }

  /** In a public deploy, every site Caddy has loaded has its own service's container running behind it in
      every state passed through, whatever fails: as before until Caddy is told, then as told. */
  lemma DeployStaysLive(h: Host, h': Host, cfg: Settings, job: Job, a: Answers, o: DeployOutcome, early: seq<Host>,
          late: seq<Host>, before: seq<Route>) returns (after: seq<Route>)
    requires job.input.public && Sound(h, cfg, job.input) && Live(h, cfg, before)
    requires ReplyOk(h.containers, a.reply) && Deployed(h, h', cfg, job, a, o)
    requires Passage(h, h', Effective(job, a), a.reply, o, early, late)
    ensures forall x | x in early :: Live(x, cfg, before)
    ensures forall x | x in late :: Live(x, cfg, after)
    ensures Live(h', cfg, after) && (o.Failed? ==> after == before)
    ensures o.Running? ==> a.reply.Up? && CurrentRoute(Effective(job, a), a.reply.id, a.reply.port) in after
  {
    var input := Effective(job, a);
    forall x | x in early ensures Live(x, cfg, before) { LiveKept(h, x, cfg, before); }
    if o.Failed? {
      FailureKeeps(h, h', cfg, job, a, o);
      LiveKept(h, h', cfg, before);
      after := before;
    } else {
      RunningIsRouted(h, h', cfg, job, a, o);
      RunningRetires(h, h', cfg, job, a, o);
      var current := CurrentRoute(input, a.reply.id, a.reply.port);
      var listing :| Listing(Created(h.containers, input, a.reply), listing)
        && RoutedBy(listing, h'.caddy, cfg, current);
      after := RoutesFor(listing, current);
      RoutesForExact(listing, current);
      var mid := h'.(containers := Created(h.containers, input, a.reply));
      ShrinkingEach(mid, late, input.appLabel, a.reply.id);
      forall x | x in late ensures Live(x, cfg, after) {
        assert Shrinking(mid, x, input.appLabel, a.reply.id);
        RetiringLive(h, x, cfg, input, a.reply, listing);
      }
      RetiringLive(h, h', cfg, input, a.reply, listing);
    }
  }

  // ---- Private deploys ----

  /** The route's own container backed it and came through unchanged. */
  predicate Survived(before: Containers, after: Containers, r: Route) {
    Backed(before, r) && r.container in after && after[r.container] == before[r.container]
  }

  lemma BackedAfter(h: Host, h': Host, input: RunInput, reply: RunReply, r: Route)
    requires !input.public && reply.Up? && reply.id !in h.containers
    requires Shrunk(Created(h.containers, input, reply), h'.containers, input.appLabel, reply.id)
    ensures Backed(h'.containers, r) <==> Survived(h.containers, h'.containers, r)
  {
  }

  /** A private deploy tells Caddy nothing. When it came up, the server is live exactly when every loaded site
      has a route whose container came through, which a container of the label does only if it could not
      be removed: a service that was public keeps a dead route. */
  lemma PrivateDeployLiveExactly(h: Host, h': Host, cfg: Settings, job: Job, a: Answers, o: DeployOutcome,
          routes: seq<Route>)
    requires !job.input.public && ReplyOk(h.containers, a.reply) && Deployed(h, h', cfg, job, a, o) && o.Running?
    requires Runs(h, cfg, routes)
    ensures Live(h', cfg, routes) <==>
            forall s | s in LoadedSites(h) ::
              exists r, x | r in routes :: SiteOf(r, x, cfg, s) && Survived(h.containers, h'.containers, r)
    ensures o.retired ==>
              forall id | id in h.containers && HasLabel(h.containers[id], job.input.appLabel) :: id !in h'.containers
  {
    var input := Effective(job, a);
    RunningRetires(h, h', cfg, job, a, o);
    assert LoadedSites(h') == LoadedSites(h);
    forall s | s in LoadedSites(h)
      ensures Hosted(h'.containers, cfg, routes, s) <==>
              exists r, x | r in routes :: SiteOf(r, x, cfg, s) && Survived(h.containers, h'.containers, r)
    {
      HostedSurvived(h, h', cfg, input, a.reply, routes, s);
    }
    if o.retired { ShrunkAll(Created(h.containers, input, a.reply), h'.containers, input.appLabel, a.reply.id); }
  }

  lemma HostedSurvived(h: Host, h': Host, cfg: Settings, input: RunInput, reply: RunReply, routes: seq<Route>, s: Site)
    requires !input.public && reply.Up? && reply.id !in h.containers
    requires Shrunk(Created(h.containers, input, reply), h'.containers, input.appLabel, reply.id)
    ensures Hosted(h'.containers, cfg, routes, s) <==>
            exists r, x | r in routes :: SiteOf(r, x, cfg, s) && Survived(h.containers, h'.containers, r)
  {
    if r, x :| r in routes && SiteOf(r, x, cfg, s) && Backed(h'.containers, r) { BackedAfter(h, h', input, reply, r); }
    if r, x :| r in routes && SiteOf(r, x, cfg, s) && Survived(h.containers, h'.containers, r) {
      BackedAfter(h, h', input, reply, r);
    }
  }
}
