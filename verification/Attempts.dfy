/** What one attempt of the agent does to the server: deploying a container, tearing a preview down,
    and syncing custom hosts. How Docker, git, the app and the file system answered is part of the
    input, so only the order in which the daemon lists things is left open. */
module Attempts {
  import opened Text
  import opened Routes
  import opened Caddyfile
  import opened Docker
  import CaddyManager
  import opened RouteSync
  import opened Serving

  /** The daemon, when containers are to go: whether it lists them, and which it stops and removes. */
  datatype Daemon = Daemon(lists: bool, stops: set<string>, removes: set<string>)

  // ---- Deploying ----

  datatype Job = Job(input: RunInput, git: bool)

  /** How starting the container ended. A container may have been created and still not run; one whose port
      could not be read may run and publish it all the same. */
  datatype RunReply =
    | NotCreated(joined: bool) | NotStarted(id: string) | NoPort(id: string, running: bool, port: nat)
    | Up(id: string, port: nat)

  datatype Answers = Answers(
    workspace: bool, cloned: bool, built: bool, detected: Option<nat>, pulled: bool,
    reply: RunReply, healthy: bool, listed: bool, apply: CaddyManager.Attempt, daemon: Daemon)

  predicate ReplyOk(cs: Containers, reply: RunReply) {
    && (!reply.NotCreated? ==> reply.id !in cs && reply.id != "")
    && (reply.Up? ==> 0 < reply.port <= 65535)
    && (reply.NoPort? ==> reply.port <= 65535)
  }

  datatype Step = Preparing | Starting | Checking | Naming | Inspecting | Routing

  datatype DeployOutcome = Failed(at: Step, why: Option<CaddyManager.Failure>) | Running(retired: bool)

  /** The image is on the server and the port to publish is known. */
  predicate Fetched(job: Job, a: Answers) {
    if job.git then a.workspace && a.cloned && a.built && (job.input.containerPort != 0 || a.detected.Some?)
    else a.pulled
  }

  /** What the container is started with: a port the job leaves open is the image's own. */
  function Effective(job: Job, a: Answers): RunInput {
    if job.git && job.input.containerPort == 0 && a.detected.Some? then job.input.(containerPort := a.detected.value)
    else job.input
  }

  /** The container of a run that got as far as creating one. */
  function CreatedBy(input: RunInput, reply: RunReply): Container
    requires !reply.NotCreated?
  {
    match reply
    case NotStarted(_) => Container(Labels(input), false, [])
    case NoPort(_, running, port) =>
      Container(Labels(input), running, if input.public && port != 0 then Started(input, port).ports else [])
    case Up(_, port) => Started(input, port)
  }

  /** The port a new container publishes if it is public, 0 if none. */
  function HostPort(reply: RunReply): nat { if reply.Up? || reply.NoPort? then reply.port else 0 }

  function Created(cs: Containers, input: RunInput, reply: RunReply): Containers {
    if reply.NotCreated? then cs else cs[reply.id := CreatedBy(input, reply)]
  }

  function Stopped(cs: Containers, id: string): Containers
    requires id in cs
  {
    cs[id := cs[id].(running := false)]
  }

  /** Stop, then remove by force: each as far as the daemon does it. */
  function Dropped(cs: Containers, id: string, d: Daemon): Containers
    requires id in cs
  {
    if id in d.removes then cs - {id} else if id in d.stops then Stopped(cs, id) else cs
  }

  /** The containers after a failed attempt. */
  function CleanedUp(cs: Containers, input: RunInput, reply: RunReply, d: Daemon): Containers {
    if reply.NotCreated? then cs else Dropped(Created(cs, input, reply), reply.id, d)
  }

  function Networked(networks: set<string>, input: RunInput, reply: RunReply): set<string> {
    if input.network != "" && (reply.NotCreated? ==> reply.joined) then networks + {input.network} else networks
  }

  /** The first step before Caddy is told that fails, if any. */
  function Blocked(cfg: Settings, input: RunInput, a: Answers): Option<Step> {
    if !a.reply.Up? then Some(Starting)
    else if !input.public then None
    else if !a.healthy then Some(Checking)
    else if RouteHost(HostLabel(CurrentRoute(input, a.reply.id, a.reply.port)), cfg.baseDomain).None? then Some(Naming)
    else if !a.listed then Some(Inspecting)
    else None
  }

  /** The daemon removes every container of the label but the one to keep. */
  predicate Retires(cs: Containers, appLabel: string, keep: string, d: Daemon) {
    d.lists && forall id | id in cs && !Spared(cs[id], id, appLabel, keep) :: id in d.removes
  }

  /** The label's containers have been asked to go, one by one until one would not. */
  predicate Retired(mid: Containers, after: Containers, appLabel: string, keep: string, d: Daemon, ok: bool) {
    && Shrunk(mid, after, appLabel, keep)
    && ok == Retires(mid, appLabel, keep, d)
    && (ok ==> NoneLeft(after, appLabel, keep))
    && (!d.lists ==> after == mid)
  }

  /** What one deploy attempt does to the server. */
  ghost predicate Deployed(h: Host, h': Host, cfg: Settings, job: Job, a: Answers, o: DeployOutcome) {
    if !Fetched(job, a) then h' == h && o == Failed(Preparing, None)
    else Launched(h, h', cfg, Effective(job, a), a, o)
  }

  /** The same, once the image is there. */
  ghost predicate Launched(h: Host, h': Host, cfg: Settings, input: RunInput, a: Answers, o: DeployOutcome) {
    && h'.networks == Networked(h.networks, input, a.reply)
    && match Blocked(cfg, input, a)
       case Some(step) =>
         && o == Failed(step, None)
         && h'.caddy == h.caddy
         && h'.containers == CleanedUp(h.containers, input, a.reply, a.daemon)
       case None =>
         if !input.public then
           && h'.caddy == h.caddy
           && o.Running?
           && Retired(Created(h.containers, input, a.reply), h'.containers, input.appLabel, a.reply.id, a.daemon,
             o.retired)
         else
           exists listing ::
             Listing(Created(h.containers, input, a.reply), listing) && RoutedAs(h, h', cfg, input, a, o, listing)
  }

  /** The end of a public attempt whose listing was this one: Caddy is given the listing with the new
      route in it, and its answer decides which containers go. */
  ghost predicate RoutedAs(h: Host, h': Host, cfg: Settings, input: RunInput, a: Answers, o: DeployOutcome,
          listing: seq<Route>) {
    a.reply.Up?
    && var routes := RoutesFor(listing, CurrentRoute(input, a.reply.id, a.reply.port));
       var (caddy, applied) := CaddyManager.Step(h.caddy, Render(routes, cfg), a.apply);
       && h'.caddy == caddy
       && match applied
          case Failed(why) =>
            && o == Failed(Routing, Some(why))
            && h'.containers == CleanedUp(h.containers, input, a.reply, a.daemon)
          case Applied =>
            && o.Running?
            && Retired(Created(h.containers, input, a.reply), h'.containers, input.appLabel, a.reply.id, a.daemon,
              o.retired)
  }

  // ---- What a deploy reports ----

  datatype Status = Cloning | Building | Pulling | StartingUp | Healthcheck | RoutingTraffic | RunningNow | FailedNow

  datatype Report = Report(status: Status, port: nat, container: string)

  /** The reports while the image is being put on the server. */
  function PrepReports(job: Job, a: Answers): seq<Report> {
    if !job.git then [Report(Pulling, 0, "")]
    else if !a.workspace then []
    else if !a.cloned then [Report(Cloning, 0, "")]
    else [Report(Cloning, 0, ""), Report(Building, 0, "")]
  }

  function ReplyID(reply: RunReply): string { if reply.NotCreated? then "" else reply.id }

  function ReplyPort(input: RunInput, reply: RunReply): nat { if reply.Up? && input.public then reply.port else 0 }

  /** The reports of the health check and the routing, which stop at the step that failed. */
  function ExposeReports(failed: Option<Step>, port: nat, id: string): seq<Report> {
    if failed == Some(Starting) then []
    else if failed == Some(Checking) || failed == Some(Naming) then [Report(Healthcheck, port, id)]
    else [Report(Healthcheck, port, id), Report(RoutingTraffic, port, id)]
  }

  function Exposed(input: RunInput, reply: RunReply, failed: Option<Step>): seq<Report> {
    if failed.None? && !input.public then [] else ExposeReports(failed, ReplyPort(input, reply), ReplyID(reply))
  }

  function FailedStep(o: DeployOutcome): Option<Step> { if o.Failed? then Some(o.at) else None }

  function LastReport(input: RunInput, reply: RunReply, failed: Option<Step>): Report {
    Report(if failed.Some? then FailedNow else RunningNow, ReplyPort(input, reply), ReplyID(reply))
  }

  /** The reports of an attempt that got its image, in order. */
  function RunReports(input: RunInput, reply: RunReply, failed: Option<Step>): seq<Report> {
    [Report(StartingUp, 0, "")] + Exposed(input, reply, failed) + [LastReport(input, reply, failed)]
  }

  /** Everything one attempt reports. */
  function Said(job: Job, a: Answers, o: DeployOutcome): seq<Report> {
    PrepReports(job, a)
    + if Fetched(job, a) then RunReports(Effective(job, a), a.reply, FailedStep(o)) else [Report(FailedNow, 0, "")]
  }

  // ---- Syncing custom hosts ----

  datatype SyncAnswers = SyncAnswers(listed: bool, reached: bool, apply: CaddyManager.Attempt)

  /** What a sync told the control plane of each override it placed. */
  datatype SyncOutcome = NotSynced | Synced(failure: Option<CaddyManager.Failure>, results: seq<(Override, bool)>)

  function Outcome(failure: Option<CaddyManager.Failure>): CaddyManager.Outcome {
    if failure.None? then CaddyManager.Applied else CaddyManager.Failed(failure.value)
  }

  /** What one sync does: nothing, or give Caddy the listing with the control plane's answer worked
      in. Every override placed is reported, as a success exactly when Caddy loaded it. */
  ghost predicate SyncedBy(h: Host, h': Host, cfg: Settings, dir: Directory, server: string, a: SyncAnswers,
          o: SyncOutcome) {
    if !a.listed || !a.reached || Listing(h.containers, []) then h' == h && o == NotSynced
    else
      && o.Synced? && h' == h.(caddy := h'.caddy)
      && exists listing, overrides :: SyncOf(h, h'.caddy, cfg, dir, server, a, listing, overrides, o.failure, o.results)
  }

  ghost predicate SyncOf(h: Host, caddy: CaddyManager.State, cfg: Settings, dir: Directory, server: string,
          a: SyncAnswers,
                         listing: seq<Route>, overrides: seq<Override>,
                         failure: Option<CaddyManager.Failure>, results: seq<(Override, bool)>)
  {
    && Listing(h.containers, listing) && IsAnswer(dir, server, listing, overrides)
    && CaddyManager.Step(h.caddy, Render(Desired(listing, overrides), cfg), a.apply) == (caddy, Outcome(failure))
    && forall x :: x in results <==> Placed(listing, overrides, x.0) && x.1 == failure.None?
  }

  // ---- Tearing a preview down ----

  datatype TeardownAnswers = TeardownAnswers(daemon: Daemon, listed: bool, apply: CaddyManager.Attempt, unlinked: bool)

  datatype TeardownOutcome = NotRemoved | NotListed | NotRouted(why: CaddyManager.Failure) | Gone(removed: int)

  /** What one teardown does: containers of the key go, then Caddy is loaded from what is left, then
      the network goes if the daemon lets it. */
  ghost predicate TornDown(h: Host, h': Host, cfg: Settings, key: string, network: string, a: TeardownAnswers,
          o: TeardownOutcome) {
    var gone := Retires(h.containers, key, "", a.daemon);
    && Retired(h.containers, h'.containers, key, "", a.daemon, gone)
    && if !gone then h' == h.(containers := h'.containers) && o == NotRemoved
       else if !a.listed then h' == h.(containers := h'.containers) && o == NotListed
       else exists listing :: Listing(h'.containers, listing) && Rerouted(h, h', cfg, network, a, o, listing)
  }

  ghost predicate Rerouted(h: Host, h': Host, cfg: Settings, network: string, a: TeardownAnswers, o: TeardownOutcome,
          listing: seq<Route>) {
    var (caddy, applied) := CaddyManager.Step(h.caddy, Render(listing, cfg), a.apply);
    && h'.caddy == caddy
    && match applied
       case Failed(why) => o == NotRouted(why) && h'.networks == h.networks
       case Applied =>
         && o == Gone(|h.containers| - |h'.containers|)
         && h'.networks == if network != "" && a.unlinked then h.networks - {network} else h.networks
  }
}
