/** The agent on one server. Its attempts are not interleaved with one another; every state an attempt
    passes through is recorded, so that what holds on the way can be stated. */
module Agent {
  import opened Text
  import opened Routes
  import opened Caddyfile
  import opened Docker
  import CaddyManager
  import opened RouteSync
  import opened Serving
  import opened Attempts

  // ---- States passed through ----

  /** Before any old container goes: what Caddy has loaded and the old containers are unchanged. */
  predicate Early(start: Host, h: Host) {
    && h.caddy.loaded == start.caddy.loaded
    && forall id | id in start.containers :: id in h.containers && h.containers[id] == start.containers[id]
  }

  /** While a label's containers are being removed. */
  predicate Shrinking(start: Host, h: Host, appLabel: string, keep: string) {
    && h.networks == start.networks && h.caddy == start.caddy
    && Shrunk(start.containers, h.containers, appLabel, keep)
  }

  predicate AllShrinking(start: Host, passed: seq<Host>, appLabel: string, keep: string) {
    passed == [] || (Shrinking(start, passed[0], appLabel, keep) && AllShrinking(start, passed[1..], appLabel, keep))
  }

  lemma {:induction false} ShrinkingEach(start: Host, passed: seq<Host>, appLabel: string, keep: string)
    ensures AllShrinking(start, passed, appLabel, keep) <==>
              forall h | h in passed :: Shrinking(start, h, appLabel, keep)
  {
    if passed != [] {
      ShrinkingEach(start, passed[1..], appLabel, keep);
      assert passed == [passed[0]] + passed[1..];
    }
  }

  lemma {:induction false} AllShrinkingConcat(start: Host, a: seq<Host>, b: seq<Host>, appLabel: string, keep: string)
    requires AllShrinking(start, a, appLabel, keep) && AllShrinking(start, b, appLabel, keep)
    ensures AllShrinking(start, a + b, appLabel, keep)
  {
    if a == [] {
      assert a + b == b;
    } else {
      AllShrinkingConcat(start, a[1..], b, appLabel, keep);
      assert (a + b)[1..] == a[1..] + b;
    }
  }

  lemma {:induction false} StillShrinking(start: Host, mid: Host, passed: seq<Host>, appLabel: string, keep: string)
    requires Shrinking(start, mid, appLabel, keep) && AllShrinking(mid, passed, appLabel, keep)
    ensures AllShrinking(start, passed, appLabel, keep)
  {
    if passed != [] {
      ShrunkTransitive(start.containers, mid.containers, passed[0].containers, appLabel, keep);
      StillShrinking(start, mid, passed[1..], appLabel, keep);
    }
  }

  lemma ShrunkByOne(before: Containers, id: string, appLabel: string, keep: string)
    requires id in before && HasLabel(before[id], appLabel) && id != keep
    ensures Shrunk(before, before - {id}, appLabel, keep)
    ensures Shrunk(before, Stopped(before, id), appLabel, keep)
    ensures |before - {id}| == |before| - 1
  {
    assert (before - {id}).Keys == before.Keys - {id};
    assert |(before - {id}).Keys| == |before.Keys| - 1;
  }

  /** Of a label's containers, the items are still to go and the others are gone, but the one kept. */
  predicate Swept(before: Containers, now: Containers, all: set<string>, items: set<string>, keep: string, d: Daemon) {
    && items <= all
    && (forall id | id in items :: id in before && id in now && now[id] == before[id])
    && (forall id | id in all - items && id != keep :: id !in now && id in d.removes)
  }

  lemma SweptNext(before: Containers, now: Containers, all: set<string>, items: set<string>, id: string, keep: string,
          d: Daemon)
    requires Swept(before, now, all, items, keep, d) && id in items
    ensures id == keep ==> Swept(before, now, all, items - {id}, keep, d)
    ensures id in d.removes ==> Swept(before, now - {id}, all, items - {id}, keep, d)
  {
  }

  lemma SweptAll(before: Containers, now: Containers, all: set<string>, appLabel: string, keep: string, d: Daemon)
    requires all == set id | id in before && HasLabel(before[id], appLabel)
    requires d.lists && Swept(before, now, all, {}, keep, d) && Shrunk(before, now, appLabel, keep)
    ensures Retired(before, now, appLabel, keep, d, true)
  {
    forall id | id in now ensures Spared(now[id], id, appLabel, keep) {
      assert now[id].labels == before[id].labels;
    }
  }

  // ---- The agent ----

  class Server {
    const router: CaddyManager.Manager
    var containers: Containers
    var networks: set<string>
    var reports: seq<Report>
    /** Every state the server has been in, oldest first. */
    ghost var trace: seq<Host>

    ghost function Now(): Host
      reads this, router
    {
      Host(containers, networks, router.Now())
    }

    constructor (router: CaddyManager.Manager, containers: Containers, networks: set<string>)
      ensures this.router == router && this.containers == containers && this.networks == networks
      ensures trace == [] && reports == []
    {
      this.router, this.containers, this.networks := router, containers, networks;
      trace, reports := [], [];
    }

    /** Record the state reached. */
    ghost method Mark()
      modifies this`trace
      ensures trace == old(trace) + [Now()]
    {
      trace := trace + [Now()];
    }

    method Say(status: Status, port: nat, container: string)
      modifies this`reports
      ensures reports == old(reports) + [Report(status, port, container)]
    {
      reports := reports + [Report(status, port, container)];
    }

    /** Stop a container, if the daemon does, and remove it, if the daemon does. */
    method StopAndRemove(id: string, d: Daemon) returns (ok: bool, ghost passed: seq<Host>)
      requires id in containers
      modifies this`containers, this`trace
      ensures ok == (id in d.removes) && containers == Dropped(old(containers), id, d)
      ensures trace == old(trace) + passed
      ensures forall h | h in passed ::
                h == old(Now()).(containers := Stopped(old(containers), id))
                  || h == old(Now()).(containers := old(containers) - {id})
    {
      passed := [];
      if id in d.stops {
        containers := Stopped(containers, id);
        Mark();
        passed := [Now()];
      }
      ok := id in d.removes;
      if ok {
        containers := containers - {id};
        assert containers == old(containers) - {id};
        Mark();
        passed := passed + [Now()];
      }
    }

    /** Remove one container of a label, in the course of removing several. */
    method RemoveOne(id: string, d: Daemon, ghost start: Host, ghost past: seq<Host>, ghost passed: seq<Host>,
            ghost appLabel: string, ghost keep: string)
      returns (ok: bool, ghost passed': seq<Host>)
      requires id in containers && HasLabel(containers[id], appLabel) && id != keep
      requires Shrinking(start, Now(), appLabel, keep) && AllShrinking(start, passed, appLabel, keep)
      requires trace == past + passed
      modifies this`containers, this`trace
      ensures ok == (id in d.removes)
      ensures ok ==> containers == old(containers) - {id} && |containers| == |old(containers)| - 1
      ensures !ok ==> |containers| == |old(containers)|
      ensures Shrunk(start.containers, containers, appLabel, keep)
      ensures trace == past + passed' && AllShrinking(start, passed', appLabel, keep)
    {
      ShrunkByOne(containers, id, appLabel, keep);
      ghost var more;
      ok, more := StopAndRemove(id, d);
      passed' := passed + more;
      Assoc(past, passed, more);
      ShrinkingEach(old(Now()), more, appLabel, keep);
      StillShrinking(start, old(Now()), more, appLabel, keep);
      AllShrinkingConcat(start, passed, more, appLabel, keep);
      ShrunkTransitive(start.containers, old(containers), containers, appLabel, keep);
      assert Stopped(old(containers), id).Keys == old(containers).Keys;
    }

    /** replacePreviousExcept, and removeByService when there is none to keep: remove the containers of a
        label one by one until one will not go. */
    method RemoveLabelled(appLabel: string, keep: string, d: Daemon)
      returns (ok: bool, removed: nat, ghost passed: seq<Host>)
      modifies this`containers, this`trace
      ensures Retired(old(containers), containers, appLabel, keep, d, ok)
      ensures removed == |old(containers)| - |containers|
      ensures trace == old(trace) + passed && AllShrinking(old(Now()), passed, appLabel, keep)
    {
      removed, passed := 0, [];
      if !d.lists { return false, 0, []; }
      ghost var start, past := Now(), trace;
      ghost var all := set id | id in containers && HasLabel(containers[id], appLabel);
      var items := set id | id in containers && HasLabel(containers[id], appLabel);
      while items != {}
        invariant Swept(start.containers, containers, all, items, keep, d)
        invariant Shrinking(start, Now(), appLabel, keep)
        invariant removed == |start.containers| - |containers|
        invariant trace == past + passed && AllShrinking(start, passed, appLabel, keep)
        decreases items
      {
        var id :| id in items;
        SweptNext(start.containers, containers, all, items, id, keep, d);
        items := items - {id};
        if id == keep { continue; }
        var gone;
        gone, passed := RemoveOne(id, d, start, past, passed, appLabel, keep);
        if !gone { return false, removed, passed; }
        removed := removed + 1;
      }
      SweptAll(start.containers, containers, all, appLabel, keep, d);
      return true, removed, passed;
    }

    // ---- Deploy ----

    /** Put the image on the server: clone and build, or pull. It reports each phase it enters. */
    method Prepare(job: Job, a: Answers) returns (ok: bool)
      modifies this`reports
      ensures ok == Fetched(job, a)
      ensures reports == old(reports) + PrepReports(job, a) + if ok then [] else [Report(FailedNow, 0, "")]
    {
      if job.git {
        ok := BuildFromSource(a);
        if ok && job.input.containerPort == 0 && a.detected.None? {
          Say(FailedNow, 0, "");
          ok := false;
        }
      } else {
        Say(Pulling, 0, "");
        ok := a.pulled;
        if !ok { Say(FailedNow, 0, ""); }
      }
    }

    method BuildFromSource(a: Answers) returns (ok: bool)
      modifies this`reports
      ensures ok == (a.workspace && a.cloned && a.built)
      ensures forall job: Job | job.git ::
                reports == old(reports) + PrepReports(job, a) + if ok then [] else [Report(FailedNow, 0, "")]
    {
      if !a.workspace {
        Say(FailedNow, 0, "");
        return false;
      }
      Say(Cloning, 0, "");
      if !a.cloned {
        Say(FailedNow, 0, "");
        return false;
      }
      Say(Building, 0, "");
      if !a.built {
        Say(FailedNow, 0, "");
        return false;
      }
      return true;
    }

    /** Make sure of the network and create, connect and start the container, as far as the daemon lets it. */
    method Run(input: RunInput, reply: RunReply) returns (ghost passed: seq<Host>)
      requires ReplyOk(containers, reply)
      modifies this`containers, this`networks, this`trace
      ensures containers == Created(old(containers), input, reply)
      ensures networks == Networked(old(networks), input, reply)
      ensures trace == old(trace) + passed
      ensures forall h | h in passed :: Early(old(Now()), h)
    {
      passed := [];
      if input.network != "" && (reply.NotCreated? ==> reply.joined) {
        networks := networks + {input.network};
        Mark();
        passed := [Now()];
      }
      if !reply.NotCreated? {
        ghost var more := Create(input, reply);
        Assoc(old(trace), passed, more);
        passed := passed + more;
      }
    }

    method Create(input: RunInput, reply: RunReply) returns (ghost passed: seq<Host>)
      requires !reply.NotCreated? && ReplyOk(containers, reply)
      modifies this`containers, this`trace
      ensures containers == Created(old(containers), input, reply)
      ensures trace == old(trace) + passed
      ensures forall h | h in passed :: Early(old(Now()), h)
    {
      containers := containers[reply.id := Container(Labels(input), false, [])];
      Mark();
      ghost var first := Now();
      containers := containers[reply.id := CreatedBy(input, reply)];
      assert containers == Created(old(containers), input, reply);
      Mark();
      passed := [first, Now()];
    }

    /** Give Caddy the routes. */
    method Load(routes: seq<Route>, attempt: CaddyManager.Attempt) returns (failure: Option<CaddyManager.Failure>)
      modifies this`trace, router
      ensures CaddyManager.Step(old(router.Now()), Render(routes, router.cfg), attempt) ==
                (router.Now(), Outcome(failure))
      ensures trace == old(trace) + [Now()]
    {
      var applied := router.Apply(routes, attempt);
      Mark();
      failure := if applied.Failed? then Some(applied.why) else None;
    }

    /** The end of a failed attempt: report it and remove the container. */
    method Abandon(ghost start: Host, input: RunInput, reply: RunReply, d: Daemon) returns (ghost passed: seq<Host>)
      requires ReplyOk(start.containers, reply) && containers == Created(start.containers, input, reply)
      requires router.Now().loaded == start.caddy.loaded
      modifies this`containers, this`trace, this`reports
      ensures containers == CleanedUp(start.containers, input, reply, d)
      ensures reports == old(reports) + [Report(FailedNow, ReplyPort(input, reply), ReplyID(reply))]
      ensures forall h | h in passed :: Early(start, h)
      ensures trace == old(trace) + passed
    {
      Say(FailedNow, ReplyPort(input, reply), ReplyID(reply));
      passed := [];
      if !reply.NotCreated? {
        var ok;
        ok, passed := StopAndRemove(reply.id, d);
      }
    }

    /** Check a public container and tell Caddy about it. */
    method Expose(input: RunInput, a: Answers)
      returns (failure: Option<(Step, Option<CaddyManager.Failure>)>, ghost passed: seq<Host>)
      requires a.reply.Up? && input.public
      modifies this`trace, this`reports, router
      ensures reports == old(reports)
                + ExposeReports(if failure.None? then None else Some(failure.value.0), a.reply.port, a.reply.id)
      ensures ToldOrNot(old(router.Now()), router.Now(), containers, router.cfg, input, a, failure)
      ensures failure.Some? ==> router.Now().loaded == old(router.Now().loaded)
      ensures trace == old(trace) + passed
      ensures forall h | h in passed :: h == Now()
    {
      passed := [];
      Say(Healthcheck, a.reply.port, a.reply.id);
      if !a.healthy {
        ToldNothing(Now(), router.cfg, input, a, Checking);
        return Some((Checking, None)), [];
      }
      var current := CurrentRoute(input, a.reply.id, a.reply.port);
      if RouteHost(HostLabel(current), router.cfg.baseDomain).None? {
        ToldNothing(Now(), router.cfg, input, a, Naming);
        return Some((Naming, None)), [];
      }
      Say(RoutingTraffic, a.reply.port, a.reply.id);
      if !a.listed {
        ToldNothing(Now(), router.cfg, input, a, Inspecting);
        return Some((Inspecting, None)), [];
      }
      failure := RouteTo(input, a);
      passed := [Now()];
      ToldAll(old(router.Now()), router.Now(), containers, router.cfg, input, a, failure);
    }

    /** List the routes, put the new one in, and give them to Caddy. */
    method RouteTo(input: RunInput, a: Answers) returns (failure: Option<(Step, Option<CaddyManager.Failure>)>)
      requires a.reply.Up?
      modifies this`trace, router
      ensures exists listing ::
                Listing(containers, listing)
                  && Told(old(router.Now()), router.Now(), router.cfg, input, a, failure, listing)
      ensures failure.Some? ==> failure.value.0 == Routing && router.Now().loaded == old(router.Now().loaded)
      ensures trace == old(trace) + [Now()]
    {
      var listing := ListManagedRoutes(containers);
      var routes := RoutesForDeployment(listing, CurrentRoute(input, a.reply.id, a.reply.port));
      var why := Load(routes, a.apply);
      failure := if why.Some? then Some((Routing, why)) else None;
      CaddyManager.StepOutcome(old(router.Now()), Render(routes, router.cfg), a.apply);
      assert Told(old(router.Now()), router.Now(), router.cfg, input, a, failure, listing);
    }

    /** After the container was asked to start: expose it, if it is up and public. */
    method Reach(input: RunInput, a: Answers)
      returns (failure: Option<(Step, Option<CaddyManager.Failure>)>, ghost passed: seq<Host>)
      modifies this`trace, this`reports, router
      ensures ToldOrNot(old(router.Now()), router.Now(), containers, router.cfg, input, a, failure)
      ensures failure.Some? ==> router.Now().loaded == old(router.Now().loaded)
      ensures reports == old(reports) + Exposed(input, a.reply, if failure.None? then None else Some(failure.value.0))
      ensures trace == old(trace) + passed
      ensures forall h | h in passed :: h == Now()
    {
      failure, passed := None, [];
      if !a.reply.Up? {
        failure := Some((Starting, None));
      } else if input.public {
        failure, passed := Expose(input, a);
      }
    }

    /** Remove the label's other containers and report the new one running. */
    method Retire(input: RunInput, a: Answers) returns (o: DeployOutcome, ghost passed: seq<Host>)
      requires a.reply.Up?
      modifies this`containers, this`trace, this`reports
      ensures o.Running? && Retired(old(containers), containers, input.appLabel, a.reply.id, a.daemon, o.retired)
      ensures reports == old(reports) + [LastReport(input, a.reply, None)]
      ensures trace == old(trace) + passed && AllShrinking(old(Now()), passed, input.appLabel, a.reply.id)
    {
      var retired, removed;
      retired, removed, passed := RemoveLabelled(input.appLabel, a.reply.id, a.daemon);
      Say(RunningNow, ReplyPort(input, a.reply), a.reply.id);
      o := Running(retired);
    }

    /** The attempt once the image is there. */
    method Launch(input: RunInput, a: Answers) returns (o: DeployOutcome, ghost early: seq<Host>, ghost late: seq<Host>)
      requires ReplyOk(containers, a.reply)
      modifies this`containers, this`networks, this`trace, this`reports, router
      ensures Launched(old(Now()), Now(), router.cfg, input, a, o) && o != Failed(Preparing, None)
      ensures reports == old(reports) + RunReports(input, a.reply, FailedStep(o))
      ensures trace == old(trace) + early + late
      ensures Passage(old(Now()), Now(), input, a.reply, o, early, late)
    {
      ghost var start := Now();
      Say(StartingUp, 0, "");
      early := Run(input, a.reply);
      var failure;
      ghost var passed;
      failure, late := Reach(input, a);
      ghost var mid := Now();
      if failure.Some? {
        o := Failed(failure.value.0, failure.value.1);
        passed := Abandon(start, input, a.reply, a.daemon);
        AssocFour(old(trace), early, late, passed);
        early, late := early + late + passed, [];
        assert trace == old(trace) + early + late;
      } else {
        o, passed := Retire(input, a);
        ShrinkingEach(mid, late, input.appLabel, a.reply.id);
        AllShrinkingConcat(mid, late, passed, input.appLabel, a.reply.id);
        Assoc(old(trace) + early, late, passed);
        late := late + passed;
      }
      AssocFour(old(reports), [Report(StartingUp, 0, "")], Exposed(input, a.reply, FailedStep(o)),
        [LastReport(input, a.reply, FailedStep(o))]);
      LaunchedAs(start, mid, Now(), router.cfg, input, a, failure, o);
    }

    /** executeDeployment up to its last report. The states passed through are the early ones, then those
        in which the label's old containers go. */
    method RollOut(job: Job, a: Answers) returns (o: DeployOutcome, ghost early: seq<Host>, ghost late: seq<Host>)
      requires ReplyOk(containers, a.reply)
      modifies this`containers, this`networks, this`trace, this`reports, router
      ensures Deployed(old(Now()), Now(), router.cfg, job, a, o)
      ensures reports == old(reports) + Said(job, a, o)
      ensures trace == old(trace) + early + late
      ensures Passage(old(Now()), Now(), Effective(job, a), a.reply, o, early, late)
    {
      var ok := Prepare(job, a);
      ghost var prep := PrepReports(job, a);
      if !ok {
        Assoc(old(reports), prep, [Report(FailedNow, 0, "")]);
        return Failed(Preparing, None), [], [];
      }
      assert reports == old(reports) + prep;
      o, early, late := Launch(Effective(job, a), a);
      Assoc(old(reports), prep, RunReports(Effective(job, a), a.reply, FailedStep(o)));
    }

    /** executeDeployment: a deployment that came up is followed by a sync. The states passed through are those of
        the roll-out, then those of the sync. */
    method ExecuteDeployment(job: Job, a: Answers, dir: Directory, server: string, sync: SyncAnswers)
      returns (o: DeployOutcome, synced: SyncOutcome, ghost deployed: Host, ghost early: seq<Host>,
               ghost late: seq<Host>, ghost closing: seq<Host>)
      requires ReplyOk(containers, a.reply)
      modifies this`containers, this`networks, this`trace, this`reports, router
      ensures Deployed(old(Now()), deployed, router.cfg, job, a, o)
      ensures reports == old(reports) + Said(job, a, o)
      ensures if o.Running? then SyncedBy(deployed, Now(), router.cfg, dir, server, sync, synced)
              else Now() == deployed && synced == NotSynced
      ensures trace == old(trace) + early + late + closing
      ensures Passage(old(Now()), deployed, Effective(job, a), a.reply, o, early, late)
      ensures forall h | h in closing :: h == Now()
    {
      o, early, late := RollOut(job, a);
      deployed, synced, closing := Now(), NotSynced, [];
      if o.Running? {
        synced, closing := SyncCustomRoutes(dir, server, sync);
      }
    }

    // ---- Sync ----

    /** syncCustomRoutes. */
    method SyncCustomRoutes(dir: Directory, server: string, a: SyncAnswers)
      returns (o: SyncOutcome, ghost passed: seq<Host>)
      modifies this`trace, router
      ensures SyncedBy(old(Now()), Now(), router.cfg, dir, server, a, o)
      ensures trace == old(trace) + passed && forall h | h in passed :: h == Now()
    {
      passed := [];
      if !a.listed { return NotSynced, []; }
      var routes := ListManagedRoutes(containers);
      if |routes| == 0 {
        assert routes == [];
        return NotSynced, [];
      }
      assert routes[0] in routes && routes[0] !in [];
      if !a.reached { return NotSynced, []; }
      var overrides := SyncRoutes(dir, server, routes);
      var desired, applied := ApplyOverrides(routes, overrides);
      var failure := Load(desired, a.apply);
      passed := [Now()];
      var results: seq<(Override, bool)> := [];
      for n := 0 to |applied|
        invariant forall x :: x in results <==> x.0 in applied[..n] && x.1 == failure.None?
      {
        assert applied[..n + 1] == applied[..n] + [applied[n]];
        results := results + [(applied[n], failure.None?)];
      }
      assert applied[..|applied|] == applied;
      o := Synced(failure, results);
      assert SyncOf(old(Now()), router.Now(), router.cfg, dir, server, a, routes, overrides, failure, results);
    }

    // ---- Teardown ----

    /** executeTeardown. The daemon gives no container the empty id. */
    method ExecuteTeardown(key: string, network: string, a: TeardownAnswers) returns (o: TeardownOutcome)
      requires "" !in containers
      modifies this`containers, this`networks, this`trace, router
      ensures TornDown(old(Now()), Now(), router.cfg, key, network, a, o)
    {
      var gone, removed;
      ghost var passed;
      gone, removed, passed := RemoveLabelled(key, "", a.daemon);
      if !gone { return NotRemoved; }
      if !a.listed { return NotListed; }
      var routes := ListManagedRoutes(containers);
      var failure := Load(routes, a.apply);
      if failure.Some? {
        o := NotRouted(failure.value);
      } else {
        if network != "" && a.unlinked {
          networks := networks - {network};
          Mark();
        }
        o := Gone(removed);
      }
      TornDownAs(old(Now()), Now(), router.cfg, key, network, a, o, routes);
    }
  }

  // ---- How an attempt's parts make the whole ----

  /** What Caddy was told, and what it answered. */
  ghost predicate Told(before: CaddyManager.State, after: CaddyManager.State, cfg: Settings, input: RunInput,
          a: Answers,
                       failure: Option<(Step, Option<CaddyManager.Failure>)>, listing: seq<Route>)
    requires a.reply.Up?
  {
    var (caddy, applied) :=
      CaddyManager.Step(before, Render(RoutesFor(listing, CurrentRoute(input, a.reply.id, a.reply.port)), cfg),
        a.apply);
    after == caddy && failure == match applied case Failed(why) => Some((Routing, Some(why))) case Applied => None
  }

  ghost predicate ToldOrNot(before: CaddyManager.State, after: CaddyManager.State, cs: Containers, cfg: Settings,
          input: RunInput, a: Answers,
                            failure: Option<(Step, Option<CaddyManager.Failure>)>)
  {
    match Blocked(cfg, input, a)
    case Some(step) => failure == Some((step, None)) && after == before
    case None =>
      if !input.public then failure == None && after == before
      else a.reply.Up? && exists listing :: Listing(cs, listing) && Told(before, after, cfg, input, a, failure, listing)
  }

  lemma ToldNothing(h: Host, cfg: Settings, input: RunInput, a: Answers, step: Step)
    requires Blocked(cfg, input, a) == Some(step)
    ensures ToldOrNot(h.caddy, h.caddy, h.containers, cfg, input, a, Some((step, None)))
  {
  }

  lemma ToldAll(before: CaddyManager.State, after: CaddyManager.State, cs: Containers, cfg: Settings,
          input: RunInput, a: Answers, failure: Option<(Step, Option<CaddyManager.Failure>)>)
    requires Blocked(cfg, input, a) == None && input.public && a.reply.Up?
    requires exists listing :: Listing(cs, listing) && Told(before, after, cfg, input, a, failure, listing)
    ensures ToldOrNot(before, after, cs, cfg, input, a, failure)
  {
  }

  lemma TornDownAs(start: Host, end: Host, cfg: Settings, key: string, network: string, a: TeardownAnswers,
          o: TeardownOutcome, routes: seq<Route>)
    requires Retired(start.containers, end.containers, key, "", a.daemon, true) && a.listed
    requires Listing(end.containers, routes) && Rerouted(start, end, cfg, network, a, o, routes)
    ensures TornDown(start, end, cfg, key, network, a, o)
  {
  }

  lemma LaunchedAs(start: Host, mid: Host, end: Host, cfg: Settings, input: RunInput, a: Answers,
                   failure: Option<(Step, Option<CaddyManager.Failure>)>, o: DeployOutcome)
    requires mid.containers == Created(start.containers, input, a.reply)
              && mid.networks == Networked(start.networks, input, a.reply)
    requires ToldOrNot(start.caddy, mid.caddy, mid.containers, cfg, input, a, failure)
    requires end == mid.(containers := end.containers)
    requires if failure.Some? then
               && o == Failed(failure.value.0, failure.value.1)
               && end.containers == CleanedUp(start.containers, input, a.reply, a.daemon)
             else
               && o.Running? && a.reply.Up?
               && Retired(mid.containers, end.containers, input.appLabel, a.reply.id, a.daemon, o.retired)
    ensures Launched(start, end, cfg, input, a, o)
  {
    if Blocked(cfg, input, a).None? && input.public {
      var listing :| Listing(mid.containers, listing) && Told(start.caddy, mid.caddy, cfg, input, a, failure, listing);
      assert RoutedAs(start, end, cfg, input, a, o, listing);
    }
  }

  /** The states an attempt passes through: early ones, then, if it came up, states in which the new
      container is there, Caddy is as at the end, and the label's others go. */
  ghost predicate Passage(start: Host, end: Host, input: RunInput, reply: RunReply, o: DeployOutcome,
          early: seq<Host>, late: seq<Host>) {
    && (forall h | h in early :: Early(start, h))
    && (o.Failed? ==> late == [])
    && (o.Running? ==>
      reply.Up? && AllShrinking(end.(containers := Created(start.containers, input, reply)), late, input.appLabel,
        reply.id))
  }
}
