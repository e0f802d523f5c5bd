/** Everything that happens on one server, in any order: deploys and teardowns of any label, and syncs. Where a
    generated address leads meanwhile, and that no site leads nowhere. */
module WholeRuns {
  import opened Text
  import opened Routes
  import opened Caddyfile
  import opened Docker
  import CaddyManager
  import PreviewNames
  import opened RouteSync
  import opened Serving
  import opened Attempts
  import Deploying
  import Syncing
  import TearingDown
  import opened Forwarding
  import opened Isolation

  // ---- Syncs ----

  /** The verified domains are in the form the control plane stores. */
  predicate Stored(dir: Directory) { forall s | s in dir.verified :: Domains(dir.verified[s]) }

  /** No verified domain spells l's generated name. */
  predicate Apart(dir: Directory, cfg: Settings, l: string) {
    forall s | s in dir.verified :: GeneratedName(l, cfg) !in dir.verified[s]
  }

  /** The sync has domains for label k: one of its containers is believed and it has verified some. */
  ghost predicate Domained(cs: Containers, dir: Directory, server: string, k: string) {
    Named(dir, k) && exists r: Route :: Listed(cs, r) && r.service == k && Vouched(dir, server, r)
  }

  /** What the agent gives Caddy can be told apart by host: a route with domains is a production one, with the
      host it had. */
  lemma DesiredSane(cs: Containers, dir: Directory, server: string, listing: seq<Route>, overrides: seq<Override>)
    requires AllStamped(cs) && Listing(cs, listing) && Stored(dir) && IsAnswer(dir, server, listing, overrides)
    ensures DistinctContainers(Desired(listing, overrides)) && AllSane(Desired(listing, overrides))
  {
    ListingDistinct(cs, listing);
    DesiredDistinct(listing, overrides);
    forall x | x in Desired(listing, overrides) ensures Sane(x) && AuthReadable(x) {
      DesiredEach(listing, overrides, x);
      if Overridden(listing, overrides, x) {
        var o := OverriddenService(listing, overrides, x);
        assert Domains(dir.verified[o.service]);
      }
    }
  }

  /** A desired route claims the address of a host that is no verified domain only if it was listed with it. */
  lemma DesiredClaims(cs: Containers, cfg: Settings, dir: Directory, server: string, listing: seq<Route>,
          overrides: seq<Override>, l: string, x: Route)
    requires AllStamped(cs) && Listing(cs, listing) && IsAnswer(dir, server, listing, overrides) && Apart(dir, cfg, l)
    requires x in Desired(listing, overrides) && DistinctContainers(listing)
    ensures Claims(x, cfg, l) <==> HostLabel(x) == l
    ensures exists r | r in listing :: r.service == x.service && HostLabel(r) == HostLabel(x)
  {
    DesiredEach(listing, overrides, x);
    if Overridden(listing, overrides, x) {
      var o := OverriddenService(listing, overrides, x);
      ByServiceSound(listing);
      var r := ByService(listing)[o.service];
      assert Listed(cs, r) && ProductionRoute(r) && HostLabel(r) == HostLabel(x);
    }
  }

  lemma AnswersFor(cs: Containers, dir: Directory, server: string, listing: seq<Route>, overrides: seq<Override>,
          k: string)
    requires Listing(cs, listing) && IsAnswer(dir, server, listing, overrides)
    ensures Domained(cs, dir, server, k) <==> Override(k, if Named(dir, k) then dir.verified[k] else []) in overrides
    ensures forall o | o in overrides && o.service == k ::
              Domained(cs, dir, server, k) && o.hostnames == dir.verified[k] != []
    ensures Domained(cs, dir, server, k) ==> k in ByService(listing)
  {
    ByServiceSound(listing);
  }

  /** The route of label k that a sync gives Caddy. */
  ghost function SyncedRoute(cs: Containers, dir: Directory, server: string, listing: seq<Route>, k: string,
          x: Route): Route {
    if Domained(cs, dir, server, k) && k in ByService(listing) then ByService(listing)[k] else x
  }

  /** Among the desired routes label k is won by the last one listed, with the domains, if it has any, and by its
      winner otherwise. */
  lemma DesiredTop(cs: Containers, dir: Directory, server: string, listing: seq<Route>, overrides: seq<Override>,
          k: string, x: Route)
    returns (y: Route)
    requires Listing(cs, listing) && IsAnswer(dir, server, listing, overrides) && TopIn(cs, k, x)
    ensures Top(Desired(listing, overrides), k, y)
    ensures y.port == SyncedRoute(cs, dir, server, listing, k, x).port
    ensures y == x || Domained(cs, dir, server, k)
  {
    ListingDistinct(cs, listing);
    AnswersFor(cs, dir, server, listing, overrides, k);
    if Domained(cs, dir, server, k) {
      var o := Override(k, dir.verified[k]);
      y := OverrideRoute(ByService(listing)[k], o.hostnames);
      LastDesired(listing, overrides, o);
      TieBreakTotal(y, y);
    } else {
      y := x;
      forall z: Route | z.service == k ensures z in Desired(listing, overrides) <==> z in listing {
        DesiredEach(listing, overrides, z);
        if Overridden(listing, overrides, z) { var o := OverriddenService(listing, overrides, z); }
      }
    }
  }

  lemma LastDesired(listing: seq<Route>, overrides: seq<Override>, o: Override)
    requires DistinctContainers(listing) && DistinctServices(overrides) && Placed(listing, overrides, o)
    ensures ByService(listing)[o.service].service == o.service
    ensures forall z: Route | z.service == o.service ::
              z in Desired(listing, overrides) <==> z == OverrideRoute(ByService(listing)[o.service], o.hostnames)
  {
    ByServiceSound(listing);
    forall z: Route | z.service == o.service
      ensures z in Desired(listing, overrides) <==> z == OverrideRoute(ByService(listing)[o.service], o.hostnames)
    {
      DesiredEach(listing, overrides, z);
      if Overridden(listing, overrides, z) {
        var u := OverriddenService(listing, overrides, z);
        var i, j :| 0 <= i < |overrides| && 0 <= j < |overrides| && overrides[i] == o && overrides[j] == u;
      }
    }
  }

  /** After a sync that Caddy loaded, the address of a label that alone has its host leads to the winner among
      its containers, or, when it has domains, to the container that was listed last; unless a verified domain
      spells the address. */
  lemma SyncForwards(h: Host, h': Host, cfg: Settings, dir: Directory, server: string, a: SyncAnswers,
          listing: seq<Route>, overrides: seq<Override>, results: seq<(Override, bool)>, k: string, x: Route)
    requires cfg.Valid() && AllStamped(h.containers) && Stored(dir) && Apart(dir, cfg, HostLabel(x))
    requires SyncOf(h, h'.caddy, cfg, dir, server, a, listing, overrides, None, results)
    requires TopIn(h.containers, k, x) && SoleHost(h.containers, k, HostLabel(x))
    ensures forall port :: Forwards(h', cfg, HostLabel(x), port) <==>
              port == SyncedRoute(h.containers, dir, server, listing, k, x).port
  {
    DesiredSane(h.containers, dir, server, listing, overrides);
    var y := DesiredSole(h.containers, cfg, dir, server, listing, overrides, k, x);
    CaddyManager.StepOutcome(h.caddy, Render(Desired(listing, overrides), cfg), a.apply);
    SoleForwarded(h', cfg, Desired(listing, overrides), HostLabel(x), y);
  }

  /** A label with domains is a service id, and all its containers have that host. */
  lemma DesiredHost(cs: Containers, cfg: Settings, dir: Directory, server: string, listing: seq<Route>,
          overrides: seq<Override>, k: string, x: Route, y: Route)
    requires AllStamped(cs) && Listing(cs, listing) && IsAnswer(dir, server, listing, overrides)
    requires Listed(cs, x) && x.service == y.service == k && y in Desired(listing, overrides)
    requires Apart(dir, cfg, HostLabel(x)) && (y == x || Domained(cs, dir, server, k))
    ensures HostLabel(y) == HostLabel(x)
  {
    if y != x {
      ProductionHost(cs, k);
      ListingDistinct(cs, listing);
      DesiredClaims(cs, cfg, dir, server, listing, overrides, HostLabel(x), y);
    }
  }

  lemma DesiredSole(cs: Containers, cfg: Settings, dir: Directory, server: string, listing: seq<Route>,
          overrides: seq<Override>, k: string, x: Route)
    returns (y: Route)
    requires AllStamped(cs) && Listing(cs, listing) && IsAnswer(dir, server, listing, overrides)
    requires Apart(dir, cfg, HostLabel(x)) && TopIn(cs, k, x) && SoleHost(cs, k, HostLabel(x))
    ensures SoleClaimant(Desired(listing, overrides), cfg, HostLabel(x), y)
    ensures y.port == SyncedRoute(cs, dir, server, listing, k, x).port
  {
    var desired, l := Desired(listing, overrides), HostLabel(x);
    ListingDistinct(cs, listing);
    DesiredDistinct(listing, overrides);
    y := DesiredTop(cs, dir, server, listing, overrides, k, x);
    DesiredHost(cs, cfg, dir, server, listing, overrides, k, x, y);
    DesiredClaims(cs, cfg, dir, server, listing, overrides, l, y);
    forall z | Claimant(desired, cfg, l, z) ensures z == y {
      DesiredClaims(cs, cfg, dir, server, listing, overrides, l, z);
      TieBreakTotal(y, z);
    }
  }

  /** x is the one running container of label k. */
  ghost predicate AloneIn(cs: Containers, k: string, x: Route) {
    Listed(cs, x) && x.service == k && forall r: Route | r.service == k && Listed(cs, r) :: r == x
  }

  lemma AloneTop(cs: Containers, k: string, x: Route)
    requires AloneIn(cs, k, x)
    ensures TopIn(cs, k, x)
  {
    TieBreakTotal(x, x);
  }

  lemma AloneSynced(cs: Containers, dir: Directory, server: string, listing: seq<Route>, k: string, x: Route)
    requires Listing(cs, listing) && (AloneIn(cs, k, x) || !Domained(cs, dir, server, k))
    ensures SyncedRoute(cs, dir, server, listing, k, x) == x
  {
    ByServiceSound(listing);
  }

  /** A sync, however it ends, leaves the address of a label that alone has its host where it was, if the label
      has one container or no domains, and no verified domain spells the address. */
  lemma SyncKeepsAddress(h: Host, h': Host, cfg: Settings, dir: Directory, server: string, a: SyncAnswers,
          o: SyncOutcome, k: string, x: Route)
    requires cfg.Valid() && AllStamped(h.containers) && Stored(dir) && Apart(dir, cfg, HostLabel(x))
    requires SyncedBy(h, h', cfg, dir, server, a, o) && TopIn(h.containers, k, x)
    requires SoleHost(h.containers, k, HostLabel(x)) && Forwards(h, cfg, HostLabel(x), x.port)
    requires AloneIn(h.containers, k, x) || !Domained(h.containers, dir, server, k)
    ensures h'.containers == h.containers && h'.networks == h.networks && Forwards(h', cfg, HostLabel(x), x.port)
  {
    if o.Synced? {
      var listing, overrides :| SyncOf(h, h'.caddy, cfg, dir, server, a, listing, overrides, o.failure, o.results);
      CaddyManager.StepOutcome(h.caddy, Render(Desired(listing, overrides), cfg), a.apply);
      if o.failure.None? {
        AloneSynced(h.containers, dir, server, listing, k, x);
        SyncForwards(h, h', cfg, dir, server, a, listing, overrides, o.results, k, x);
      }
    }
  }

  // ---- Runs ----

  /** What happens on a server: an attempt of some label, or a sync. */
  datatype Move = Attempt(act: Act) | Sync(dir: Directory, server: string, told: SyncAnswers, result: SyncOutcome)

  datatype Turn = Turn(move: Move, after: Host)

  ghost predicate Moves(h: Host, m: Move, h': Host, cfg: Settings) {
    match m
    case Attempt(act) => Acts(h, act, h', cfg)
    case Sync(dir, server, a, o) => SyncedBy(h, h', cfg, dir, server, a, o)
  }

  ghost predicate Turns(h: Host, turns: seq<Turn>, cfg: Settings)
    decreases turns
  {
    turns == [] || (Moves(h, turns[0].move, turns[0].after, cfg) && Turns(turns[0].after, turns[1..], cfg))
  }

  function Last(h: Host, turns: seq<Turn>): Host { if turns == [] then h else turns[|turns| - 1].after }

  lemma LastTurn(h: Host, turns: seq<Turn>)
    requires turns != []
    ensures Last(turns[0].after, turns[1..]) == Last(h, turns)
  {
  }

  /** The move is on behalf of another label than k and another host than l, or syncs domains none of which
      spells l's generated name. */
  predicate Foreign(m: Move, cfg: Settings, k: string, l: string) {
    match m
    case Attempt(act) => ActApart(act, k, l)
    case Sync(dir, _, _, _) => Stored(dir) && Apart(dir, cfg, l)
  }

  predicate AllForeign(turns: seq<Turn>, cfg: Settings, k: string, l: string) {
    forall i | 0 <= i < |turns| :: Foreign(turns[i].move, cfg, k, l)
  }

  /** Label k has no verified domain. */
  predicate Undomained(m: Move, k: string) { m.Sync? ==> !Named(m.dir, k) }

  predicate NeverDomained(turns: seq<Turn>, k: string) { forall i | 0 <= i < |turns| :: Undomained(turns[i].move, k) }

  lemma AloneKept(cs: Containers, after: Containers, k: string, x: Route)
    requires SameListed(cs, after, k) && AloneIn(cs, k, x)
    ensures AloneIn(after, k, x)
  {
  }

  lemma MoveKeepsAddress(h: Host, m: Move, h': Host, cfg: Settings, k: string, x: Route)
    requires cfg.Valid() && AllStamped(h.containers) && Moves(h, m, h', cfg) && Foreign(m, cfg, k, HostLabel(x))
    requires TopIn(h.containers, k, x) && SoleHost(h.containers, k, HostLabel(x))
              && Forwards(h, cfg, HostLabel(x), x.port)
    requires AloneIn(h.containers, k, x) || Undomained(m, k)
    ensures AllStamped(h'.containers) && TopIn(h'.containers, k, x) && SoleHost(h'.containers, k, HostLabel(x))
    ensures Forwards(h', cfg, HostLabel(x), x.port)
    ensures AloneIn(h.containers, k, x) ==> AloneIn(h'.containers, k, x)
  {
    match m
    case Attempt(act) =>
      OthersKeepAddress(h, act, h', cfg, k, x);
      ActSameListed(h, act, h', cfg, k);
      if AloneIn(h.containers, k, x) { AloneKept(h.containers, h'.containers, k, x); }
    case Sync(dir, server, a, o) => SyncKeepsAddress(h, h', cfg, dir, server, a, o, k, x);
  }

  /** Over any run of deploys and teardowns of other labels with other hosts, and of syncs, with any failures,
      the address of a label that alone has its host, a service's or a preview's, stays forwarded to the
      container it was forwarded to: if it is the label's only running container, or the winner of a label
      without domains. */
  lemma {:induction false} OthersNeverTakeTheAddress(h: Host, turns: seq<Turn>, cfg: Settings, k: string, x: Route)
    requires cfg.Valid() && AllStamped(h.containers)
    requires Turns(h, turns, cfg) && AllForeign(turns, cfg, k, HostLabel(x))
    requires TopIn(h.containers, k, x) && SoleHost(h.containers, k, HostLabel(x))
              && Forwards(h, cfg, HostLabel(x), x.port)
    requires AloneIn(h.containers, k, x) || NeverDomained(turns, k)
    ensures TopIn(Last(h, turns).containers, k, x) && Forwards(Last(h, turns), cfg, HostLabel(x), x.port)
    decreases turns
  {
    if turns != [] {
      assert Foreign(turns[0].move, cfg, k, HostLabel(x));
      assert NeverDomained(turns, k) ==> Undomained(turns[0].move, k);
      MoveKeepsAddress(h, turns[0].move, turns[0].after, cfg, k, x);
      OthersNeverTakeTheAddress(turns[0].after, turns[1..], cfg, k, x);
      LastTurn(h, turns);
    }
  }

  /** Every attempt of the run is a preview's, and no sync has p's generated name among the domains. */
  predicate OnlyPreviews(turns: seq<Turn>, cfg: Settings, p: string) {
    forall i | 0 <= i < |turns| ::
      match turns[i].move
      case Attempt(act) => PreviewAct(act)
      case Sync(dir, _, _, _) => Stored(dir) && Apart(dir, cfg, p)
  }

  /** No preview has the host of a production service. */
  lemma PreviewForeign(act: Act, p: string)
    requires PreviewAct(act) && PreviewNames.IsUuid(p)
    ensures ActApart(act, p, p)
  {
    PreviewApart(act, p);
  }

  /** Over any run of preview deploys, teardowns and syncs, of any services and refs and with any failures,
      production's address stays forwarded to production's container: with the same provisos. */
  lemma PreviewRunsKeepProduction(h: Host, turns: seq<Turn>, cfg: Settings, p: string, x: Route)
    requires cfg.Valid() && PreviewNames.IsUuid(p) && AllStamped(h.containers)
    requires Turns(h, turns, cfg) && OnlyPreviews(turns, cfg, p)
    requires TopIn(h.containers, p, x) && Forwards(h, cfg, p, x.port)
    requires AloneIn(h.containers, p, x) || NeverDomained(turns, p)
    ensures TopIn(Last(h, turns).containers, p, x) && Forwards(Last(h, turns), cfg, p, x.port)
  {
    ProductionHost(h.containers, p);
    forall i | 0 <= i < |turns| ensures Foreign(turns[i].move, cfg, p, p) {
      if turns[i].move.Attempt? { PreviewForeign(turns[i].move.act, p); }
    }
    OthersNeverTakeTheAddress(h, turns, cfg, p, x);
  }

  /** No attempt of the run is on behalf of the label. */
  predicate NoneOf(turns: seq<Turn>, appLabel: string) {
    forall i | 0 <= i < |turns| && turns[i].move.Attempt? :: ActKey(turns[i].move.act) != appLabel
  }

  /** Over any run, the containers of every label that is not acted on stay exactly as they were. */
  lemma {:induction false} OtherLabelsStay(h: Host, turns: seq<Turn>, cfg: Settings, id: string, appLabel: string)
    requires AllStamped(h.containers) && Turns(h, turns, cfg) && NoneOf(turns, appLabel)
    requires id in h.containers && HasLabel(h.containers[id], appLabel)
    ensures id in Last(h, turns).containers && Last(h, turns).containers[id] == h.containers[id]
    decreases turns
  {
    if turns != [] {
      var m := turns[0].move;
      if m.Attempt? {
        OthersKeepContainers(h, m.act, turns[0].after, cfg, id);
        ActStamped(h, m.act, turns[0].after, cfg);
      }
      OtherLabelsStay(turns[0].after, turns[1..], cfg, id, appLabel);
      LastTurn(h, turns);
    }
  }

  // ---- With the label's own deploys ----

  /** A public deploy of label k at host l whose leavings the daemon removed: the old containers if it came up,
      the new one if it failed. */
  predicate OwnDeploy(m: Move, k: string, l: string) {
    && m.Attempt? && m.act.Deploy? && ActKey(m.act) == k && ActHost(m.act) == Some(l) && PublicInput(m.act.job.input)
    && match m.act.outcome
       case Running(retired) => retired
       case Failed(_, _) => m.act.answers.reply.NotCreated? || m.act.answers.reply.id in m.act.answers.daemon.removes
  }

  /** The address of host l leads to the one running container of label k, which alone has the host. */
  ghost predicate LeadsHome(h: Host, cfg: Settings, k: string, l: string) {
    && SoleHost(h.containers, k, l)
    && exists x :: AloneIn(h.containers, k, x) && HostLabel(x) == l && Forwards(h, cfg, l, x.port)
  }

  lemma OwnDeployLeadsHome(h: Host, m: Move, h': Host, cfg: Settings, k: string, l: string)
    requires cfg.Valid() && AllStamped(h.containers) && Moves(h, m, h', cfg) && SoleHost(h.containers, k, l)
    requires OwnDeploy(m, k, l) && (m.act.outcome.Running? || LeadsHome(h, cfg, k, l))
    ensures AllStamped(h'.containers) && LeadsHome(h', cfg, k, l)
  {
    var job, a, o := m.act.job, m.act.answers, m.act.outcome;
    ActStamped(h, m.act, h', cfg);
    SoleHostKept(h, m.act, h', cfg, k, l);
    if o.Running? {
      OwnAlone(h, h', cfg, job, a, o);
      OwnDeployForwards(h, h', cfg, job, a, o, CurrentRoute(job.input, a.reply.id, a.reply.port));
    } else {
      FailedDeployKeeps(h, h', cfg, job, a, o);
      var x :| AloneIn(h.containers, k, x) && HostLabel(x) == l && Forwards(h, cfg, l, x.port);
      assert AloneIn(h'.containers, k, x) && Forwards(h', cfg, l, x.port);
    }
  }

  lemma OwnAlone(h: Host, h': Host, cfg: Settings, job: Job, a: Answers, o: DeployOutcome)
    requires PublicInput(job.input) && o == Running(true)
    requires ReplyOk(h.containers, a.reply) && Deployed(h, h', cfg, job, a, o)
    ensures a.reply.Up? && AloneIn(h'.containers, job.input.appLabel, CurrentRoute(job.input, a.reply.id, a.reply.port))
  {
    var k, x := job.input.appLabel, CurrentRoute(job.input, a.reply.id, a.reply.port);
    Deploying.RunningRetires(h, h', cfg, job, a, o);
    NoLeftOver(h.containers, Effective(job, a), a.reply, h'.containers);
    forall r: Route | r.service == k ensures Listed(h'.containers, r) <==> r == x {
      OwnListed(h.containers, Effective(job, a), a.reply, h'.containers, r);
    }
  }

  lemma FailedDeployKeeps(h: Host, h': Host, cfg: Settings, job: Job, a: Answers, o: DeployOutcome)
    requires ReplyOk(h.containers, a.reply) && Deployed(h, h', cfg, job, a, o) && o.Failed?
    requires a.reply.NotCreated? || a.reply.id in a.daemon.removes
    ensures h'.containers == h.containers && h'.caddy.loaded == h.caddy.loaded
  {
    Deploying.FailureKeeps(h, h', cfg, job, a, o);
    if !a.reply.NotCreated? {
      var id, c := a.reply.id, CreatedBy(Effective(job, a), a.reply);
      assert h.containers[id := c] - {id} == h.containers;
    }
  }

  /** Over any run of attempts of other labels, syncs and the label's own public deploys, the address of its host
      leads to its one running container, as long as the daemon removes what the label's own deploys tell it to. */
  lemma {:induction false} AddressLeadsHome(h: Host, turns: seq<Turn>, cfg: Settings, k: string, l: string)
    requires cfg.Valid() && AllStamped(h.containers) && LeadsHome(h, cfg, k, l) && Turns(h, turns, cfg)
    requires forall i | 0 <= i < |turns| :: Foreign(turns[i].move, cfg, k, l) || OwnDeploy(turns[i].move, k, l)
    ensures LeadsHome(Last(h, turns), cfg, k, l)
    decreases turns
  {
    if turns != [] {
      var m, next := turns[0].move, turns[0].after;
      if OwnDeploy(m, k, l) {
        OwnDeployLeadsHome(h, m, next, cfg, k, l);
      } else {
        assert Foreign(m, cfg, k, l);
        var x :| AloneIn(h.containers, k, x) && HostLabel(x) == l && Forwards(h, cfg, l, x.port);
        AloneTop(h.containers, k, x);
        MoveKeepsAddress(h, m, next, cfg, k, x);
      }
      AddressLeadsHome(next, turns[1..], cfg, k, l);
      LastTurn(h, turns);
    }
  }

  // ---- No site leads nowhere ----

  /** Every loaded site has its own route's container running behind it, for some list of routes. */
  ghost predicate AllLive(h: Host, cfg: Settings) { exists routes :: Live(h, cfg, routes) }

  /** Every container that ran is as it was. */
  predicate KeepsRunning(h: Host, h': Host) {
    forall id | id in h.containers && h.containers[id].running ::
      id in h'.containers && h'.containers[id] == h.containers[id]
  }

  /** A public deploy or a sync, whatever fails; a teardown that got through; or anything that stops no container. */
  predicate Harmless(h: Host, m: Move, h': Host) {
    match m
    case Attempt(Deploy(job, _, o)) => job.input.public || o.Failed? || KeepsRunning(h, h')
    case Attempt(Teardown(_, _, _, o)) => o.Gone? || KeepsRunning(h, h')
    case Sync(_, _, _, _) => true
  }

  /** The move had Caddy load new routes. */
  predicate Tells(m: Move) {
    match m
    case Attempt(act) => Reloaded(act)
    case Sync(_, _, _, o) => o.Synced? && o.failure.None?
  }

  lemma StampedTidy(cs: Containers)
    requires AllStamped(cs)
    ensures Tidy(cs)
  {
    forall id | id in cs && RouteOf(id, cs[id]).Some? ensures AuthReadable(RouteOf(id, cs[id]).value) {
      assert Listed(cs, RouteOf(id, cs[id]).value);
    }
  }

  lemma MoveStamped(h: Host, m: Move, h': Host, cfg: Settings)
    requires AllStamped(h.containers) && Moves(h, m, h', cfg)
    ensures AllStamped(h'.containers)
  {
    if m.Attempt? { ActStamped(h, m.act, h', cfg); }
  }

  /** Whatever a move that has Caddy load new routes does, it leaves a live server. */
  lemma TellingLeavesLive(h: Host, m: Move, h': Host, cfg: Settings)
    requires cfg.Valid() && AllStamped(h.containers) && Moves(h, m, h', cfg) && Tells(m)
    ensures AllLive(h', cfg)
  {
    StampedTidy(h.containers);
    match m
    case Attempt(act) => ReloadLeavesLive(h, act, h', cfg);
    case Sync(dir, server, a, o) =>
      var listing, overrides :| SyncOf(h, h'.caddy, cfg, dir, server, a, listing, overrides, o.failure, o.results);
      Syncing.SyncLive(h, h', cfg, dir, server, a, listing, overrides, o.results);
  }

  lemma ReloadLeavesLive(h: Host, act: Act, h': Host, cfg: Settings)
    requires cfg.Valid() && AllStamped(h.containers) && Acts(h, act, h', cfg) && Reloaded(act)
    ensures AllLive(h', cfg)
  {
    match act
    case Deploy(job, a, o) => PublicLeavesLive(h, h', cfg, job, a, o);
    case Teardown(key, network, a, o) =>
      ActStamped(h, act, h', cfg);
      StampedTidy(h'.containers);
      var listing := SomeListing(h'.containers);
      TearingDown.TeardownLive(h, h', cfg, key, network, a, o, listing);
  }

  lemma PublicLeavesLive(h: Host, h': Host, cfg: Settings, job: Job, a: Answers, o: DeployOutcome)
    requires cfg.Valid() && AllStamped(h.containers) && StampedInput(job.input) && job.input.public && o.Running?
    requires ReplyOk(h.containers, a.reply) && Deployed(h, h', cfg, job, a, o)
    ensures AllLive(h', cfg)
  {
    var input := Effective(job, a);
    StampedTidy(h.containers);
    Deploying.RunningIsRouted(h, h', cfg, job, a, o);
    Deploying.RunningRetires(h, h', cfg, job, a, o);
    var mid, current := Created(h.containers, input, a.reply), CurrentRoute(input, a.reply.id, a.reply.port);
    var listing :| Listing(mid, listing) && Deploying.RoutedBy(listing, h'.caddy, cfg, current);
    Deploying.RetiringLive(h, h', cfg, input, a.reply, listing);
  }

  /** Any other move leaves a live server live exactly when every loaded site has a route whose container came
      through as it was. */
  lemma SilentMoveLiveExactly(h: Host, m: Move, h': Host, cfg: Settings, routes: seq<Route>)
    requires cfg.Valid() && AllStamped(h.containers) && Moves(h, m, h', cfg) && !Tells(m) && Live(h, cfg, routes)
    ensures Live(h', cfg, routes) <==>
              forall s | s in LoadedSites(h) ::
                exists r, x | r in routes :: SiteOf(r, x, cfg, s) && Deploying.Survived(h.containers, h'.containers, r)
  {
    match m
    case Attempt(Deploy(job, a, o)) =>
      if o.Failed? {
        Deploying.FailureKeeps(h, h', cfg, job, a, o);
        AllSurvive(h, h', cfg, routes);
      } else {
        Deploying.PrivateDeployLiveExactly(h, h', cfg, job, a, o, routes);
      }
    case Attempt(Teardown(key, network, a, o)) =>
      TearingDown.HalfTeardownLiveExactly(h, h', cfg, key, network, a, o, routes);
    case Sync(dir, server, a, o) =>
      SilentSync(h, h', cfg, dir, server, a, o);
      AllSurvive(h, h', cfg, routes);
  }

  lemma SilentSync(h: Host, h': Host, cfg: Settings, dir: Directory, server: string, a: SyncAnswers, o: SyncOutcome)
    requires SyncedBy(h, h', cfg, dir, server, a, o) && (o.Synced? ==> o.failure.Some?)
    ensures h'.containers == h.containers && h'.caddy.loaded == h.caddy.loaded
  {
    if o.Synced? {
      var listing, overrides :| SyncOf(h, h'.caddy, cfg, dir, server, a, listing, overrides, o.failure, o.results);
      CaddyManager.StepOutcome(h.caddy, Render(Desired(listing, overrides), cfg), a.apply);
    }
  }

  /** Where all running containers came through and Caddy was told nothing, everything stays. */
  lemma AllSurvive(h: Host, h': Host, cfg: Settings, routes: seq<Route>)
    requires Live(h, cfg, routes) && KeepsRunning(h, h') && h'.caddy.loaded == h.caddy.loaded
    ensures Live(h', cfg, routes)
    ensures forall s | s in LoadedSites(h) ::
              exists r, x | r in routes :: SiteOf(r, x, cfg, s) && Deploying.Survived(h.containers, h'.containers, r)
  {
    LiveKept(h, h', cfg, routes);
    forall s | s in LoadedSites(h)
      ensures exists r, x | r in routes :: SiteOf(r, x, cfg, s) && Deploying.Survived(h.containers, h'.containers, r)
    {
      assert Hosted(h.containers, cfg, routes, s);
      var r, x :| r in routes && SiteOf(r, x, cfg, s) && Backed(h.containers, r);
      assert Deploying.Survived(h.containers, h'.containers, r);
    }
  }

  lemma SilentKeepsLoaded(h: Host, m: Move, h': Host, cfg: Settings)
    requires AllStamped(h.containers) && Moves(h, m, h', cfg) && !Tells(m)
    ensures h'.caddy.loaded == h.caddy.loaded
  {
    match m
    case Attempt(act) => NotReloaded(h, act, h', cfg);
    case Sync(dir, server, a, o) => SilentSync(h, h', cfg, dir, server, a, o);
  }

  lemma SilentHarmlessKeeps(h: Host, m: Move, h': Host, cfg: Settings)
    requires AllStamped(h.containers) && Moves(h, m, h', cfg) && !Tells(m) && Harmless(h, m, h')
    ensures KeepsRunning(h, h')
  {
    match m
    case Attempt(Deploy(job, a, o)) => if o.Failed? { Deploying.FailureKeeps(h, h', cfg, job, a, o); }
    case Attempt(Teardown(_, _, _, _)) =>
    case Sync(dir, server, a, o) => SilentSync(h, h', cfg, dir, server, a, o);
  }

  lemma HarmlessStaysLive(h: Host, m: Move, h': Host, cfg: Settings)
    requires cfg.Valid() && AllStamped(h.containers) && Moves(h, m, h', cfg) && Harmless(h, m, h') && AllLive(h, cfg)
    ensures AllStamped(h'.containers) && AllLive(h', cfg)
  {
    MoveStamped(h, m, h', cfg);
    if Tells(m) {
      TellingLeavesLive(h, m, h', cfg);
    } else {
      SilentKeepsLoaded(h, m, h', cfg);
      SilentHarmlessKeeps(h, m, h', cfg);
      var routes :| Live(h, cfg, routes);
      LiveKept(h, h', cfg, routes);
      assert Live(h', cfg, routes);
    }
  }

  predicate AllHarmless(h: Host, turns: seq<Turn>)
    decreases turns
  {
    turns == [] || (Harmless(h, turns[0].move, turns[0].after) && AllHarmless(turns[0].after, turns[1..]))
  }

  predicate AllAnswered(h: Host) { forall s | s in LoadedSites(h) :: Answered(h.containers, s) }

  lemma AllLiveAnswers(h: Host, cfg: Settings)
    requires AllLive(h, cfg)
    ensures AllAnswered(h)
  {
    var routes :| Live(h, cfg, routes);
    forall s | s in LoadedSites(h) ensures Answered(h.containers, s) { LiveAnswers(h, cfg, routes, s); }
  }

  /** Over any run of public deploys and syncs with any failures, of private deploys and teardowns that stop no
      container or get through, no site Caddy has loaded ever leads nowhere: each belongs to a route whose own
      container runs and publishes its port. Nor does it ever ask for another password than that container's. */
  lemma {:induction false} NoSiteLeadsNowhere(h: Host, turns: seq<Turn>, cfg: Settings)
    requires cfg.Valid() && AllStamped(h.containers) && AllLive(h, cfg)
    requires Turns(h, turns, cfg) && AllHarmless(h, turns)
    ensures forall i | 0 <= i < |turns| :: AllLive(turns[i].after, cfg) && AllAnswered(turns[i].after)
    decreases turns
  {
    if turns != [] {
      HarmlessStaysLive(h, turns[0].move, turns[0].after, cfg);
      NoSiteLeadsNowhere(turns[0].after, turns[1..], cfg);
      forall i | 0 <= i < |turns| ensures AllLive(turns[i].after, cfg) && AllAnswered(turns[i].after) {
        if 0 < i { assert turns[i] == turns[1..][i - 1]; } else { AllLiveAnswers(turns[0].after, cfg); }
      }
    }
  }
}
