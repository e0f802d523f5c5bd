/** Services and previews on one server: what an attempt on behalf of one label leaves of every other. */
module Isolation {
  import opened Text
  import opened Routes
  import opened Caddyfile
  import opened Docker
  import PreviewNames
  import opened RouteSync
  import opened Serving
  import opened Attempts
  import Deploying
  import TearingDown
  import opened Forwarding
  import Sites
  import ControlPlane

  // ---- What the control plane asks for ----

  /** Every listed container was started for a production or a preview row, with token auth fields. */
  ghost predicate AllStamped(cs: Containers) {
    "" !in cs && forall r | Listed(cs, r) :: Stamped(r) && AuthReadable(r)
  }

  /** A job for a production or a preview row. */
  predicate StampedInput(input: RunInput) {
    Stamped(CurrentRoute(input, "", 1)) && AuthReadable(CurrentRoute(input, "", 1))
  }

  predicate PreviewInput(input: RunInput) {
    && PreviewRoute(CurrentRoute(input, "", 1)) && AuthReadable(CurrentRoute(input, "", 1))
    && input.network == PreviewNames.PreviewNetwork(input.appLabel)
  }

  /** What the agent is handed for a preview row is a preview: its own key, network and host, and token
      auth fields, where bcrypt's hash is one token. */
  lemma PreviewWork(sha: string -> string, svc: ControlPlane.Service, o: ControlPlane.PreviewOrder,
          head: Result<string, ControlPlane.Problem>, at: nat, id: string)
    requires PreviewNames.IsHexDigest(sha) && PreviewNames.IsUuid(o.service) && o.pr <= PreviewNames.MAX_INT32
    requires ControlPlane.PreviewRow(sha, svc, o, head, at).Ok? && IsToken(o.hash)
    ensures PreviewInput(ControlPlane.WorkFor(sha, svc, id, ControlPlane.PreviewRow(sha, svc, o, head, at).value))
  {
    var row := ControlPlane.PreviewRow(sha, svc, o, head, at).value;
    PreviewNames.KeyShape(sha, o.service, o.pr, ControlPlane.RowRef(row));
    PreviewNames.HostValid(sha, svc.slug, o.pr, ControlPlane.RowRef(row), o.service);
    PairReadable(o);
  }

  lemma PairReadable(o: ControlPlane.PreviewOrder)
    requires IsToken(o.hash)
    ensures var pair := ControlPlane.AuthPair(o.password, o.username, o.hash);
            pair.Ok? && pair.value.0 != "" ==> IsToken(pair.value.0) && IsToken(pair.value.1)
  {
    var pair := ControlPlane.AuthPair(o.password, o.username, o.hash);
    if pair.Ok? && pair.value.0 != "" {
      var user := pair.value.0;
      assert forall i | 0 <= i < |user| :: ControlPlane.UserChar(user[i]);
    }
  }

  /** What it is handed for a production row is labelled with the service id and has no host of its own. */
  lemma ProductionWork(sha: string -> string, svc: ControlPlane.Service, service: string, server: string, port: int,
          ref: string, at: nat, id: string)
    requires PreviewNames.IsHexDigest(sha) && PreviewNames.IsUuid(service)
    requires ControlPlane.ProductionRow(service, svc, server, port, ref, at).Ok?
    ensures var input :=
              ControlPlane.WorkFor(sha, svc, id, ControlPlane.ProductionRow(service, svc, server, port, ref, at).value);
            && ProductionRoute(CurrentRoute(input, "", 1)) && AuthReadable(CurrentRoute(input, "", 1))
            && input.network == PreviewNames.EnvironmentNetwork(svc.environment)
  {
  }

  /** Two pull requests of a service whose slug has 55 characters or more: the agent is handed two labels and
      one host. */
  lemma LongSlugPreviewsMeet(sha: string -> string, svc: ControlPlane.Service, a: ControlPlane.PreviewOrder,
          b: ControlPlane.PreviewOrder, headA: Result<string, ControlPlane.Problem>,
          headB: Result<string, ControlPlane.Problem>, at: nat, idA: string, idB: string)
    requires PreviewNames.IsHexDigest(sha) && PreviewNames.IsUuid(a.service) && a.service == b.service
    requires 0 < a.pr <= PreviewNames.MAX_INT32 && 0 < b.pr <= PreviewNames.MAX_INT32 && a.pr != b.pr
    requires |PreviewNames.HostBase(svc.slug)| >= 55
    requires ControlPlane.PreviewRow(sha, svc, a, headA, at).Ok? && ControlPlane.PreviewRow(sha, svc, b, headB, at).Ok?
    ensures var x := ControlPlane.WorkFor(sha, svc, idA, ControlPlane.PreviewRow(sha, svc, a, headA, at).value);
            var y := ControlPlane.WorkFor(sha, svc, idB, ControlPlane.PreviewRow(sha, svc, b, headB, at).value);
            x.routeHost == y.routeHost && x.appLabel != y.appLabel
  {
    PreviewNames.LongBaseHost(sha, svc.slug, a.pr, headA.value, a.service);
    PreviewNames.LongBaseHost(sha, svc.slug, b.pr, headB.value, b.service);
    PreviewNames.PullRequestKeys(sha, a.service, a.pr, headA.value, b.pr, headB.value);
    PreviewNames.PullRequestKeys(sha, a.service, b.pr, headB.value, a.pr, headA.value);
    PreviewNames.KeyShape(sha, a.service, a.pr, headA.value);
    PreviewNames.KeyShape(sha, b.service, b.pr, headB.value);
  }

  // ---- Attempts ----

  /** One attempt on behalf of a label. */
  datatype Act =
    | Deploy(job: Job, answers: Answers, outcome: DeployOutcome)
    | Teardown(key: string, network: string, told: TeardownAnswers, result: TeardownOutcome)

  function ActKey(act: Act): string { if act.Deploy? then act.job.input.appLabel else act.key }

  ghost predicate Acts(h: Host, act: Act, h': Host, cfg: Settings) {
    match act
    case Deploy(job, a, o) =>
      StampedInput(job.input) && ReplyOk(h.containers, a.reply) && Deployed(h, h', cfg, job, a, o)
    case Teardown(key, network, a, o) => TornDown(h, h', cfg, key, network, a, o)
  }

  /** The attempt is a preview's: it has a routing key and a network of its own. */
  predicate PreviewAct(act: Act) {
    match act
    case Deploy(job, _, _) => PreviewInput(job.input)
    case Teardown(key, network, _, _) => |key| >= 38 && network == PreviewNames.PreviewNetwork(key)
  }

  /** The host label of the container an attempt starts. */
  function ActHost(act: Act): Option<string> {
    if act.Deploy? then Some(HostLabel(CurrentRoute(act.job.input, "", 1))) else None
  }

  /** The attempt is on behalf of another label than k, and of another host than l. */
  predicate ActApart(act: Act, k: string, l: string) { ActKey(act) != k && ActHost(act) != Some(l) }

  /** The attempt had Caddy load new routes. */
  predicate Reloaded(act: Act) {
    match act
    case Deploy(job, _, o) => job.input.public && o.Running?
    case Teardown(_, _, _, o) => o.Gone?
  }

  lemma PreviewApart(act: Act, p: string)
    requires PreviewAct(act) && PreviewNames.IsUuid(p)
    ensures ActKey(act) != p
  {
  }

  /** No attempt of another label has the host of a production service. */
  lemma HostApart(h: Host, act: Act, h': Host, cfg: Settings, p: string)
    requires Acts(h, act, h', cfg) && PreviewNames.IsUuid(p) && ActKey(act) != p
    ensures ActApart(act, p, p)
  {
    if act.Deploy? { SaneLabels(CurrentRoute(act.job.input, "", 1)); }
  }

  // ---- Containers ----

  /** The new container is listed, if at all, as the route it was started for. */
  lemma CreatedRoute(input: RunInput, reply: RunReply, stopped: bool)
    requires !reply.NotCreated?
    ensures var c := CreatedBy(input, reply);
            var route := RouteOf(reply.id, if stopped then c.(running := false) else c);
            route.Some? ==> route.value == BothOrNone(CurrentRoute(input, reply.id, HostPort(reply)))
  {
    var c := CreatedBy(input, reply);
    if c.ports != [] {
      assert c.ports[..|c.ports| - 1] == [];
      assert Chosen(c.ports) == if HostPort(reply) != 0 then Some(c.ports[0]) else None;
    } else {
      assert c.ports == [];
    }
  }

  lemma StampedRoute(input: RunInput, id: string, port: nat)
    requires StampedInput(input)
    ensures var r := BothOrNone(CurrentRoute(input, id, port));
            Stamped(r) && AuthReadable(r) && r.service == input.appLabel
    ensures Stamped(CurrentRoute(input, id, port)) && AuthReadable(CurrentRoute(input, id, port))
  {
  }

  /** A container set that grew by the attempt's container and shrank by its label: others are listed as before. */
  predicate OnlyOf(cs: Containers, after: Containers, key: string, id: string) {
    && (forall x | x in cs && !HasLabel(cs[x], key) :: x in after && after[x] == cs[x])
    && (forall x | x in after && x !in cs :: x == id && x != "")
    && (forall x | x in after && x in cs :: after[x] == cs[x] || after[x] == cs[x].(running := false))
  }

  lemma DeployOnlyOf(h: Host, h': Host, cfg: Settings, job: Job, a: Answers, o: DeployOutcome)
    requires ReplyOk(h.containers, a.reply) && Deployed(h, h', cfg, job, a, o)
    ensures OnlyOf(h.containers, h'.containers, job.input.appLabel, ReplyID(a.reply))
    ensures ReplyID(a.reply) in h'.containers && !a.reply.NotCreated? ==>
              var c := CreatedBy(Effective(job, a), a.reply);
              h'.containers[a.reply.id] == c || h'.containers[a.reply.id] == c.(running := false)
  {
    if o.Running? {
      Deploying.RunningRetires(h, h', cfg, job, a, o);
    } else {
      Deploying.FailureKeeps(h, h', cfg, job, a, o);
    }
  }

  lemma ActOnlyOf(h: Host, act: Act, h': Host, cfg: Settings)
    requires Acts(h, act, h', cfg) && "" !in h.containers
    ensures OnlyOf(h.containers, h'.containers, ActKey(act), if act.Deploy? then ReplyID(act.answers.reply) else "")
  {
    match act
    case Deploy(job, a, o) => DeployOnlyOf(h, h', cfg, job, a, o);
    case Teardown(key, network, a, o) => TearingDown.TeardownKeepsOthers(h, h', cfg, key, network, a, o);
  }

  /** An attempt leaves every container of every other label as it was. */
  lemma OthersKeepContainers(h: Host, act: Act, h': Host, cfg: Settings, id: string)
    requires Acts(h, act, h', cfg) && "" !in h.containers
    requires id in h.containers && !HasLabel(h.containers[id], ActKey(act))
    ensures id in h'.containers && h'.containers[id] == h.containers[id]
  {
    ActOnlyOf(h, act, h', cfg);
  }

  lemma StoppedUnlisted(c: Container, id: string)
    ensures RouteOf(id, c.(running := false)) == None
  {
  }

  lemma DeployStamped(h: Host, h': Host, cfg: Settings, job: Job, a: Answers, o: DeployOutcome, r: Route)
    requires StampedInput(job.input) && ReplyOk(h.containers, a.reply) && Deployed(h, h', cfg, job, a, o)
    requires AllStamped(h.containers) && Listed(h'.containers, r)
    ensures Stamped(r) && AuthReadable(r)
    ensures Listed(h.containers, r)
              || (r.service == job.input.appLabel && HostLabel(r) == HostLabel(CurrentRoute(job.input, "", 1)))
  {
    var id, c := r.container, h'.containers[r.container];
    DeployOnlyOf(h, h', cfg, job, a, o);
    if id in h.containers {
      StoppedUnlisted(h.containers[id], id);
      assert Listed(h.containers, r);
    } else {
      CreatedRoute(Effective(job, a), a.reply, c != CreatedBy(Effective(job, a), a.reply));
      StampedRoute(Effective(job, a), a.reply.id, HostPort(a.reply));
    }
  }

  lemma ActStamped(h: Host, act: Act, h': Host, cfg: Settings)
    requires Acts(h, act, h', cfg) && AllStamped(h.containers)
    ensures AllStamped(h'.containers)
  {
    ActOnlyOf(h, act, h', cfg);
    forall r | Listed(h'.containers, r) ensures Stamped(r) && AuthReadable(r) {
      match act
      case Deploy(job, a, o) => DeployStamped(h, h', cfg, job, a, o, r);
      case Teardown(key, network, a, o) =>
        StoppedUnlisted(h.containers[r.container], r.container);
        assert Listed(h.containers, r);
    }
  }

  /** Containers of label p are listed as before. */
  ghost predicate SameListed(cs: Containers, after: Containers, p: string) {
    forall r: Route | r.service == p :: Listed(cs, r) <==> Listed(after, r)
  }

  lemma ListedLabel(cs: Containers, r: Route)
    requires Listed(cs, r)
    ensures HasLabel(cs[r.container], r.service)
  {
  }

  lemma ActSameListed(h: Host, act: Act, h': Host, cfg: Settings, p: string)
    requires Acts(h, act, h', cfg) && AllStamped(h.containers) && p != ActKey(act)
    ensures SameListed(h.containers, h'.containers, p)
  {
    ActOnlyOf(h, act, h', cfg);
    forall r: Route | r.service == p ensures Listed(h.containers, r) <==> Listed(h'.containers, r) {
      if Listed(h.containers, r) { ListedLabel(h.containers, r); }
      if Listed(h'.containers, r) {
        match act
        case Deploy(job, a, o) => DeployStamped(h, h', cfg, job, a, o, r);
        case Teardown(key, network, a, o) =>
          StoppedUnlisted(h.containers[r.container], r.container);
          assert Listed(h.containers, r);
      }
    }
  }

  // ---- What Caddy is given ----

  /** The route an attempt adds. */
  function OwnRoute(act: Act): Option<Route> {
    if act.Deploy? && act.answers.reply.Up? then
      Some(CurrentRoute(Effective(act.job, act.answers), act.answers.reply.id, act.answers.reply.port))
    else None
  }

  /** A route an attempt gives Caddy: its own, or one listed under another label. */
  predicate Given(cs: Containers, act: Act, r: Route) {
    OwnRoute(act) == Some(r) || (Listed(cs, r) && r.service != ActKey(act))
  }

  ghost predicate GivenTo(cs: Containers, act: Act, routes: seq<Route>) {
    && DistinctContainers(routes)
    && (forall r | r in routes :: Stamped(r) && AuthReadable(r))
    && (forall r :: r in routes <==> Given(cs, act, r))
  }

  lemma MidListed(cs: Containers, input: RunInput, reply: RunReply, r: Route)
    requires reply.Up? && reply.id !in cs && r.service != input.appLabel
    ensures Listed(Created(cs, input, reply), r) <==> Listed(cs, r)
  {
    CreatedRoute(input, reply, false);
  }

  lemma AppliedGiven(cs: Containers, act: Act, input: RunInput, listing: seq<Route>)
    requires act.Deploy? && input == Effective(act.job, act.answers) && StampedInput(input)
    requires ReplyOk(cs, act.answers.reply) && act.answers.reply.Up? && AllStamped(cs)
    requires Listing(Created(cs, input, act.answers.reply), listing)
    ensures GivenTo(cs, act, RoutesFor(listing, OwnRoute(act).value))
  {
    var reply, current := act.answers.reply, OwnRoute(act).value;
    RoutesForExact(listing, current);
    StampedRoute(input, reply.id, reply.port);
    forall r ensures r in RoutesFor(listing, current) <==> Given(cs, act, r) {
      if r.service != input.appLabel { MidListed(cs, input, reply, r); }
    }
    ListingDistinct(Created(cs, input, reply), listing);
  }

  lemma DeployGiven(h: Host, act: Act, h': Host, cfg: Settings) returns (routes: seq<Route>)
    requires act.Deploy? && Acts(h, act, h', cfg) && AllStamped(h.containers) && Reloaded(act)
    ensures GivenTo(h.containers, act, routes)
    ensures TearingDown.RunsText(h'.caddy, Render(routes, cfg))
  {
    var job, a, o := act.job, act.answers, act.outcome;
    var input := Effective(job, a);
    Deploying.RunningIsRouted(h, h', cfg, job, a, o);
    var mid, current := Created(h.containers, input, a.reply), CurrentRoute(input, a.reply.id, a.reply.port);
    var listing :| Listing(mid, listing) && Deploying.RoutedBy(listing, h'.caddy, cfg, current);
    routes := RoutesFor(listing, current);
    AppliedGiven(h.containers, act, input, listing);
  }

  lemma TeardownGiven(h: Host, act: Act, h': Host, cfg: Settings) returns (routes: seq<Route>)
    requires act.Teardown? && Acts(h, act, h', cfg) && AllStamped(h.containers) && Reloaded(act)
    ensures GivenTo(h.containers, act, routes)
    ensures TearingDown.RunsText(h'.caddy, Render(routes, cfg))
  {
    routes := TearingDown.TeardownListing(h, h', cfg, act.key, act.network, act.told, act.result);
    TearingDown.TeardownKeepsOthers(h, h', cfg, act.key, act.network, act.told, act.result);
    ActStamped(h, act, h', cfg);
    ListingDistinct(h'.containers, routes);
    forall r ensures r in routes <==> Given(h.containers, act, r) {
      if r.service != act.key { ActSameListed(h, act, h', cfg, r.service); }
      if r in routes { ListedLabel(h'.containers, r); }
    }
  }

  lemma ActGiven(h: Host, act: Act, h': Host, cfg: Settings) returns (routes: seq<Route>)
    requires Acts(h, act, h', cfg) && AllStamped(h.containers) && Reloaded(act)
    ensures GivenTo(h.containers, act, routes)
    ensures TearingDown.RunsText(h'.caddy, Render(routes, cfg))
  {
    if act.Deploy? { routes := DeployGiven(h, act, h', cfg); } else { routes := TeardownGiven(h, act, h', cfg); }
  }

  lemma NotReloaded(h: Host, act: Act, h': Host, cfg: Settings)
    requires Acts(h, act, h', cfg) && "" !in h.containers && !Reloaded(act)
    ensures h'.caddy.loaded == h.caddy.loaded
  {
    match act
    case Deploy(job, a, o) => if o.Failed? { Deploying.FailureKeeps(h, h', cfg, job, a, o); }
    case Teardown(key, network, a, o) => TearingDown.TeardownKeepsOthers(h, h', cfg, key, network, a, o);
  }

  // ---- Hosts ----

  /** The route wins its label among those the attempt gives Caddy. */
  ghost predicate GivenWinner(cs: Containers, act: Act, x: Route) {
    Given(cs, act, x) && forall r: Route | r.service == x.service && Given(cs, act, r) :: TieBreak(x, r) >= 0
  }

  /** After an attempt that had Caddy reload, the hosts served are exactly the generated names of the winners
      among the running containers: custom domains are gone until the next sync. */
  lemma OnlyGeneratedHosts(h: Host, act: Act, h': Host, cfg: Settings, n: string)
    requires cfg.Valid() && AllStamped(h.containers) && Acts(h, act, h', cfg) && Reloaded(act)
    ensures ServesHost(h', cfg, n) <==>
              exists x :: GivenWinner(h.containers, act, x) && n == GeneratedName(HostLabel(x), cfg)
  {
    var routes := ActGiven(h, act, h', cfg);
    StampedSane(routes);
    HostsServedExactly(h', cfg, routes, n);
    forall x ensures x in routes && Wins(x, routes) <==> GivenWinner(h.containers, act, x) {
      WinsGiven(h.containers, act, routes, x);
    }
  }

  lemma WinsGiven(cs: Containers, act: Act, routes: seq<Route>, x: Route)
    requires GivenTo(cs, act, routes)
    ensures Wins(x, routes) <==> GivenWinner(cs, act, x)
  {
    if Wins(x, routes) {
      forall r: Route | r.service == x.service && Given(cs, act, r) ensures TieBreak(x, r) >= 0 { assert r in routes; }
    }
  }

  /** Whatever an attempt does when Caddy reloads, the generated address of a host label is forwarded to a
      port exactly when some winner has that host and every winner that does has that port. */
  lemma ReloadForwardsExactly(h: Host, act: Act, h': Host, cfg: Settings, l: string, port: int)
    requires cfg.Valid() && AllStamped(h.containers) && Acts(h, act, h', cfg) && Reloaded(act)
    ensures Forwards(h', cfg, l, port) <==>
              && (exists x :: GivenWinner(h.containers, act, x) && HostLabel(x) == l)
              && (forall x | GivenWinner(h.containers, act, x) && HostLabel(x) == l :: x.port == port)
  {
    var routes := ActGiven(h, act, h', cfg);
    StampedSane(routes);
    ForwardsExactly(h', cfg, routes, l, port);
    forall x ensures Claimant(routes, cfg, l, x) <==> GivenWinner(h.containers, act, x) && HostLabel(x) == l {
      WinsGiven(h.containers, act, routes, x);
    }
  }

  /** x is the one winner with its host. */
  lemma SoleReloaded(h: Host, act: Act, h': Host, cfg: Settings, x: Route)
    requires cfg.Valid() && AllStamped(h.containers) && Acts(h, act, h', cfg) && Reloaded(act)
    requires GivenWinner(h.containers, act, x)
    requires forall y | GivenWinner(h.containers, act, y) && HostLabel(y) == HostLabel(x) :: y == x
    ensures Forwards(h', cfg, HostLabel(x), x.port)
    ensures forall port :: Forwards(h', cfg, HostLabel(x), port) <==> port == x.port
  {
    forall port ensures Forwards(h', cfg, HostLabel(x), port) <==> port == x.port {
      ReloadForwardsExactly(h, act, h', cfg, HostLabel(x), port);
    }
  }

  // ---- Other labels' addresses ----

  /** x wins label p among the running containers. */
  ghost predicate TopIn(cs: Containers, p: string, x: Route) {
    && Listed(cs, x) && x.service == p
    && forall c: Route | c.service == p && Listed(cs, c) :: TieBreak(x, c) >= 0
  }

  /** Only containers of label k have the host l. */
  ghost predicate SoleHost(cs: Containers, k: string, l: string) {
    forall r | Listed(cs, r) && HostLabel(r) == l :: r.service == k
  }

  lemma ProductionHost(cs: Containers, p: string)
    requires AllStamped(cs) && PreviewNames.IsUuid(p)
    ensures SoleHost(cs, p, p)
    ensures forall r | Listed(cs, r) && r.service == p :: HostLabel(r) == p
  {
    forall r | Listed(cs, r) && HostLabel(r) == p ensures r.service == p { SaneLabels(r); }
  }

  lemma TieUnique(cs: Containers, k: string, x: Route, y: Route)
    requires TopIn(cs, k, x) && TopIn(cs, k, y)
    ensures x == y
  {
    TieBreakTotal(x, y);
  }

  lemma OthersWinner(cs: Containers, act: Act, k: string, x: Route)
    requires ActKey(act) != k && (OwnRoute(act).Some? ==> OwnRoute(act).value.service == ActKey(act)) && x.service == k
    ensures GivenWinner(cs, act, x) <==> TopIn(cs, k, x)
  {
  }

  /** An attempt of another label and host that had Caddy reload leaves the address of a container that alone
      has its host forwarded to the winner among the containers of its label. So it keeps the port exactly when
      Caddy was already forwarding there: a container that a deploy could not remove may win the address back. */
  lemma OthersForwardToWinner(h: Host, act: Act, h': Host, cfg: Settings, k: string, x: Route)
    requires cfg.Valid() && AllStamped(h.containers) && Acts(h, act, h', cfg) && Reloaded(act)
    requires ActApart(act, k, HostLabel(x)) && TopIn(h.containers, k, x) && SoleHost(h.containers, k, HostLabel(x))
    ensures Forwards(h', cfg, HostLabel(x), x.port)
    ensures forall port :: Forwards(h', cfg, HostLabel(x), port) <==> port == x.port
  {
    OthersWinner(h.containers, act, k, x);
    forall y | GivenWinner(h.containers, act, y) && HostLabel(y) == HostLabel(x) ensures y == x {
      OthersWinner(h.containers, act, k, y);
      TieUnique(h.containers, k, x, y);
    }
    SoleReloaded(h, act, h', cfg, x);
  }

  lemma SoleHostKept(h: Host, act: Act, h': Host, cfg: Settings, k: string, l: string)
    requires Acts(h, act, h', cfg) && AllStamped(h.containers) && SoleHost(h.containers, k, l)
    requires ActKey(act) != k ==> ActHost(act) != Some(l)
    ensures SoleHost(h'.containers, k, l)
  {
    ActOnlyOf(h, act, h', cfg);
    forall r | Listed(h'.containers, r) && HostLabel(r) == l ensures r.service == k {
      match act
      case Deploy(job, a, o) => DeployStamped(h, h', cfg, job, a, o, r);
      case Teardown(key, network, a, o) =>
        StoppedUnlisted(h.containers[r.container], r.container);
        assert Listed(h.containers, r);
    }
  }

  /** An attempt of another label and host either has Caddy reload or leaves what it forwards alone; the
      label's containers and their winner stay in any case. */
  lemma OthersKeepAddress(h: Host, act: Act, h': Host, cfg: Settings, k: string, x: Route)
    requires cfg.Valid() && AllStamped(h.containers) && Acts(h, act, h', cfg)
    requires ActApart(act, k, HostLabel(x)) && TopIn(h.containers, k, x) && SoleHost(h.containers, k, HostLabel(x))
    requires Forwards(h, cfg, HostLabel(x), x.port)
    ensures AllStamped(h'.containers) && TopIn(h'.containers, k, x) && SoleHost(h'.containers, k, HostLabel(x))
    ensures Forwards(h', cfg, HostLabel(x), x.port)
  {
    ActStamped(h, act, h', cfg);
    ActSameListed(h, act, h', cfg, k);
    SoleHostKept(h, act, h', cfg, k, HostLabel(x));
    if Reloaded(act) { OthersForwardToWinner(h, act, h', cfg, k, x); } else { NotReloaded(h, act, h', cfg); }
  }

  /** Previews join and remove networks of their own only. */
  lemma EnvironmentNetworksStay(h: Host, act: Act, h': Host, cfg: Settings, environment: string)
    requires Acts(h, act, h', cfg) && PreviewAct(act) && PreviewNames.IsUuid(environment)
    ensures var n := PreviewNames.EnvironmentNetwork(environment); n in h'.networks <==> n in h.networks
  {
    PreviewNames.NetworksApart(ActKey(act), ActKey(act), environment);
  }

  // ---- A label's own deploys ----

  /** A public container of a production or a preview row, whose auth pair is whole. */
  predicate PublicInput(input: RunInput) {
    StampedInput(input) && input.public && input.deployment != "" && (input.authUser == "" <==> input.authHash == "")
  }

  /** A container of the label that was listed before and is as it was. */
  predicate LeftOver(cs: Containers, after: Containers, k: string, r: Route) {
    r.service == k && Listed(cs, r) && r.container in after && after[r.container] == cs[r.container]
  }

  lemma OwnListed(cs: Containers, input: RunInput, reply: RunReply, after: Containers, r: Route)
    requires PublicInput(input) && ReplyOk(cs, reply) && reply.Up? && r.service == input.appLabel
    requires Shrunk(Created(cs, input, reply), after, input.appLabel, reply.id)
    ensures Listed(after, r) <==>
              r == CurrentRoute(input, reply.id, reply.port) || LeftOver(cs, after, input.appLabel, r)
  {
    CreatedRoute(input, reply, false);
    LabelsRoundTrip(input, reply.id, reply.port);
    if r.container in after && r.container != reply.id { StoppedUnlisted(cs[r.container], r.container); }
  }

  /** After a public deploy of a label that alone has its host came up, its address is forwarded to the new
      container, whatever else is left. The new container is also the winner, so that attempts of other labels
      leave the address there, exactly when it wins over every container of the label that could not be removed. */
  lemma OwnDeployForwards(h: Host, h': Host, cfg: Settings, job: Job, a: Answers, o: DeployOutcome, x: Route)
    requires cfg.Valid() && AllStamped(h.containers) && PublicInput(job.input) && o.Running?
    requires ReplyOk(h.containers, a.reply) && Deployed(h, h', cfg, job, a, o)
    requires SoleHost(h.containers, job.input.appLabel, HostLabel(CurrentRoute(job.input, "", 1)))
    requires a.reply.Up? ==> x == CurrentRoute(job.input, a.reply.id, a.reply.port)
    ensures AllStamped(h'.containers) && a.reply.Up?
    ensures forall port :: Forwards(h', cfg, HostLabel(x), port) <==> port == a.reply.port
    ensures TopIn(h'.containers, job.input.appLabel, x) <==>
              forall r | LeftOver(h.containers, h'.containers, job.input.appLabel, r) :: TieBreak(x, r) >= 0
    ensures o.retired ==> forall r :: !LeftOver(h.containers, h'.containers, job.input.appLabel, r)
  {
    var act, input := Deploy(job, a, o), Effective(job, a);
    Deploying.RunningRetires(h, h', cfg, job, a, o);
    ActStamped(h, act, h', cfg);
    OwnWins(h.containers, act);
    SoleReloaded(h, act, h', cfg, x);
    NewTop(h.containers, input, a.reply, h'.containers);
    if o.retired { NoLeftOver(h.containers, input, a.reply, h'.containers); }
  }

  /** The route an attempt adds is the only one of its label that Caddy is given. */
  lemma OwnWins(cs: Containers, act: Act)
    requires OwnRoute(act).Some? && SoleHost(cs, ActKey(act), HostLabel(OwnRoute(act).value))
    ensures GivenWinner(cs, act, OwnRoute(act).value)
    ensures forall y | GivenWinner(cs, act, y) && HostLabel(y) == HostLabel(OwnRoute(act).value) ::
              y == OwnRoute(act).value
  {
    TieBreakTotal(OwnRoute(act).value, OwnRoute(act).value);
  }

  lemma NewTop(cs: Containers, input: RunInput, reply: RunReply, after: Containers)
    requires PublicInput(input) && ReplyOk(cs, reply) && reply.Up?
    requires Shrunk(Created(cs, input, reply), after, input.appLabel, reply.id)
    ensures var x := CurrentRoute(input, reply.id, reply.port);
            TopIn(after, input.appLabel, x) <==>
              forall r | LeftOver(cs, after, input.appLabel, r) :: TieBreak(x, r) >= 0
  {
    var x := CurrentRoute(input, reply.id, reply.port);
    TieBreakTotal(x, x);
    forall r: Route | r.service == input.appLabel
      ensures Listed(after, r) <==> r == x || LeftOver(cs, after, input.appLabel, r)
    {
      OwnListed(cs, input, reply, after, r);
    }
  }

  lemma NoLeftOver(cs: Containers, input: RunInput, reply: RunReply, after: Containers)
    requires reply.Up? && reply.id !in cs && NoneLeft(after, input.appLabel, reply.id)
    ensures forall r :: !LeftOver(cs, after, input.appLabel, r)
  {
    forall r ensures !LeftOver(cs, after, input.appLabel, r) {
      if Listed(cs, r) { ListedLabel(cs, r); }
    }
  }

  // ---- The password of a label's own address ----

  function OwnName(input: RunInput, cfg: Settings): string {
    Lower(TrimSpace(if input.routeHost == "" then input.appLabel else input.routeHost)) + "."
    + Lower(TrimSpace(cfg.baseDomain))
  }

  function AtPort(host: string, cfg: Settings): string {
    if cfg.httpPort == 80 then "http://" + host else "http://" + host + ":" + Itoa(cfg.httpPort)
  }

  /** After a public deploy of a label that alone has its host came up, a site is loaded at its address, and every
      site there asks for the pair the job was given, or for none if it was given none, and leads to the port
      the new container publishes. */
  lemma OwnDeployGuarded(h: Host, h': Host, cfg: Settings, job: Job, a: Answers, o: DeployOutcome)
    requires cfg.Valid() && AllStamped(h.containers) && PublicInput(job.input) && o.Running?
    requires ReplyOk(h.containers, a.reply) && Deployed(h, h', cfg, job, a, o)
    requires SoleHost(h.containers, job.input.appLabel, HostLabel(CurrentRoute(job.input, "", 1)))
    ensures a.reply.Up? && exists s | s in LoadedSites(h') :: s.address == AtPort(OwnName(job.input, cfg), cfg)
    ensures forall s | s in LoadedSites(h') && s.address == AtPort(OwnName(job.input, cfg), cfg) ::
              && s.port == a.reply.port
              && s.auth == if job.input.authUser == "" then None else Some((job.input.authUser, job.input.authHash))
  {
    var act := Deploy(job, a, o);
    var routes := ActGiven(h, act, h', cfg);
    Deploying.RunningRetires(h, h', cfg, job, a, o);
    var own := OwnRoute(act).value;
    OwnNamed(job.input, own, cfg);
    OwnDeployForwards(h, h', cfg, job, a, o, CurrentRoute(job.input, a.reply.id, a.reply.port));
    assert Forwards(h', cfg, HostLabel(own), a.reply.port);
    forall s | s in LoadedSites(h') && s.address == AtPort(OwnName(job.input, cfg), cfg)
      ensures s.port == a.reply.port
      ensures s.auth == if job.input.authUser == "" then None else Some((job.input.authUser, job.input.authHash))
    {
      OwnAt(h, act, h', routes, cfg, s, own);
    }
  }

  lemma OwnAt(h: Host, act: Act, h': Host, routes: seq<Route>, cfg: Settings, s: Site, own: Route)
    requires cfg.Valid() && GivenTo(h.containers, act, routes)
    requires TearingDown.RunsText(h'.caddy, Render(routes, cfg))
    requires OwnRoute(act) == Some(own) && own.service == ActKey(act)
    requires SoleHost(h.containers, ActKey(act), HostLabel(own))
    requires s in LoadedSites(h') && s.address == AddressOf(HostLabel(own), cfg)
    ensures s.port == own.port
    ensures s.auth == if own.authUser == "" || own.authHash == "" then None else Some((own.authUser, own.authHash))
  {
    var r := GivenAt(h.containers, act, h', routes, cfg, s, HostLabel(own));
  }

  lemma OwnNamed(input: RunInput, own: Route, cfg: Settings)
    requires StampedInput(input) && own.port >= 0 && own == CurrentRoute(input, own.container, own.port)
    ensures AtPort(OwnName(input, cfg), cfg) == AddressOf(HostLabel(own), cfg)
  {
    SaneLabels(own);
  }

  /** A site at the generated address of a label is a given route's, and asks for that route's pair. */
  lemma GivenAt(cs: Containers, act: Act, h': Host, routes: seq<Route>, cfg: Settings, s: Site, l: string)
    returns (r: Route)
    requires cfg.Valid() && GivenTo(cs, act, routes) && TearingDown.RunsText(h'.caddy, Render(routes, cfg))
    requires s in LoadedSites(h') && s.address == AddressOf(l, cfg)
    ensures Given(cs, act, r) && HostLabel(r) == l && s.port == r.port
    ensures s.auth == if r.authUser == "" || r.authHash == "" then None else Some((r.authUser, r.authHash))
  {
    var n;
    r, n := Sites.Behind(routes, cfg, s);
    SaneLabels(r);
    AddressApart(n, GeneratedName(l, cfg), cfg.httpPort);
    SameHead(HostLabel(r), l, ".", Folded(cfg.baseDomain));
  }
}
