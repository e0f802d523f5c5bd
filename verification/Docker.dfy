/** Containers as the agent sees them through the Docker API: the labels it stamps, the listing it
    rebuilds routes from, and the loops that remove containers by label. */
module Docker {
  import opened Text
  import opened Routes

  datatype Binding = Binding(private: nat, public: nat, tcp: bool)

  /** The labels the agent stamps on a container, and any other. */
  datatype Label = MANAGED | SERVICE | DEPLOYMENT | AUTH_USER | AUTH_HASH | ROUTE_HOST | Other(name: string)

  datatype Container = Container(labels: map<Label, string>, running: bool, ports: seq<Binding>)

  type Containers = map<string, Container>

  datatype RunInput = RunInput(
    appLabel: string, deployment: string, public: bool, containerPort: nat, network: string,
    authUser: string, authHash: string, routeHost: string)

  // ---- Labels ----

  function Value(c: Container, key: Label): string {
    if key in c.labels then c.labels[key] else ""
  }

  method ContainerLabels(input: RunInput) returns (labels: map<Label, string>)
    ensures forall c: Container | c.labels == labels ::
              && Value(c, MANAGED) == "true"
              && Value(c, SERVICE) == input.appLabel && SERVICE in labels
              && Value(c, DEPLOYMENT) == input.deployment
              && Value(c, ROUTE_HOST) == input.routeHost
              && Value(c, AUTH_USER) == (if input.authUser != "" && input.authHash != "" then input.authUser else "")
              && Value(c, AUTH_HASH) == (if input.authUser != "" && input.authHash != "" then input.authHash else "")
    ensures labels == Labels(input)
  {
    labels := map[MANAGED := "true", SERVICE := input.appLabel, DEPLOYMENT := input.deployment];
    if input.authUser != "" && input.authHash != "" {
      labels := labels[AUTH_USER := input.authUser];
      labels := labels[AUTH_HASH := input.authHash];
    }
    if input.routeHost != "" {
      labels := labels[ROUTE_HOST := input.routeHost];
    }
  }

  function Labels(input: RunInput): map<Label, string> {
    var base := map[MANAGED := "true", SERVICE := input.appLabel, DEPLOYMENT := input.deployment];
    var withAuth :=
      if input.authUser == "" || input.authHash == "" then base
      else base[AUTH_USER := input.authUser][AUTH_HASH := input.authHash];
    if input.routeHost != "" then withAuth[ROUTE_HOST := input.routeHost] else withAuth
  }

  // ---- Published ports ----

  predicate Published(p: Binding) { p.tcp && p.public != 0 }

  /** The binding firstPublishedTCPPort settles on. */
  function Chosen(ports: seq<Binding>): Option<Binding> {
    if ports == [] then None
    else
      var best, p := Chosen(ports[..|ports| - 1]), ports[|ports| - 1];
      if !Published(p) then best
      else if best.None? || best.value.private == 0 || p.private < best.value.private then Some(p)
      else best
  }

  function FirstPublished(ports: seq<Binding>): nat {
    match Chosen(ports) case None => 0 case Some(p) => p.public
  }

  method FirstPublishedTCPPort(ports: seq<Binding>) returns (port: nat)
    ensures port == FirstPublished(ports)
  {
    var chosenPrivate, chosenPublic := 0, 0;
    for n := 0 to |ports|
      invariant match Chosen(ports[..n])
                case None => chosenPrivate == 0 && chosenPublic == 0
                case Some(p) => chosenPrivate == p.private && chosenPublic == p.public
    {
      assert ports[..n + 1][..n] == ports[..n];
      var p := ports[n];
      if !p.tcp || p.public == 0 { continue; }
      if chosenPrivate == 0 || p.private < chosenPrivate {
        chosenPrivate, chosenPublic := p.private, p.public;
      }
    }
    assert ports[..|ports|] == ports;
    return chosenPublic;
  }

  /** The port is that of a published TCP binding with the lowest private port, and 0 exactly when
      there is none. */
  lemma {:induction false} FirstPublishedExact(ports: seq<Binding>)
    requires forall p | p in ports :: p.private > 0
    ensures FirstPublished(ports) == 0 <==> forall p | p in ports :: !Published(p)
    ensures FirstPublished(ports) != 0 ==> exists p | p in ports ::
              Published(p) && p.public == FirstPublished(ports) && forall q | q in ports && Published(q) ::
                p.private <= q.private
    ensures Chosen(ports).Some? ==> Chosen(ports).value in ports && Published(Chosen(ports).value)
    ensures Chosen(ports).Some? ==> forall q | q in ports && Published(q) :: Chosen(ports).value.private <= q.private
  {
    if ports != [] {
      var init, last := ports[..|ports| - 1], ports[|ports| - 1];
      FirstPublishedExact(init);
      assert ports == init + [last];
    }
  }

  // ---- Routes from Docker truth ----

  /** The route a listed container stands for: it must run, carry the agent's labels and publish a port. */
  function RouteOf(id: string, c: Container): Option<Route> {
    if !c.running || Value(c, MANAGED) != "true" then None
    else if Value(c, SERVICE) == "" || Value(c, DEPLOYMENT) == "" || FirstPublished(c.ports) == 0 then None
    else Some(Route(Value(c, SERVICE), Value(c, DEPLOYMENT), id, FirstPublished(c.ports), [],
                    Value(c, AUTH_USER), Value(c, AUTH_HASH), Value(c, ROUTE_HOST)))
  }

  predicate Listed(cs: Containers, r: Route) {
    r.container in cs && RouteOf(r.container, cs[r.container]) == Some(r)
  }

  /** routes is a listing of the managed routes of cs, in any order. */
  ghost predicate Listing(cs: Containers, routes: seq<Route>) {
    forall r :: r in routes <==> Listed(cs, r)
  }

  /** A route is listed for exactly those containers that run, are managed, carry a service and a deployment and
      publish a TCP port: with their labels, and the public side of their lowest published private port. */
  lemma ListedExactly(cs: Containers, r: Route)
    requires r.container in cs && forall p | p in cs[r.container].ports :: p.private > 0
    ensures var c := cs[r.container];
            Listed(cs, r) <==>
              && c.running && MANAGED in c.labels && c.labels[MANAGED] == "true"
              && SERVICE in c.labels && c.labels[SERVICE] == r.service && r.service != ""
              && DEPLOYMENT in c.labels && c.labels[DEPLOYMENT] == r.deployment && r.deployment != ""
              && r.port == FirstPublished(c.ports) && (exists p | p in c.ports :: p.tcp && p.public != 0)
              && r.customHosts == []
              && r.authUser == (if AUTH_USER in c.labels then c.labels[AUTH_USER] else "")
              && r.authHash == (if AUTH_HASH in c.labels then c.labels[AUTH_HASH] else "")
              && r.routeHost == (if ROUTE_HOST in c.labels then c.labels[ROUTE_HOST] else "")
  {
    FirstPublishedExact(cs[r.container].ports);
  }

  lemma ListingDistinct(cs: Containers, routes: seq<Route>)
    requires Listing(cs, routes)
    ensures DistinctContainers(routes)
  {
  }

  /** listManagedRoutes: the daemon lists containers in an order of its own. */
  method ListManagedRoutes(cs: Containers) returns (routes: seq<Route>)
    ensures Listing(cs, routes)
    ensures forall i, j | 0 <= i < j < |routes| :: routes[i].container != routes[j].container
  {
    routes := [];
    var left := cs.Keys;
    while left != {}
      invariant left <= cs.Keys
      invariant forall r :: r in routes <==> Listed(cs, r) && r.container !in left
      invariant forall i, j | 0 <= i < j < |routes| :: routes[i].container != routes[j].container
      decreases left
    {
      var id :| id in left;
      var c := cs[id];
      var port := FirstPublishedTCPPort(c.ports);
      if c.running && Value(c, MANAGED) == "true"
         && Value(c, SERVICE) != "" && Value(c, DEPLOYMENT) != "" && port != 0 {
        var r := Route(Value(c, SERVICE), Value(c, DEPLOYMENT), id, port, [],
                       Value(c, AUTH_USER), Value(c, AUTH_HASH), Value(c, ROUTE_HOST));
        assert RouteOf(id, c) == Some(r);
        assert forall i | 0 <= i < |routes| :: routes[i] in routes;
        routes := routes + [r];
      } else {
        assert RouteOf(id, c) == None;
      }
      left := left - {id};
    }
  }

  /** Containers can be listed. */
  lemma {:induction false} SomeListing(cs: Containers) returns (routes: seq<Route>)
    ensures Listing(cs, routes)
    decreases |cs|
  {
    if |cs| == 0 {
      assert cs.Keys == {};
      routes := [];
    } else {
      var id :| id in cs;
      assert (cs - {id}).Keys == cs.Keys - {id};
      assert |(cs - {id}).Keys| < |cs.Keys|;
      var rest := SomeListing(cs - {id});
      routes := rest + if RouteOf(id, cs[id]).Some? then [RouteOf(id, cs[id]).value] else [];
    }
  }

  /** The route the agent builds for the container it just started. */
  function CurrentRoute(input: RunInput, id: string, port: nat): Route {
    Route(input.appLabel, input.deployment, id, port, [], input.authUser, input.authHash, input.routeHost)
  }

  /** A route with a half-set auth pair blanked, as the labels store it. */
  function BothOrNone(r: Route): Route {
    if r.authUser != "" && r.authHash != "" then r else r.(authUser := "", authHash := "")
  }

  function Started(input: RunInput, port: nat): Container {
    Container(Labels(input), true, if input.public then [Binding(input.containerPort, port, true)] else [])
  }

  /** Reading the labels back gives the route that was deployed, up to a half-set auth pair. */
  lemma LabelsRoundTrip(input: RunInput, id: string, port: nat)
    requires input.public && port != 0 && input.appLabel != "" && input.deployment != ""
    ensures RouteOf(id, Started(input, port)) == Some(BothOrNone(CurrentRoute(input, id, port)))
  {
    var c := Started(input, port);
    assert c.ports[..|c.ports| - 1] == [];
    assert Chosen(c.ports) == Some(Binding(input.containerPort, port, true));
    assert FirstPublished(c.ports) == port;
  }

  /** A private container is never listed. */
  lemma PrivateUnlisted(input: RunInput, id: string, port: nat)
    requires !input.public
    ensures RouteOf(id, Started(input, port)) == None
  {
  }

  // ---- Removal ----

  /** Docker's label filter on the service label. */
  predicate HasLabel(c: Container, appLabel: string) { SERVICE in c.labels && c.labels[SERVICE] == appLabel }

  predicate Spared(c: Container, id: string, appLabel: string, keep: string) { !HasLabel(c, appLabel) || id == keep }

  /** after is before with some containers of the label removed, or stopped by a removal that failed;
      keep and every container of another label is as it was. */
  predicate Shrunk(before: Containers, after: Containers, appLabel: string, keep: string) {
    && after.Keys <= before.Keys
    && (forall id | id in before && Spared(before[id], id, appLabel, keep) :: id in after && after[id] == before[id])
    && (forall id | id in after :: after[id] == before[id] || after[id] == before[id].(running := false))
  }

  predicate NoneLeft(cs: Containers, appLabel: string, keep: string) {
    forall id | id in cs :: Spared(cs[id], id, appLabel, keep)
  }

  lemma ShrunkTransitive(a: Containers, b: Containers, c: Containers, appLabel: string, keep: string)
    requires Shrunk(a, b, appLabel, keep) && Shrunk(b, c, appLabel, keep)
    ensures Shrunk(a, c, appLabel, keep)
  {
  }

  lemma ShrunkAll(before: Containers, after: Containers, appLabel: string, keep: string)
    requires Shrunk(before, after, appLabel, keep) && NoneLeft(after, appLabel, keep)
    ensures after == map id | id in before && Spared(before[id], id, appLabel, keep) :: before[id]
  {
    forall id | id in after ensures id in before && Spared(before[id], id, appLabel, keep) {
      assert before[id].labels == after[id].labels;
    }
  }
}
