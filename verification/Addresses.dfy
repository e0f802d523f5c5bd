/** The addresses of a rendered configuration: when no two sites have one. */
module Addresses {
  import opened Text
  import opened Routes
  import opened Caddyfile
  import Hostnames
  import Forwarding

  predicate Distinct(xs: seq<string>) { forall i, j | 0 <= i < j < |xs| :: xs[i] != xs[j] }

  predicate Apart(a: seq<string>, b: seq<string>) { forall x | x in a :: x !in b }

  lemma DistinctConcat(a: seq<string>, b: seq<string>)
    ensures Distinct(a + b) <==> Distinct(a) && Distinct(b) && Apart(a, b)
  {
    var ab := a + b;
    if Distinct(ab) {
      forall i, j | 0 <= i < j < |a| ensures a[i] != a[j] { assert ab[i] != ab[j]; }
      forall i, j | 0 <= i < j < |b| ensures b[i] != b[j] { assert ab[|a| + i] != ab[|a| + j]; }
      forall i, j | 0 <= i < |a| && 0 <= j < |b| ensures a[i] != b[j] { assert ab[i] != ab[|a| + j]; }
    }
    if Distinct(a) && Distinct(b) && Apart(a, b) {
      forall i, j | 0 <= i < j < |ab| ensures ab[i] != ab[j] {
        if j < |a| {
          assert ab[i] == a[i] && ab[j] == a[j];
        } else if |a| <= i {
          assert ab[i] == b[i - |a|] && ab[j] == b[j - |a|];
        } else {
          assert a[i] in a && b[j - |a|] in b;
        }
      }
    }
  }

  function Join(groups: seq<seq<string>>): seq<string> {
    if groups == [] then [] else Join(groups[..|groups| - 1]) + groups[|groups| - 1]
  }

  /** Each group is distinct, and no two groups share a name. */
  predicate GroupsApart(groups: seq<seq<string>>) {
    && (forall i | 0 <= i < |groups| :: Distinct(groups[i]))
    && (forall i, j | 0 <= i < j < |groups| :: Apart(groups[i], groups[j]))
  }

  lemma {:induction false} JoinApart(groups: seq<seq<string>>, names: seq<string>)
    ensures Apart(Join(groups), names) <==> forall i | 0 <= i < |groups| :: Apart(groups[i], names)
  {
    if groups != [] {
      var n := |groups| - 1;
      JoinApart(groups[..n], names);
      assert forall i | 0 <= i < n :: groups[..n][i] == groups[i];
    }
  }

  lemma {:induction false} JoinDistinct(groups: seq<seq<string>>)
    ensures Distinct(Join(groups)) <==> GroupsApart(groups)
  {
    if groups != [] {
      var n := |groups| - 1;
      JoinDistinct(groups[..n]);
      DistinctConcat(Join(groups[..n]), groups[n]);
      JoinApart(groups[..n], groups[n]);
      GroupsNext(groups, n);
    }
  }

  lemma GroupsNext(groups: seq<seq<string>>, n: nat)
    requires |groups| == n + 1
    ensures GroupsApart(groups) <==>
              && GroupsApart(groups[..n]) && Distinct(groups[n])
              && forall i | 0 <= i < n :: Apart(groups[..n][i], groups[n])
  {
    assert forall i | 0 <= i < n :: groups[..n][i] == groups[i];
  }

  /** The host a route is given by its label. */
  function OwnHost(y: Route, cfg: Settings): Option<string> { RouteHost(HostLabel(y), cfg.baseDomain) }

  /** The hosts of one normalised route, and of several. */
  function HostsEach(y: Route, cfg: Settings): seq<string> {
    match OwnHost(y, cfg) case None => [] case Some(host) => [host] + y.customHosts
  }

  function Groups(ws: seq<Route>, cfg: Settings): seq<seq<string>> {
    seq(|ws|, i requires 0 <= i < |ws| => HostsEach(ws[i], cfg))
  }

  function HostsOf(ws: seq<Route>, cfg: Settings): seq<string> { Join(Groups(ws, cfg)) }

  lemma HostsNext(ws: seq<Route>, cfg: Settings)
    requires ws != []
    ensures HostsOf(ws, cfg) == HostsOf(ws[..|ws| - 1], cfg) + HostsEach(ws[|ws| - 1], cfg)
  {
    assert Groups(ws, cfg)[..|ws| - 1] == Groups(ws[..|ws| - 1], cfg);
  }

  /** The sites are at the hosts, one each, in order. */
  predicate At(sites: seq<Site>, hosts: seq<string>, port: nat) {
    |sites| == |hosts| && forall i | 0 <= i < |sites| :: sites[i].address == SiteAddress(hosts[i], port)
  }

  lemma AtConcat(s: seq<Site>, a: seq<string>, t: seq<Site>, b: seq<string>, port: nat)
    requires At(s, a, port) && At(t, b, port)
    ensures At(s + t, a + b, port)
  {
    forall i | 0 <= i < |s + t| ensures (s + t)[i].address == SiteAddress((a + b)[i], port) {
      if i < |s| {
        assert (s + t)[i] == s[i] && (a + b)[i] == a[i];
      } else {
        assert (s + t)[i] == t[i - |s|] && (a + b)[i] == b[i - |a|];
      }
    }
  }

  lemma {:induction false} SitesAtHosts(hosts: seq<string>, r: Route, port: nat)
    requires r.port >= 0
    ensures At(SitesAt(hosts, r, port), hosts, port)
  {
    if hosts != [] { SitesAtHosts(hosts[..|hosts| - 1], r, port); }
  }

  lemma AddedSites(before: Option<seq<Site>>, r: Route, cfg: Settings)
    requires r.port >= 0 && AddSites(before, r, cfg).Some?
    ensures before.Some? && OwnHost(r, cfg).Some?
    ensures AddSites(before, r, cfg).value == before.value + SitesAt(HostsEach(r, cfg), r, cfg.httpPort)
  {
  }

  lemma SitesStep(before: seq<Site>, hosts: seq<string>, r: Route, cfg: Settings, sites: seq<Site>)
    requires r.port >= 0 && At(before, hosts, cfg.httpPort) && AddSites(Some(before), r, cfg) == Some(sites)
    ensures At(sites, hosts + HostsEach(r, cfg), cfg.httpPort) && OwnHost(r, cfg).Some?
  {
    AddedSites(Some(before), r, cfg);
    SitesAtHosts(HostsEach(r, cfg), r, cfg.httpPort);
    AtConcat(before, hosts, SitesAt(HostsEach(r, cfg), r, cfg.httpPort), HostsEach(r, cfg), cfg.httpPort);
  }

  lemma {:induction false} SitesAreAtHosts(ws: seq<Route>, cfg: Settings, sites: seq<Site>)
    requires forall i | 0 <= i < |ws| :: ws[i].port >= 0
    requires SitesOf(ws, cfg) == Some(sites)
    ensures At(sites, HostsOf(ws, cfg), cfg.httpPort)
  {
    if ws != [] {
      var init, last := ws[..|ws| - 1], ws[|ws| - 1];
      SitesAreAtHosts(init, cfg, SitesOf(init, cfg).value);
      SitesStep(SitesOf(init, cfg).value, HostsOf(init, cfg), last, cfg, sites);
      HostsNext(ws, cfg);
    }
  }

  lemma SomeBefore(ws: seq<Route>, cfg: Settings)
    requires forall i | 0 <= i < |ws| :: ws[i].port >= 0
    requires ws != [] && SitesOf(ws, cfg).Some?
    ensures SitesOf(ws[..|ws| - 1], cfg).Some? && OwnHost(ws[|ws| - 1], cfg).Some?
  {
    AddedSites(SitesOf(ws[..|ws| - 1], cfg), ws[|ws| - 1], cfg);
  }

  lemma {:induction false} OwnHostKnown(ws: seq<Route>, cfg: Settings, x: Route)
    requires forall i | 0 <= i < |ws| :: ws[i].port >= 0
    requires SitesOf(ws, cfg).Some? && x in ws
    ensures OwnHost(x, cfg).Some?
  {
    SomeBefore(ws, cfg);
    if x != ws[|ws| - 1] { OwnHostKnown(ws[..|ws| - 1], cfg, x); }
  }

  /** No two of the sites have one address. */
  predicate AddressesDistinct(sites: seq<Site>) {
    forall i, j | 0 <= i < j < |sites| :: sites[i].address != sites[j].address
  }

  lemma SameDistinct(ws: seq<Route>, cfg: Settings, sites: seq<Site>)
    requires forall i | 0 <= i < |ws| :: ws[i].port >= 0
    requires SitesOf(ws, cfg) == Some(sites)
    ensures AddressesDistinct(sites) <==> Distinct(HostsOf(ws, cfg))
  {
    var hosts := HostsOf(ws, cfg);
    SitesAreAtHosts(ws, cfg, sites);
    forall i, j | 0 <= i < j < |sites| ensures sites[i].address == sites[j].address <==> hosts[i] == hosts[j] {
      if sites[i].address == sites[j].address { Forwarding.AddressApart(hosts[i], hosts[j], cfg.httpPort); }
    }
  }

  /** The routes' own hosts differ, and none of them is a custom host of any. */
  predicate OwnHostsApart(ws: seq<Route>, cfg: Settings) {
    && (forall i, j | 0 <= i < j < |ws| :: OwnHost(ws[i], cfg) != OwnHost(ws[j], cfg))
    && (forall i, j | 0 <= i < |ws| && 0 <= j < |ws| && OwnHost(ws[i], cfg).Some? ::
          OwnHost(ws[i], cfg).value !in ws[j].customHosts)
  }

  lemma AscendingDistinct(xs: seq<string>)
    requires Ascending(xs, Hostnames.Self)
    ensures Distinct(xs)
  {
    forall i, j | 0 <= i < j < |xs| ensures xs[i] != xs[j] {
      LessTotal(xs[i], xs[j]);
      LessTotal(xs[i], xs[i]);
    }
  }

  lemma OneApart(host: string, hosts: seq<string>)
    requires Ascending(hosts, Hostnames.Self)
    ensures Distinct([host] + hosts) <==> host !in hosts
  {
    AscendingDistinct(hosts);
    DistinctConcat([host], hosts);
  }

  lemma TwoApart(a: string, x: seq<string>, b: string, y: seq<string>)
    requires Apart(x, y)
    ensures Apart([a] + x, [b] + y) <==> a != b && a !in y && b !in x
  {
    if Apart([a] + x, [b] + y) {
      assert a in [a] + x && b in [b] + y;
      assert a in y ==> a in [b] + y;
      assert b in x ==> b in [a] + x;
    }
  }

  lemma ApartUnlessShared(x: Route, y: Route)
    requires !SharesHost(x, y)
    ensures Apart(x.customHosts, y.customHosts)
  {
  }

  /** Groups of an own name and others: all names are distinct exactly when the own ones differ and are
      nobody's other name, if the others are. */
  lemma OwnNamesApart(own: seq<string>, others: seq<seq<string>>, groups: seq<seq<string>>)
    requires |own| == |others| == |groups| && forall i | 0 <= i < |own| :: groups[i] == [own[i]] + others[i]
    requires forall i | 0 <= i < |own| :: Ascending(others[i], Hostnames.Self)
    requires forall i, j | 0 <= i < j < |own| :: Apart(others[i], others[j])
    ensures GroupsApart(groups) <==>
              && (forall i, j | 0 <= i < j < |own| :: own[i] != own[j])
              && (forall i, j | 0 <= i < |own| && 0 <= j < |own| :: own[i] !in others[j])
  {
    forall i | 0 <= i < |own| ensures Distinct(groups[i]) <==> own[i] !in others[i] { OneApart(own[i], others[i]); }
    forall i, j | 0 <= i < j < |own|
      ensures Apart(groups[i], groups[j]) <==> own[i] != own[j] && own[i] !in others[j] && own[j] !in others[i]
    {
      TwoApart(own[i], others[i], own[j], others[j]);
    }
    if GroupsApart(groups) {
      forall i, j | 0 <= i < |own| && 0 <= j < |own| ensures own[i] !in others[j] {
        assert i < j ==> Apart(groups[i], groups[j]);
        assert j < i ==> Apart(groups[j], groups[i]);
      }
    }
  }

  lemma UnsharedApart(ws: seq<Route>, i: nat, j: nat)
    requires Ascending(ws, ServiceOf) && !Shared(ws) && i < j < |ws|
    ensures Apart(ws[i].customHosts, ws[j].customHosts)
  {
    LessTotal(ws[i].service, ws[j].service);
    LessTotal(ws[i].service, ws[i].service);
    assert !SharesHost(ws[i], ws[j]);
    ApartUnlessShared(ws[i], ws[j]);
  }

  lemma WinnersApart(ws: seq<Route>, cfg: Settings)
    requires Ascending(ws, ServiceOf) && !Shared(ws)
    requires forall i | 0 <= i < |ws| :: OwnHost(ws[i], cfg).Some? && Ascending(ws[i].customHosts, Hostnames.Self)
    ensures GroupsApart(Groups(ws, cfg)) <==> OwnHostsApart(ws, cfg)
  {
    var own := seq(|ws|, i requires 0 <= i < |ws| => OwnHost(ws[i], cfg).value);
    var others := seq(|ws|, i requires 0 <= i < |ws| => ws[i].customHosts);
    forall i, j | 0 <= i < j < |ws| ensures Apart(others[i], others[j]) { UnsharedApart(ws, i, j); }
    OwnNamesApart(own, others, Groups(ws, cfg));
    SameOwnHosts(ws, cfg, own, others);
  }

  lemma SameOwnHosts(ws: seq<Route>, cfg: Settings, own: seq<string>, others: seq<seq<string>>)
    requires |own| == |others| == |ws|
    requires forall i | 0 <= i < |ws| :: OwnHost(ws[i], cfg) == Some(own[i]) && others[i] == ws[i].customHosts
    ensures OwnHostsApart(ws, cfg) <==>
              && (forall i, j | 0 <= i < j < |own| :: own[i] != own[j])
              && (forall i, j | 0 <= i < |own| && 0 <= j < |own| :: own[i] !in others[j])
  {
  }

  /** No two sites of a rendered configuration have one address exactly when the winners' own hosts differ and
      none of them is anybody's custom host. Custom hosts alone are kept apart by the checks on routes; nothing
      keeps own hosts apart. */
  lemma AddressesDistinctExactly(routes: seq<Route>, cfg: Settings)
    requires cfg.Valid() && Render(routes, cfg).Ok? && forall r | r in routes :: AuthReadable(r)
    ensures Normalize(routes).Ok? && Read(Render(routes, cfg).value).Some?
    ensures AddressesDistinct(Read(Render(routes, cfg).value).value) <==> OwnHostsApart(Normalize(routes).value, cfg)
  {
    RenderReadBack(routes, cfg);
    NormalizedPorts(routes);
    var ws := Normalize(routes).value;
    var sites := SitesOf(ws, cfg).value;
    SameDistinct(ws, cfg, sites);
    JoinDistinct(Groups(ws, cfg));
    forall k: nat | k < |ws| ensures OwnHost(ws[k], cfg).Some? { OwnHostKnown(ws, cfg, ws[k]); }
    NormalizedHosts(routes, ws);
    WinnersApart(ws, cfg);
  }

  lemma NormalizedHosts(routes: seq<Route>, ws: seq<Route>)
    requires Normalize(routes) == Ok(ws)
    ensures Ascending(ws, ServiceOf) && !Shared(ws)
    ensures forall i | 0 <= i < |ws| :: Ascending(ws[i].customHosts, Hostnames.Self)
  {
    var cs := CleanAll(routes).value;
    WinnersSound(cs);
    forall i | 0 <= i < |ws| ensures Ascending(ws[i].customHosts, Hostnames.Self) {
      assert ws[i] in Winners(cs) && Wins(ws[i], cs);
      var r := CleanOrigin(routes, ws[i]);
      Hostnames.CustomHostsValid(r.customHosts);
    }
  }
}
