/** Docker truth: the configuration a deploy applied is the one any later listing of the containers
    renders to. */
module Rebuild {
  import opened Text
  import opened Routes
  import opened Caddyfile
  import opened Docker
  import opened Serving
  import opened Attempts
  import Deploying
  import CaddyManager
  import opened RouteSync

  // ---- Rendering ignores a half-set auth pair ----

  function Stored(routes: seq<Route>): seq<Route> {
    if routes == [] then [] else Stored(routes[..|routes| - 1]) + [BothOrNone(routes[|routes| - 1])]
  }

  lemma {:induction false} StoredSound(routes: seq<Route>)
    ensures |Stored(routes)| == |routes|
    ensures forall i | 0 <= i < |routes| :: Stored(routes)[i] == BothOrNone(routes[i])
  {
    if routes != [] { StoredSound(routes[..|routes| - 1]); }
  }

  lemma StoredMembers(routes: seq<Route>)
    ensures forall r :: r in Stored(routes) <==> exists q :: q in routes && r == BothOrNone(q)
  {
    StoredSound(routes);
    forall r | r in Stored(routes) ensures exists q :: q in routes && r == BothOrNone(q) {
      var i :| 0 <= i < |routes| && Stored(routes)[i] == r;
      assert routes[i] in routes;
    }
    forall q | q in routes ensures BothOrNone(q) in Stored(routes) {
      var i :| 0 <= i < |routes| && routes[i] == q;
      assert Stored(routes)[i] in Stored(routes);
    }
  }

  lemma {:induction false} CleanAllStored(routes: seq<Route>)
    ensures CleanAll(Stored(routes)) == match CleanAll(routes) case Ok(cs) => Ok(Stored(cs)) case Err(e) => Err(e)
  {
    if routes != [] {
      var init, last := routes[..|routes| - 1], routes[|routes| - 1];
      CleanAllStored(init);
      assert Stored(routes)[..|Stored(routes)| - 1] == Stored(init);
      assert Stored(routes)[|Stored(routes)| - 1] == BothOrNone(last);
      CleanStored(last);
      if CleanAll(init).Ok? && Clean(last).Ok? {
        var cs, c := CleanAll(init).value, Clean(last).value;
        assert (cs + [c])[..|cs|] == cs;
      }
    }
  }

  lemma CleanStored(r: Route)
    ensures Clean(BothOrNone(r)) == match Clean(r) case Ok(c) => Ok(BothOrNone(c)) case Err(e) => Err(e)
  {
  }

  lemma MergeCons(r: Route, first: Route, rest: seq<Route>)
    ensures Merge(r, [first] + rest) ==
            if Less(r.service, first.service) then [r] + ([first] + rest)
            else if r.service == first.service then [if TieBreak(r, first) > 0 then r else first] + rest
            else [first] + Merge(r, rest)
  {
    assert ([first] + rest)[1..] == rest;
  }

  /** Storing leaves what decides a merge: the label and the tie-break. */
  lemma StoredTie(a: Route, b: Route)
    ensures BothOrNone(a).service == a.service && TieBreak(BothOrNone(a), BothOrNone(b)) == TieBreak(a, b)
  {
  }

  lemma StoredPut(x: Route, xs: seq<Route>, ys: seq<Route>)
    requires ys == [x] + xs
    ensures Stored(ys) == [BothOrNone(x)] + Stored(xs)
  {
    StoredCons(x, xs);
  }

  lemma {:induction false} MergeStored(r: Route, ws: seq<Route>)
    ensures Merge(BothOrNone(r), Stored(ws)) == Stored(Merge(r, ws))
  {
    if ws == [] {
      StoredPut(r, [], Merge(r, ws));
    } else {
      var first, rest := ws[0], ws[1..];
      assert ws == [first] + rest;
      MergeStored(r, rest);
      MergeOne(r, first, rest);
    }
  }

  lemma MergeOne(r: Route, first: Route, rest: seq<Route>)
    requires Merge(BothOrNone(r), Stored(rest)) == Stored(Merge(r, rest))
    ensures Merge(BothOrNone(r), Stored([first] + rest)) == Stored(Merge(r, [first] + rest))
  {
    MergeCons(r, first, rest);
    StoredCons(first, rest);
    MergeCons(BothOrNone(r), BothOrNone(first), Stored(rest));
    StoredTie(r, first);
    var merged := Merge(r, [first] + rest);
    if Less(r.service, first.service) {
      StoredPut(r, [first] + rest, merged);
    } else if r.service == first.service {
      StoredPut(if TieBreak(r, first) > 0 then r else first, rest, merged);
    } else {
      StoredPut(first, Merge(r, rest), merged);
    }
  }

  lemma StoredCons(x: Route, xs: seq<Route>)
    ensures Stored([x] + xs) == [BothOrNone(x)] + Stored(xs)
  {
    StoredSound([x] + xs);
    StoredSound(xs);
  }

  lemma {:induction false} WinnersStored(cs: seq<Route>)
    ensures Winners(Stored(cs)) == Stored(Winners(cs))
  {
    if cs != [] {
      StoredSound(cs);
      StoredSound(cs[..|cs| - 1]);
      assert Stored(cs)[..|cs| - 1] == Stored(cs[..|cs| - 1]);
      WinnersStored(cs[..|cs| - 1]);
      MergeStored(cs[|cs| - 1], Winners(cs[..|cs| - 1]));
    }
  }

  lemma SharedStored(ws: seq<Route>)
    ensures Shared(Stored(ws)) <==> Shared(ws)
  {
    StoredSound(ws);
    forall i, j | 0 <= i < |ws| && 0 <= j < |ws|
      ensures SharesHost(Stored(ws)[i], Stored(ws)[j]) <==> SharesHost(ws[i], ws[j])
    {
    }
  }

  lemma {:induction false} SitesAtStored(hosts: seq<string>, r: Route, httpPort: nat)
    requires r.port >= 0
    ensures SitesAt(hosts, BothOrNone(r), httpPort) == SitesAt(hosts, r, httpPort)
  {
    if hosts != [] { SitesAtStored(hosts[..|hosts| - 1], r, httpPort); }
  }

  lemma AddSitesStored(before: Option<seq<Site>>, r: Route, cfg: Settings)
    requires r.port >= 0
    ensures AddSites(before, BothOrNone(r), cfg) == AddSites(before, r, cfg)
  {
    var host := RouteHost(HostLabel(r), cfg.baseDomain);
    if host.Some? { SitesAtStored([host.value] + r.customHosts, r, cfg.httpPort); }
  }

  lemma SitesOfNext(ws: seq<Route>, x: Route, cfg: Settings)
    requires x.port >= 0 && forall i | 0 <= i < |ws| :: ws[i].port >= 0
    ensures forall i | 0 <= i < |ws + [x]| :: (ws + [x])[i].port >= 0
    ensures SitesOf(ws + [x], cfg) == AddSites(SitesOf(ws, cfg), x, cfg)
  {
    assert (ws + [x])[..|ws|] == ws;
  }

  lemma {:induction false} SitesOfStored(ws: seq<Route>, cfg: Settings)
    requires forall i | 0 <= i < |ws| :: ws[i].port >= 0
    ensures forall i | 0 <= i < |Stored(ws)| :: Stored(ws)[i].port >= 0
    ensures SitesOf(Stored(ws), cfg) == SitesOf(ws, cfg)
  {
    if ws != [] {
      var init, last := ws[..|ws| - 1], ws[|ws| - 1];
      SitesOfStored(init, cfg);
      SitesOfNext(Stored(init), BothOrNone(last), cfg);
      AddSitesStored(SitesOf(init, cfg), last, cfg);
    }
  }

  lemma RenderStored(routes: seq<Route>, cfg: Settings)
    ensures Render(Stored(routes), cfg) == Render(routes, cfg)
  {
    CleanAllStored(routes);
    if CleanAll(routes).Ok? {
      WinnersStored(CleanAll(routes).value);
      SharedStored(Winners(CleanAll(routes).value));
      if Normalize(routes).Ok? {
        NormalizedPorts(routes);
        SitesOfStored(Normalize(routes).value, cfg);
      }
    }
  }

  /** The text depends only on the set of routes, up to half-set auth pairs. */
  lemma RenderOrderFree(a: seq<Route>, b: seq<Route>, cfg: Settings)
    requires forall r :: r in Stored(a) <==> r in Stored(b)
    requires DistinctContainers(Stored(a))
    ensures Render(a, cfg).Ok? <==> Render(b, cfg).Ok?
    ensures Render(a, cfg).Ok? ==> Render(a, cfg) == Render(b, cfg)
  {
    RenderStored(a, cfg);
    RenderStored(b, cfg);
    NormalizeOrderFree(Stored(a), Stored(b));
  }

  // ---- After a deploy ----

  lemma ListingsStoredAlike(cs: Containers, a: seq<Route>, b: seq<Route>, cfg: Settings)
    requires Listing(cs, a) && Listing(cs, b)
    ensures Render(a, cfg).Ok? <==> Render(b, cfg).Ok?
    ensures Render(a, cfg).Ok? ==> Render(a, cfg) == Render(b, cfg)
  {
    NormalizeOrderFree(a, b);
  }

  /** After a public deploy that removed every old container of its label, any listing of the server
      renders to exactly the file and the configuration the deploy left. */
  lemma RebuildGivesTheSameText(h: Host, h': Host, cfg: Settings, job: Job, a: Answers, listing': seq<Route>)
    requires job.input.public && job.input.appLabel != "" && job.input.deployment != ""
    requires ReplyOk(h.containers, a.reply) && Deployed(h, h', cfg, job, a, Running(true))
    requires Listing(h'.containers, listing')
    ensures Render(listing', cfg).Ok?
    ensures h'.caddy == CaddyManager.State(Some(Render(listing', cfg).value), Some(Render(listing', cfg).value))
  {
    var input, reply := Effective(job, a), a.reply;
    Deploying.RunningIsRouted(h, h', cfg, job, a, Running(true));
    Deploying.RunningRetires(h, h', cfg, job, a, Running(true));
    var mid, current := Created(h.containers, input, reply), CurrentRoute(input, reply.id, reply.port);
    var listing :| Listing(mid, listing) && Deploying.RoutedBy(listing, h'.caddy, cfg, current);
    var routes := RoutesFor(listing, current);
    RoutesForExact(listing, current);
    LabelsRoundTrip(input, reply.id, reply.port);
    ShrunkAll(mid, h'.containers, input.appLabel, reply.id);
    AppliedAndListed(mid, h'.containers, input, reply, listing, listing');
    StoredDistinct(h'.containers, listing');
    RenderOrderFree(listing', routes, cfg);
  }

  /** What was applied and what is listed afterwards are the same routes, as labels store them. */
  lemma AppliedAndListed(mid: Containers, after: Containers, input: RunInput, reply: RunReply, listing: seq<Route>,
          listing': seq<Route>)
    requires reply.Up? && 0 < reply.port && input.public && input.appLabel != "" && input.deployment != ""
    requires reply.id in mid && mid[reply.id] == Started(input, reply.port)
    requires after == map id | id in mid && Spared(mid[id], id, input.appLabel, reply.id) :: mid[id]
    requires Listing(mid, listing) && Listing(after, listing')
    ensures forall r :: r in Stored(listing') <==>
              r in Stored(RoutesFor(listing, CurrentRoute(input, reply.id, reply.port)))
  {
    var current := CurrentRoute(input, reply.id, reply.port);
    var routes := RoutesFor(listing, current);
    RoutesForExact(listing, current);
    LabelsRoundTrip(input, reply.id, reply.port);
    StoredMembers(routes);
    StoredMembers(listing');
    forall r | r in listing' ensures BothOrNone(r) in Stored(routes) {
      SurvivorApplied(mid, after, input, reply, r);
      if r.container == reply.id {
        assert BothOrNone(current) in Stored(routes);
      } else {
        assert r in listing && r in routes;
      }
    }
    forall r | r in routes ensures BothOrNone(r) in Stored(listing') {
      if r == current {
        assert Listed(after, BothOrNone(current));
        assert BothOrNone(BothOrNone(current)) == BothOrNone(current);
      } else {
        assert Listed(mid, r) && !HasLabel(mid[r.container], input.appLabel);
        assert Listed(after, r);
      }
    }
  }

  lemma SurvivorApplied(mid: Containers, after: Containers, input: RunInput, reply: RunReply, r: Route)
    requires reply.Up? && reply.id in mid
    requires after == map id | id in mid && Spared(mid[id], id, input.appLabel, reply.id) :: mid[id]
    requires Listed(after, r)
    ensures Listed(mid, r)
    ensures r.container != reply.id ==> r.service != input.appLabel
  {
    assert SERVICE in mid[r.container].labels;
  }

  lemma StoredDistinct(cs: Containers, routes: seq<Route>)
    requires Listing(cs, routes)
    ensures DistinctContainers(Stored(routes))
  {
    StoredMembers(routes);
    forall a, b | a in Stored(routes) && b in Stored(routes) && a.container == b.container ensures a == b {
      var p :| p in routes && a == BothOrNone(p);
      var q :| q in routes && b == BothOrNone(q);
      assert p.container == q.container;
    }
  }
}
