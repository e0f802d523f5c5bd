/** The Caddyfile the agent writes, and a reader for the subset of the format it uses. */
module Caddyfile {
  import opened Text
  import opened Routes
  import Hostnames

  datatype Settings = Settings(baseDomain: string, httpPort: nat, admin: string) {
    /** What the constructor of the manager checks. */
    predicate Valid() {
      && Hostnames.ValidDomain(baseDomain)
      && 1 <= httpPort <= 65535
      && IsToken(admin)
    }
  }

  predicate Plain(c: char) { !IsSpace(c) && c != '{' && c != '}' }

  /** A Caddyfile token that needs no quoting. */
  predicate IsToken(s: string) { s != "" && All(s, Plain) }

  /** The settings that are accepted: a domain, a port, and an admin address without white space or braces. */
  lemma SettingsExactly(cfg: Settings)
    ensures cfg.Valid() <==>
              && Hostnames.ValidDomain(cfg.baseDomain) && 0 < cfg.httpPort < 65536
              && cfg.admin != "" && forall c | c in cfg.admin :: !IsSpace(c) && c !in "{}"
  {
    if cfg.Valid() {
      forall c | c in cfg.admin ensures !IsSpace(c) && c !in "{}" {
        var i :| 0 <= i < |cfg.admin| && cfg.admin[i] == c;
        assert Plain(cfg.admin[i]);
      }
    }
  }

  /** What one site block says: the address it serves, the basic-auth pair if any, and the local
      port it forwards to. */
  datatype Site = Site(address: string, auth: Option<(string, string)>, port: nat)

  // ---- Writing ----

  function RouteHost(name: string, base: string): Option<string> {
    var svc := Folded(name);
    if !Hostnames.ValidLabel(svc) || !Hostnames.ValidDomain(Folded(base)) then None
    else Some(svc + "." + Folded(base))
  }

  function SiteAddress(host: string, port: nat): string {
    if port == 80 then "http://" + host else "http://" + host + ":" + Itoa(port)
  }

  function HostLabel(r: Route): string { if r.routeHost == "" then r.service else r.routeHost }

  function AuthOf(r: Route): Option<(string, string)> {
    if r.authUser != "" && r.authHash != "" then Some((r.authUser, r.authHash)) else None
  }

  function SitesAt(hosts: seq<string>, r: Route, httpPort: nat): seq<Site>
    requires r.port >= 0
  {
    if hosts == [] then []
    else
      var last := Site(SiteAddress(hosts[|hosts| - 1], httpPort), AuthOf(r), r.port);
      SitesAt(hosts[..|hosts| - 1], r, httpPort) + [last]
  }

  /** The sites so far and those of one more route, if its host can be derived. */
  function AddSites(before: Option<seq<Site>>, r: Route, cfg: Settings): Option<seq<Site>>
    requires r.port >= 0
  {
    var host := RouteHost(HostLabel(r), cfg.baseDomain);
    if before.None? || host.None? then None
    else Some(before.value + SitesAt([host.value] + r.customHosts, r, cfg.httpPort))
  }

  /** The sites of normalised routes, in order: the generated host, then the custom hosts. */
  function SitesOf(routes: seq<Route>, cfg: Settings): Option<seq<Site>>
    requires forall i | 0 <= i < |routes| :: routes[i].port >= 0
  {
    if routes == [] then Some([])
    else AddSites(SitesOf(routes[..|routes| - 1], cfg), routes[|routes| - 1], cfg)
  }

  const MARKER: string := "# plorigo-managed-caddyfile: true"

  const NOTICE: string := "# Generated by the Plorigo agent." + " Do not edit by hand."

  function HeaderLines(cfg: Settings): seq<string> {
    [MARKER, NOTICE, "{", "\tadmin " + cfg.admin, "\tauto_https off", "}", ""]
  }

  function AuthLines(auth: Option<(string, string)>): seq<string> {
    match auth
    case None => []
    case Some(pair) => ["\tbasic_auth {", "\t\t" + pair.0 + " " + pair.1, "\t}"]
  }

  function PortLine(port: nat): string { "\treverse_proxy 127.0.0.1:" + Itoa(port) }

  function SiteLines(s: Site): seq<string> {
    [s.address + " {"] + AuthLines(s.auth) + [PortLine(s.port), "}", ""]
  }

  function SitesLines(sites: seq<Site>): seq<string> {
    if sites == [] then [] else SiteLines(sites[0]) + SitesLines(sites[1..])
  }

  /** Lines, each ended by a line break. */
  function Unlines(lines: seq<string>): string {
    if lines == [] then "" else lines[0] + "\n" + Unlines(lines[1..])
  }

  function FileText(sites: seq<Site>, cfg: Settings): string { Unlines(HeaderLines(cfg) + SitesLines(sites)) }

  datatype RenderError = BadRoutes(why: RouteError) | BadHostLabel

  function Render(routes: seq<Route>, cfg: Settings): (r: Result<string, RenderError>)
  {
    match Normalize(routes)
    case Err(e) => Err(BadRoutes(e))
    case Ok(ws) =>
      NormalizedPorts(routes);
      match SitesOf(ws, cfg)
      case None => Err(BadHostLabel)
      case Some(sites) => Ok(FileText(sites, cfg))
  }

  lemma NormalizedPorts(routes: seq<Route>)
    requires Normalize(routes).Ok?
    ensures forall x | x in Normalize(routes).value :: 0 < x.port <= 65535
  {
    var cs := CleanAll(routes).value;
    WinnersSound(cs);
    forall x | x in Winners(cs) ensures 0 < x.port <= 65535 {
      assert Wins(x, cs);
      var r := CleanOrigin(routes, x);
    }
  }

  /** render: the text is built by appending, in a loop over routes and one over hosts. */
  method RenderText(routes: seq<Route>, cfg: Settings) returns (r: Result<string, RenderError>)
    ensures r == Render(routes, cfg)
  {
    var normalized := NormalizeRoutes(routes);
    if normalized.Err? { return Err(BadRoutes(normalized.error)); }
    NormalizedPorts(routes);
    var text := WriteRoutes(normalized.value, cfg);
    r := if text.None? then Err(BadHostLabel) else Ok(text.value);
  }

  method WriteRoutes(ws: seq<Route>, cfg: Settings) returns (text: Option<string>)
    requires forall i | 0 <= i < |ws| :: ws[i].port >= 0
    ensures text == match SitesOf(ws, cfg) case None => None case Some(sites) => Some(FileText(sites, cfg))
  {
    EmptyText(cfg);
    var b := Unlines(HeaderLines(cfg));
    ghost var sites: seq<Site> := [];
    for n := 0 to |ws|
      invariant SitesOf(ws[..n], cfg) == Some(sites)
      invariant b == FileText(sites, cfg)
    {
      assert ws[..n + 1][..n] == ws[..n];
      var host := RouteHost(HostLabel(ws[n]), cfg.baseDomain);
      if host.None? {
        FirstBadHost(ws, cfg, n + 1);
        return None;
      }
      b := WriteSites(b, sites, [host.value] + ws[n].customHosts, ws[n], cfg);
      sites := sites + SitesAt([host.value] + ws[n].customHosts, ws[n], cfg.httpPort);
    }
    assert ws[..|ws|] == ws;
    return Some(b);
  }

  lemma EmptyText(cfg: Settings)
    ensures FileText([], cfg) == Unlines(HeaderLines(cfg))
  {
    assert HeaderLines(cfg) + [] == HeaderLines(cfg);
  }

  method WriteSites(text: string, ghost before: seq<Site>, hosts: seq<string>, route: Route, cfg: Settings)
    returns (b: string)
    requires route.port >= 0 && text == FileText(before, cfg)
    ensures b == FileText(before + SitesAt(hosts, route, cfg.httpPort), cfg)
  {
    b := text;
    ghost var sites := before;
    for k := 0 to |hosts|
      invariant sites == before + SitesAt(hosts[..k], route, cfg.httpPort)
      invariant b == FileText(sites, cfg)
    {
      assert hosts[..k + 1][..k] == hosts[..k];
      var site := Site(SiteAddress(hosts[k], cfg.httpPort), AuthOf(route), route.port);
      b := WriteSite(b, sites, site, cfg);
      sites := sites + [site];
    }
    assert hosts[..|hosts|] == hosts;
  }

  method WriteSite(text: string, ghost before: seq<Site>, site: Site, cfg: Settings) returns (b: string)
    requires text == FileText(before, cfg)
    ensures b == FileText(before + [site], cfg)
  {
    TextAppend(before, site, cfg);
    b := text + Unlines([site.address + " {"]);
    if site.auth.Some? {
      b := b + Unlines(["\tbasic_auth {", "\t\t" + site.auth.value.0 + " " + site.auth.value.1, "\t}"]);
    }
    b := b + Unlines([PortLine(site.port), "}", ""]);
  }

  lemma {:induction false} UnlinesConcat(a: seq<string>, b: seq<string>)
    ensures Unlines(a + b) == Unlines(a) + Unlines(b)
  {
    if a == [] {
      assert a + b == b;
    } else {
      UnlinesConcat(a[1..], b);
      assert (a + b)[1..] == a[1..] + b;
    }
  }

  lemma {:induction false} SitesLinesConcat(a: seq<Site>, b: seq<Site>)
    ensures SitesLines(a + b) == SitesLines(a) + SitesLines(b)
  {
    if a == [] {
      assert a + b == b;
    } else {
      SitesLinesConcat(a[1..], b);
      assert (a + b)[1..] == a[1..] + b && (a + b)[0] == a[0];
      Assoc(SiteLines(a[0]), SitesLines(a[1..]), SitesLines(b));
    }
  }

  /** Appending one block: its opening line, its auth lines, and the rest. */
  lemma TextAppend(sites: seq<Site>, s: Site, cfg: Settings)
    ensures FileText(sites + [s], cfg) ==
            FileText(sites, cfg) + Unlines([s.address + " {"]) + Unlines(AuthLines(s.auth))
              + Unlines([PortLine(s.port), "}", ""])
    ensures Unlines(AuthLines(None)) == ""
  {
    SitesLinesConcat(sites, [s]);
    var head, open := HeaderLines(cfg) + SitesLines(sites), [s.address + " {"];
    var auth, rest := AuthLines(s.auth), [PortLine(s.port), "}", ""];
    OneSite(s);
    assert SiteLines(s) == open + auth + rest;
    Assoc(HeaderLines(cfg), SitesLines(sites), SiteLines(s));
    UnlinesConcat(head, open + auth + rest);
    UnlinesConcat(open + auth, rest);
    UnlinesConcat(open, auth);
    Assoc(Unlines(head), Unlines(open) + Unlines(auth), Unlines(rest));
    Assoc(Unlines(head), Unlines(open), Unlines(auth));
  }

  lemma OneSite(s: Site)
    ensures SitesLines([s]) == SiteLines(s)
  {
    assert [s][1..] == [];
    assert SiteLines(s) + [] == SiteLines(s);
  }

  lemma {:induction false} FirstBadHost(ws: seq<Route>, cfg: Settings, n: nat)
    requires forall i | 0 <= i < |ws| :: ws[i].port >= 0
    requires n <= |ws| && SitesOf(ws[..n], cfg).None?
    ensures SitesOf(ws, cfg).None?
  {
    if n < |ws| {
      var init := ws[..|ws| - 1];
      assert init[..n] == ws[..n];
      FirstBadHost(init, cfg, n);
    } else {
      assert ws[..n] == ws;
    }
  }

  // ---- Reading ----

  function After(s: string, prefix: string): Option<string> {
    if |prefix| <= |s| && s[..|prefix|] == prefix then Some(s[|prefix|..]) else None
  }

  function Before(s: string, suffix: string): Option<string> {
    if |suffix| <= |s| && s[|s| - |suffix|..] == suffix then Some(s[..|s| - |suffix|]) else None
  }

  /** The two fields of a basic-auth line. */
  function ReadAuth(line: string): Option<(string, string)> {
    match After(line, "\t\t")
    case None => None
    case Some(rest) =>
      var k := LeftCut(rest, 0, c => c != ' ');
      if k < |rest| then Some((rest[..k], rest[k + 1..])) else None
  }

  function ReadPort(line: string): Option<nat> {
    match After(line, "\treverse_proxy 127.0.0.1:")
    case None => None
    case Some(digits) => if All(digits, IsDigit) && digits != "" then Some(Atoi(digits)) else None
  }

  /** The site block at the head of the lines, and the lines after it. */
  function ReadSite(lines: seq<string>): Option<(Site, seq<string>)>
    ensures ReadSite(lines).Some? ==> |ReadSite(lines).value.1| < |lines|
  {
    if |lines| < 3 then None
    else match Before(lines[0], " {")
      case None => None
      case Some(address) =>
        if lines[1] == "\tbasic_auth {" then
          if |lines| < 6 || lines[3] != "\t}" || lines[5] != "}" then None
          else match (ReadAuth(lines[2]), ReadPort(lines[4]))
            case (Some(pair), Some(port)) => Some((Site(address, Some(pair), port), lines[6..]))
            case _ => None
        else if lines[2] != "}" then None
        else match ReadPort(lines[1])
          case Some(port) => Some((Site(address, None, port), lines[3..]))
          case None => None
  }

  function ReadSites(lines: seq<string>): Option<seq<Site>> {
    if lines == [] then Some([])
    else if lines[0] == "" then ReadSites(lines[1..])
    else match ReadSite(lines)
      case None => None
      case Some((site, rest)) => match ReadSites(rest)
        case None => None
        case Some(sites) => Some([site] + sites)
  }

  /** A generated file: two comment lines, the global block, then the sites. */
  function Read(text: string): Option<seq<Site>> {
    var lines := Split(text, '\n');
    if |lines| < 6 || lines[0] != MARKER || lines[2] != "{" || lines[5] != "}" then None
    else ReadSites(lines[6..])
  }

  // ---- The round trip ----

  /** A site that survives the trip: no line break in the address, token auth fields. */
  predicate Readable(s: Site) {
    && '\n' !in s.address
    && (s.auth.Some? ==> IsToken(s.auth.value.0) && IsToken(s.auth.value.1))
  }

  lemma TokenLine(user: string, hash: string)
    requires IsToken(user) && IsToken(hash)
    ensures '\n' !in "\t\t" + user + " " + hash
    ensures ReadAuth("\t\t" + user + " " + hash) == Some((user, hash))
  {
    var line := "\t\t" + user + " " + hash;
    var rest := user + " " + hash;
    assert line[..2] == "\t\t" && line[2..] == rest;
    assert forall i | 0 <= i < |user| :: Plain(user[i]);
    assert forall i | 0 <= i < |hash| :: Plain(hash[i]);
    var k := LeftCut(rest, 0, c => c != ' ');
    assert rest[|user|] == ' ' && k == |user|;
    assert rest[..k] == user && rest[k + 1..] == hash;
  }

  lemma PortLineBack(port: nat)
    ensures '\n' !in PortLine(port)
    ensures ReadPort(PortLine(port)) == Some(port)
  {
    var prefix: string := "\treverse_proxy 127.0.0.1:";
    var line := PortLine(port);
    assert line[..|prefix|] == prefix && line[|prefix|..] == Itoa(port);
    assert forall c | c in Itoa(port) :: IsDigit(c);
    AtoiItoa(port);
  }

  lemma {:induction false} SplitUnlines(lines: seq<string>)
    requires forall i | 0 <= i < |lines| :: '\n' !in lines[i]
    ensures Split(Unlines(lines), '\n') == lines + [""]
  {
    if lines != [] {
      SplitUnlines(lines[1..]);
      SplitCons(lines[0], Unlines(lines[1..]), '\n');
      assert [lines[0]] + (lines[1..] + [""]) == lines + [""];
    }
  }

  lemma SiteLinesUnbroken(s: Site)
    requires Readable(s)
    ensures forall i | 0 <= i < |SiteLines(s)| :: '\n' !in SiteLines(s)[i]
  {
    PortLineBack(s.port);
    if s.auth.Some? { TokenLine(s.auth.value.0, s.auth.value.1); }
  }

  lemma {:induction false} SitesLinesUnbroken(sites: seq<Site>)
    requires forall i | 0 <= i < |sites| :: Readable(sites[i])
    ensures forall i | 0 <= i < |SitesLines(sites)| :: '\n' !in SitesLines(sites)[i]
  {
    if sites != [] {
      SiteLinesUnbroken(sites[0]);
      SitesLinesUnbroken(sites[1..]);
    }
  }

  lemma ReadSiteBack(s: Site, rest: seq<string>)
    requires Readable(s)
    ensures ReadSite(SiteLines(s) + rest) == Some((s, [""] + rest))
  {
    var lines := SiteLines(s) + rest;
    PortLineBack(s.port);
    var first := s.address + " {";
    assert lines[0] == first && first[..|first| - 2] == s.address;
    if s.auth.None? {
      assert lines[1] == PortLine(s.port) && lines[1][1] == 'r';
      assert lines[3..] == [""] + rest;
    } else {
      TokenLine(s.auth.value.0, s.auth.value.1);
      assert lines[6..] == [""] + rest;
    }
  }

  lemma {:induction false} ReadSitesBack(sites: seq<Site>)
    requires forall i | 0 <= i < |sites| :: Readable(sites[i])
    ensures ReadSites(SitesLines(sites) + [""]) == Some(sites)
  {
    var lines := SitesLines(sites) + [""];
    if sites == [] {
      assert lines == [""] && lines[1..] == [];
    } else {
      var rest := SitesLines(sites[1..]) + [""];
      ReadSitesBack(sites[1..]);
      ReadSiteBack(sites[0], rest);
      assert lines == SiteLines(sites[0]) + rest;
      assert lines[0] == sites[0].address + " {";
      assert ([""] + rest)[1..] == rest;
      assert ReadSites([""] + rest) == ReadSites(rest);
      assert [sites[0]] + sites[1..] == sites;
    }
  }

  lemma HeaderUnbroken(cfg: Settings)
    requires IsToken(cfg.admin)
    ensures forall i | 0 <= i < |HeaderLines(cfg)| :: '\n' !in HeaderLines(cfg)[i]
  {
    var admin := "\tadmin " + cfg.admin;
    assert forall i | 0 <= i < |cfg.admin| :: Plain(cfg.admin[i]);
    assert '\n' !in admin;
    assert '\n' !in MARKER && '\n' !in NOTICE;
  }

  /** The reader recovers exactly the sites that were written. */
  lemma ReadBack(sites: seq<Site>, cfg: Settings)
    requires IsToken(cfg.admin)
    requires forall i | 0 <= i < |sites| :: Readable(sites[i])
    ensures Read(FileText(sites, cfg)) == Some(sites)
  {
    HeaderUnbroken(cfg);
    SitesLinesUnbroken(sites);
    var lines := HeaderLines(cfg) + SitesLines(sites);
    SplitUnlines(lines);
    var all := lines + [""];
    var rest := SitesLines(sites) + [""];
    assert all[6..] == [""] + rest;
    assert ([""] + rest)[1..] == rest;
    ReadSitesBack(sites);
  }

  // ---- Rendering and reading together ----

  /** Whatever the routes are, their labels and domains put no line break in an address. */
  lemma AddressUnbroken(host: string, port: nat)
    requires '\n' !in host
    ensures '\n' !in SiteAddress(host, port)
  {
    assert forall c | c in Itoa(port) :: IsDigit(c);
  }

  /** Auth fields that the round trip needs: tokens, or not both present. */
  predicate AuthReadable(r: Route) {
    r.authUser != "" && r.authHash != "" ==> IsToken(r.authUser) && IsToken(r.authHash)
  }

  lemma {:induction false} SitesAtReadable(hosts: seq<string>, r: Route, httpPort: nat)
    requires r.port >= 0 && AuthReadable(r)
    requires forall i | 0 <= i < |hosts| :: '\n' !in hosts[i]
    ensures forall i | 0 <= i < |SitesAt(hosts, r, httpPort)| :: Readable(SitesAt(hosts, r, httpPort)[i])
  {
    if hosts != [] {
      SitesAtReadable(hosts[..|hosts| - 1], r, httpPort);
      AddressUnbroken(hosts[|hosts| - 1], httpPort);
    }
  }

  lemma RouteHostUnbroken(name: string, base: string)
    requires RouteHost(name, base).Some?
    ensures '\n' !in RouteHost(name, base).value
  {
    DomainUnbroken(Folded(base));
    assert forall c | c in Folded(name) :: Hostnames.IsLabelChar(c);
  }

  lemma DomainUnbroken(domain: string)
    requires Hostnames.ValidDomain(domain)
    ensures '\n' !in domain
  {
    Hostnames.DomainChars(domain);
    Hostnames.SchemeFree(domain);
  }

  lemma {:induction false} SitesOfReadable(ws: seq<Route>, cfg: Settings)
    requires forall i | 0 <= i < |ws| :: ws[i].port >= 0 && AuthReadable(ws[i])
    requires forall i, h | 0 <= i < |ws| && h in ws[i].customHosts :: Hostnames.ValidDomain(h)
    requires SitesOf(ws, cfg).Some?
    ensures forall i | 0 <= i < |SitesOf(ws, cfg).value| :: Readable(SitesOf(ws, cfg).value[i])
  {
    if ws != [] {
      var init, last := ws[..|ws| - 1], ws[|ws| - 1];
      SitesOfReadable(init, cfg);
      RouteHostUnbroken(HostLabel(last), cfg.baseDomain);
      var hosts := [RouteHost(HostLabel(last), cfg.baseDomain).value] + last.customHosts;
      forall i | 0 < i < |hosts| ensures '\n' !in hosts[i] {
        assert hosts[i] in last.customHosts;
        DomainUnbroken(hosts[i]);
      }
      SitesAtReadable(hosts, last, cfg.httpPort);
    }
  }

  lemma WinnersReadable(routes: seq<Route>)
    requires Normalize(routes).Ok?
    requires forall r | r in routes :: AuthReadable(r)
    ensures forall x | x in Normalize(routes).value :: 0 < x.port && AuthReadable(x)
    ensures forall x, h | x in Normalize(routes).value && h in x.customHosts :: Hostnames.ValidDomain(h)
  {
    var cs := CleanAll(routes).value;
    WinnersSound(cs);
    forall x | x in Winners(cs)
      ensures 0 < x.port && AuthReadable(x) && forall h | h in x.customHosts :: Hostnames.ValidDomain(h)
    {
      assert Wins(x, cs);
      var r := CleanOrigin(routes, x);
      Hostnames.CustomHostsValid(r.customHosts);
    }
  }

  /** Reading what was rendered gives the address, auth pair and port of every normalised route, in
      order, whenever the auth fields are tokens. */
  lemma RenderReadBack(routes: seq<Route>, cfg: Settings)
    requires cfg.Valid() && Render(routes, cfg).Ok?
    requires forall r | r in routes :: AuthReadable(r)
    ensures forall x | x in Normalize(routes).value :: x.port >= 0
    ensures Read(Render(routes, cfg).value) == SitesOf(Normalize(routes).value, cfg)
  {
    var ws := Normalize(routes).value;
    WinnersReadable(routes);
    SitesOfReadable(ws, cfg);
    ReadBack(SitesOf(ws, cfg).value, cfg);
  }

  /** Every file the agent writes starts with the marker. */
  lemma RenderIsManaged(routes: seq<Route>, cfg: Settings)
    requires Render(routes, cfg).Ok?
    ensures MARKER <= Render(routes, cfg).value && Contains(Render(routes, cfg).value, MARKER)
  {
    var text := Render(routes, cfg).value;
    assert text[..|MARKER|] == MARKER;
  }
}
