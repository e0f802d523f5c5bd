/** DNS names: the agent's label and domain checks, its custom-host list, and the control plane's
    hostname normalisation. */
module Hostnames {
  import opened Text

  predicate IsLabelChar(c: char) { 'a' <= c <= 'z' || IsDigit(c) || c == '-' }

  /** One label of a DNS name in lower case; both sides of the system apply this same test. */
  predicate ValidLabel(part: string) {
    && 0 < |part| <= 63
    && part[0] != '-' && part[|part| - 1] != '-'
    && All(part, IsLabelChar)
  }

  predicate HasScheme(s: string) { Contains(s, "://") }

  predicate ValidDomain(domain: string) {
    && domain != ""
    && |domain| <= 253
    && !HasScheme(domain)
    && forall part | part in Split(domain, '.') :: ValidLabel(part)
  }

  predicate IsDomainChar(c: char) { IsLabelChar(c) || c == '.' }

  lemma DomainChars(domain: string)
    requires forall part | part in Split(domain, '.') :: ValidLabel(part)
    ensures All(domain, IsDomainChar)
    ensures domain != "" && domain[|domain| - 1] != '.'
  {
    var labels := Split(domain, '.');
    SplitEnds(domain, '.');
    assert ValidLabel(labels[|labels| - 1]);
    forall i | 0 <= i < |domain| ensures IsDomainChar(domain[i]) {
      if domain[i] != '.' {
        var k := SplitHolds(domain, '.', i);
        assert ValidLabel(labels[k]);
      }
    }
  }

  lemma {:induction false} SchemeFree(s: string)
    requires All(s, IsDomainChar)
    ensures !HasScheme(s)
    ensures forall c | c in s :: IsDomainChar(c)
  {
    if s != [] {
      SchemeFree(s[1..]);
      if |s| >= 3 { assert IsDomainChar(s[..3][0]); }
    }
  }

  // ---- Control plane: the hostname a user attaches ----

  datatype HostError = Required | WithScheme | WithPath | WithPort | Wildcard | TooLong | NoSuffix | BadLabel

  function HostCore(raw: string): string { TrimSuffix(TrimSpace(Lower(raw)), '.') }

  function NormalizeHostname(raw: string): Result<string, HostError> {
    var host := HostCore(raw);
    if host == "" then Err(Required)
    else if HasScheme(host) then Err(WithScheme)
    else if '/' in host || '?' in host || '#' in host then Err(WithPath)
    else if ':' in host then Err(WithPort)
    else if '*' in host then Err(Wildcard)
    else if Utf8Length(host) > 253 then Err(TooLong)
    else
      var labels := Split(host, '.');
      if |labels| < 2 then Err(NoSuffix)
      else if exists part | part in labels :: !ValidLabel(part) then Err(BadLabel)
      else Ok(host)
  }

  /** A domain of at least two labels. */
  predicate Accepted(host: string) { ValidDomain(host) && '.' in host }

  predicate HasPath(host: string) { '/' in host || '?' in host || '#' in host }

  /** None of the characters that have a message of their own. */
  predicate Unmarked(host: string) { !HasPath(host) && ':' !in host && '*' !in host }

  lemma AcceptedUnmarked(host: string)
    requires host != "" && forall part | part in Split(host, '.') :: ValidLabel(part)
    ensures Unmarked(host) && !HasScheme(host) && Utf8Length(host) == |host|
  {
    DomainChars(host);
    SchemeFree(host);
    DomainAscii(host);
  }

  lemma DomainAscii(host: string)
    requires forall c | c in host :: IsDomainChar(c)
    ensures Utf8Length(host) == |host| && Unmarked(host)
  {
    assert forall i | 0 <= i < |host| :: IsDomainChar(host[i]);
    AsciiLength(host);
  }

  lemma SchemeHasPath(host: string)
    requires HasScheme(host)
    ensures '/' in host && ':' in host
  {
    var k := SchemeAt(host);
    assert host[k..k + 3][0] == ':' && host[k..k + 3][1] == '/';
  }

  lemma {:induction false} SchemeAt(s: string) returns (k: nat)
    requires Contains(s, "://")
    ensures k + 3 <= |s| && s[k..k + 3] == "://"
  {
    if |s| >= 3 && s[..3] == "://" {
      k := 0;
    } else {
      k := SchemeAt(s[1..]);
      k := k + 1;
      assert s[k..k + 3] == s[1..][k - 1..k + 2];
    }
  }

  /** The accepted names are exactly the agent's valid domains of at least two labels, in normal form, and a
      refused name is refused for the reason a user would look for first. */
  lemma NormalizeHostnameExact(raw: string)
    ensures var host, r := HostCore(raw), NormalizeHostname(raw);
            && (r == Ok(host) <==> Accepted(host))
            && (r.Ok? ==> r.value == host)
            && (r == Err(Required) <==> host == "")
            && (r == Err(WithScheme) <==> HasScheme(host))
            && (r == Err(WithPath) <==> HasPath(host) && !HasScheme(host))
            && (r == Err(WithPort) <==> ':' in host && !HasPath(host))
            && (r == Err(Wildcard) <==> '*' in host && !HasPath(host) && ':' !in host)
            && (r == Err(TooLong) <==> Utf8Length(host) > 253 && Unmarked(host))
            && (r == Err(NoSuffix) <==> host != "" && '.' !in host && Utf8Length(host) <= 253 && Unmarked(host))
            && (r == Err(BadLabel) <==> '.' in host && !ValidDomain(host) && Utf8Length(host) <= 253 && Unmarked(host))
  {
    var host := HostCore(raw);
    SplitEnds(host, '.');
    AsciiLength(host);
    if HasScheme(host) { SchemeHasPath(host); }
    if host != "" && forall part | part in Split(host, '.') :: ValidLabel(part) { AcceptedUnmarked(host); }
  }

  /** A name with white space around it and at most one dot at its end. */
  predicate Dressed(raw: string, front: string, name: string, dot: string, back: string) {
    && raw == front + (name + dot) + back && All(front, IsSpace) && All(back, IsSpace)
    && (dot == "." || (dot == "" && (name == "" || name[|name| - 1] != '.')))
    && (name + dot == "" || (!IsSpace((name + dot)[0]) && !IsSpace((name + dot)[|name + dot| - 1])))
  }

  lemma HostCoreExactly(raw: string, front: string, name: string, dot: string, back: string)
    requires Dressed(raw, front, name, dot, back)
    ensures HostCore(raw) == Lower(name)
  {
    var low := Lower(name + dot);
    LowerAround(front, name + dot, back);
    LowerEnds(name + dot);
    TrimExactly(Lower(front), low, Lower(back), IsSpace);
    assert TrimSpace(Lower(raw)) == low;
    DotCut(name, dot);
  }

  lemma DotCut(name: string, dot: string)
    requires dot == "." || (dot == "" && (name == "" || name[|name| - 1] != '.'))
    ensures TrimSuffix(Lower(name + dot), '.') == Lower(name)
  {
    var low := Lower(name + dot);
    if dot == "." {
      assert low[|low| - 1] == '.' && low[..|low| - 1] == Lower(name);
    } else {
      assert name + dot == name;
    }
  }

  /** Letter case, white space around the name and one dot at its end make no difference: what is accepted is the
      name in lower case. */
  lemma SpellingIgnored(raw: string, front: string, name: string, dot: string, back: string, host: string)
    requires Dressed(raw, front, name, dot, back)
    ensures NormalizeHostname(raw) == Ok(host) <==> host == Lower(name) && ValidDomain(host) && '.' in host
  {
    HostCoreExactly(raw, front, name, dot, back);
    NormalizeHostnameExact(raw);
  }

  lemma LowerAround(a: string, b: string, c: string)
    ensures Lower(a + b + c) == Lower(a) + Lower(b) + Lower(c)
    ensures All(a, IsSpace) ==> All(Lower(a), IsSpace)
    ensures All(c, IsSpace) ==> All(Lower(c), IsSpace)
  {
  }

  lemma LowerEnds(s: string)
    ensures s != "" && !IsSpace(s[0]) ==> !IsSpace(Lower(s)[0])
    ensures s != "" && !IsSpace(s[|s| - 1]) ==> !IsSpace(Lower(s)[|s| - 1])
  {
  }

  // ---- Agent: the custom hosts of a route ----

  function AgentHost(h: string): string { Lower(TrimSpace(TrimSuffix(h, '.'))) }

  lemma ValidDomainFixed(h: string)
    requires ValidDomain(h)
    ensures HostCore(h) == h && AgentHost(h) == h
  {
    DomainChars(h);
    assert Lower(h) == h by {
      assert forall i | 0 <= i < |h| :: IsDomainChar(h[i]);
    }
    assert IsDomainChar(h[0]) && IsDomainChar(h[|h| - 1]);
    TrimFixed(h, IsSpace);
  }

  /** An accepted hostname is a fixed point of both normalisations and passes the agent's check. */
  lemma NormalizeHostnameFixed(raw: string)
    requires NormalizeHostname(raw).Ok?
    ensures var h := NormalizeHostname(raw).value;
            NormalizeHostname(h) == Ok(h) && AgentHost(h) == h && ValidDomain(h)
  {
    NormalizeHostnameExact(raw);
    var h := NormalizeHostname(raw).value;
    ValidDomainFixed(h);
    NormalizeHostnameExact(h);
  }

  function Self(s: string): string { s }

  /** The list with every entry normalised. */
  function Folded(hosts: seq<string>): (r: seq<string>)
    ensures |r| == |hosts|
    ensures forall i | 0 <= i < |hosts| :: r[i] == AgentHost(hosts[i])
  {
    seq(|hosts|, i requires 0 <= i < |hosts| => AgentHost(hosts[i]))
  }

  predicate HostOk(h: string) { h == "" || ('*' !in h && ValidDomain(h)) }

  predicate AllOk(names: seq<string>) {
    names == [] || (AllOk(names[..|names| - 1]) && HostOk(names[|names| - 1]))
  }

  lemma {:induction false} AllOkExact(names: seq<string>)
    ensures AllOk(names) <==> forall i | 0 <= i < |names| :: HostOk(names[i])
  {
    if names != [] { AllOkExact(names[..|names| - 1]); }
  }

  /** The non-blank names of a list, in order of first appearance. */
  function FirstNames(names: seq<string>): seq<string> {
    if names == [] then []
    else
      var init, x := FirstNames(names[..|names| - 1]), names[|names| - 1];
      if x == "" || x in init then init else init + [x]
  }

  lemma {:induction false} FirstNamesSound(names: seq<string>)
    ensures DistinctKeys(FirstNames(names), Self)
    ensures forall x :: x in FirstNames(names) <==> x in names && x != ""
  {
    if names != [] {
      FirstNamesSound(names[..|names| - 1]);
      assert names == names[..|names| - 1] + [names[|names| - 1]];
    }
  }

  lemma NamesStep(names: seq<string>, n: nat)
    requires n < |names|
    ensures FirstNames(names[..n + 1]) ==
            if names[n] == "" || names[n] in FirstNames(names[..n]) then FirstNames(names[..n])
            else FirstNames(names[..n]) + [names[n]]
    ensures AllOk(names[..n + 1]) <==> AllOk(names[..n]) && HostOk(names[n])
    ensures AllOk(names[..n]) && names[n] in FirstNames(names[..n]) ==> HostOk(names[n])
    ensures AllOk(names) ==> HostOk(names[n])
  {
    assert names[..n + 1][..n] == names[..n];
    AllOkExact(names[..n]);
    AllOkExact(names);
    FirstNamesSound(names[..n]);
  }

  /** The agent's result for a host list: none when some entry is refused. */
  function CustomHosts(hosts: seq<string>): Option<seq<string>> {
    var names := Folded(hosts);
    if AllOk(names) then Some(SortBy(FirstNames(names), Self)) else None
  }

  method NormalizeCustomHosts(hosts: seq<string>) returns (r: Option<seq<string>>)
    ensures r == CustomHosts(hosts)
  {
    var seen: set<string>, out: seq<string> := {}, [];
    ghost var names := Folded(hosts);
    for n := 0 to |hosts|
      invariant AllOk(names[..n])
      invariant out == FirstNames(names[..n])
      invariant forall x :: x in seen <==> x in out
    {
      var host := AgentHost(hosts[n]);
      NamesStep(names, n);
      assert names[n] == host;
      if host == "" || host in seen { continue; }
      if '*' in host || !ValidDomain(host) { return None; }
      seen, out := seen + {host}, out + [host];
    }
    assert names[..|hosts|] == names;
    return Some(SortBy(out, Self));
  }

  /** The wildcard test is implied by the domain test. */
  lemma HostOkExact(h: string)
    ensures HostOk(h) <==> h == "" || ValidDomain(h)
  {
    if ValidDomain(h) {
      DomainChars(h);
      SchemeFree(h);
    }
  }

  /** The list is accepted exactly when every normalised entry is acceptable, and the result is
      the one strictly ascending list of the distinct normalised names. */
  lemma CustomHostsExact(hosts: seq<string>, out: seq<string>)
    ensures CustomHosts(hosts).Some? <==> forall i | 0 <= i < |hosts| :: HostOk(Folded(hosts)[i])
    ensures CustomHosts(hosts) == Some(out) <==>
            && CustomHosts(hosts).Some?
            && Ascending(out, Self)
            && forall x :: x in out <==> x in Folded(hosts) && x != ""
  {
    var names := Folded(hosts);
    var sorted := SortBy(FirstNames(names), Self);
    AllOkExact(names);
    FirstNamesSound(names);
    SortSound(FirstNames(names), Self);
    if Ascending(out, Self) && forall x :: x in out <==> x in names && x != "" {
      AscendingUnique(out, sorted, Self);
    }
  }

  /** A list of domains the control plane accepted never makes the agent refuse, and comes out as
      its own distinct entries in ascending order. */
  lemma AcceptedDomainsRoute(hosts: seq<string>)
    requires forall i | 0 <= i < |hosts| :: NormalizeHostname(hosts[i]) == Ok(hosts[i])
    ensures CustomHosts(hosts).Some?
    ensures Ascending(CustomHosts(hosts).value, Self)
    ensures forall x :: x in CustomHosts(hosts).value <==> x in hosts
  {
    forall i | 0 <= i < |hosts| ensures AgentHost(hosts[i]) == hosts[i] && ValidDomain(hosts[i]) {
      NormalizeHostnameFixed(hosts[i]);
    }
    assert Folded(hosts) == hosts;
    forall i | 0 <= i < |hosts| ensures hosts[i] != "" && HostOk(hosts[i]) {
      HostOkExact(hosts[i]);
    }
    CustomHostsExact(hosts, SortBy(FirstNames(hosts), Self));
  }

  /** Every host in an accepted list is a valid domain. */
  lemma CustomHostsValid(hosts: seq<string>)
    requires CustomHosts(hosts).Some?
    ensures Ascending(CustomHosts(hosts).value, Self)
    ensures forall x | x in CustomHosts(hosts).value :: ValidDomain(x)
  {
    var names, out := Folded(hosts), CustomHosts(hosts).value;
    CustomHostsExact(hosts, out);
    forall x | x in out ensures ValidDomain(x) {
      var i :| 0 <= i < |names| && names[i] == x;
      HostOkExact(x);
    }
  }


  // ---- The limits of names ----

  /** A label has 1 to 63 characters, and neither starts nor ends with a dash. */
  lemma LabelLimits(n: nat)
    ensures ValidLabel(seq(n, _ => 'a')) <==> 1 <= n <= 63
    ensures ValidLabel("a-1") && !ValidLabel("-a") && !ValidLabel("a-") && !ValidLabel("A") && !ValidLabel("a_b")
  {
    var s := seq(n, _ => 'a');
    assert forall i | 0 <= i < n :: s[i] == 'a';
    assert !IsLabelChar("A"[0]) && !IsLabelChar("a_b"[1]);
    var t: string := "a-1";
    assert forall i | 0 <= i < |t| :: IsLabelChar(t[i]);
  }

  /** Labels joined by dots. */
  function Dotted(labels: seq<string>): string {
    if labels == [] then "" else if |labels| == 1 then labels[0] else labels[0] + "." + Dotted(labels[1..])
  }

  lemma {:induction false} SplitDotted(labels: seq<string>)
    requires labels != [] && forall i | 0 <= i < |labels| :: '.' !in labels[i]
    ensures Split(Dotted(labels), '.') == labels
  {
    if |labels| == 1 {
      SplitWhole(labels[0], '.');
    } else {
      SplitDotted(labels[1..]);
      SplitCons(labels[0], Dotted(labels[1..]), '.');
      assert labels[0] + ['.'] + Dotted(labels[1..]) == Dotted(labels);
      assert [labels[0]] + labels[1..] == labels;
    }
  }

  /** A domain is valid exactly when its labels are and it has at most 253 characters. */
  lemma DomainExactly(labels: seq<string>)
    requires labels != [] && forall i | 0 <= i < |labels| :: '.' !in labels[i]
    ensures ValidDomain(Dotted(labels)) <==>
              |Dotted(labels)| <= 253 && forall i | 0 <= i < |labels| :: ValidLabel(labels[i])
  {
    var h := Dotted(labels);
    SplitDotted(labels);
    if forall i | 0 <= i < |labels| :: ValidLabel(labels[i]) {
      forall part | part in Split(h, '.') ensures ValidLabel(part) { }
      DomainChars(h);
      SchemeFree(h);
    }
    if ValidDomain(h) {
      forall i | 0 <= i < |labels| ensures ValidLabel(labels[i]) { assert labels[i] in Split(h, '.'); }
    }
  }
}
