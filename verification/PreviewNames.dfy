/** The names a preview is known by: its routing key, its public host label and its network.
    The routing key isolates a preview from production and from other previews, so most of what is
    proved here is that keys are valid DNS labels and do not meet. */
module PreviewNames {
  import opened Text
  import Hostnames

  // ---- Slugs ----

  predicate IsAlnum(c: char) { 'a' <= c <= 'z' || IsDigit(c) }

  predicate IsOther(c: char) { !IsAlnum(c) }

  predicate IsDash(c: char) { c == '-' }

  /** Each maximal run of characters outside [a-z0-9] becomes one dash. */
  function Dashed(s: string): string
    decreases |s|
  {
    if s == [] then []
    else if IsAlnum(s[0]) then [s[0]] + Dashed(s[1..])
    else "-" + Dashed(s[1..][LeftCut(s[1..], 0, IsOther)..])
  }

  /** slugifyRef: lower-case letters, digits and single inner dashes; "branch" when nothing is left. */
  function Slugify(ref: string): string {
    var s := Trim(Dashed(Lower(ref)), IsDash);
    if s == "" then "branch" else s
  }

  predicate SingleDashes(s: string) { forall i | 0 <= i < |s| - 1 :: s[i] == '-' ==> s[i + 1] != '-' }

  predicate IsSlug(s: string) {
    && s != "" && s[0] != '-' && s[|s| - 1] != '-'
    && All(s, Hostnames.IsLabelChar)
    && SingleDashes(s)
  }

  lemma {:induction false} DashedSound(s: string)
    ensures All(Dashed(s), Hostnames.IsLabelChar)
    ensures SingleDashes(Dashed(s))
    ensures s != [] && IsAlnum(s[0]) ==> Dashed(s) != [] && Dashed(s)[0] == s[0]
    decreases |s|
  {
    if s != [] {
      if IsAlnum(s[0]) {
        DashedSound(s[1..]);
      } else {
        DashedSound(s[1..][LeftCut(s[1..], 0, IsOther)..]);
      }
    }
  }

  lemma SlugifySound(ref: string)
    ensures IsSlug(Slugify(ref))
  {
    var t := Dashed(Lower(ref));
    DashedSound(Lower(ref));
    TrimSlug(t);
    if Trim(t, IsDash) == "" {
      var s: string := "branch";
      assert IsSlug(s);
    }
  }

  /** What is left of a dashed text between its outer dashes is a slug, if anything is. */
  lemma TrimSlug(t: string)
    requires All(t, Hostnames.IsLabelChar) && SingleDashes(t)
    ensures Trim(t, IsDash) != "" ==> IsSlug(Trim(t, IsDash))
  {
    TrimSound(t, IsDash);
    var l, s := LeftCut(t, 0, IsDash), Trim(t, IsDash);
    assert forall i | 0 <= i < |s| :: s[i] == t[l + i];
    forall i | 0 <= i < |s| - 1 && s[i] == '-' ensures s[i + 1] != '-' { assert t[l + i] == '-'; }
  }

  /** Words, each followed by its gap. */
  function Spelled(words: seq<string>, gaps: seq<string>): string
    requires |gaps| == |words|
  {
    if words == [] then "" else words[0] + (gaps[0] + Spelled(words[1..], gaps[1..]))
  }

  function Hyphenated(words: seq<string>): string {
    if words == [] then "" else if |words| == 1 then words[0] else words[0] + ("-" + Hyphenated(words[1..]))
  }

  /** Words of letters and digits with gaps of other characters between them, which no two words lack. */
  predicate WordsAndGaps(words: seq<string>, gaps: seq<string>) {
    && |gaps| == |words|
    && (forall i | 0 <= i < |words| :: words[i] != "" && All(words[i], IsAlnum) && All(gaps[i], IsOther))
    && (forall i | 0 <= i < |words| - 1 :: gaps[i] != "")
  }

  lemma {:induction false} DashedWord(w: string, rest: string)
    requires All(w, IsAlnum)
    ensures Dashed(w + rest) == w + Dashed(rest)
  {
    if w == "" {
      assert w + rest == rest;
    } else {
      assert (w + rest)[1..] == w[1..] + rest;
      DashedWord(w[1..], rest);
    }
  }

  lemma DashedGap(gap: string, rest: string)
    requires All(gap, IsOther) && (rest == "" || IsAlnum(rest[0]))
    ensures Dashed(gap + rest) == (if gap == "" then "" else "-") + Dashed(rest)
  {
    if gap == "" {
      assert gap + rest == rest;
    } else {
      var s := (gap + rest)[1..];
      assert s == gap[1..] + rest;
      assert s[|gap| - 1..] == rest;
      forall i | 0 <= i < |gap| - 1 ensures IsOther(s[i]) { assert s[i] == gap[i + 1]; }
      if rest != "" { assert s[|gap| - 1] == rest[0]; }
      assert LeftCut(s, 0, IsOther) == |gap| - 1;
    }
  }

  lemma SpelledHead(words: seq<string>, gaps: seq<string>)
    requires WordsAndGaps(words, gaps)
    ensures Spelled(words, gaps) == "" || IsAlnum(Spelled(words, gaps)[0])
  {
    if words != [] { assert Spelled(words, gaps)[0] == words[0][0]; }
  }

  lemma WordsTail(words: seq<string>, gaps: seq<string>)
    requires WordsAndGaps(words, gaps) && words != []
    ensures WordsAndGaps(words[1..], gaps[1..])
    ensures |words| == 1 || gaps[0] != ""
  {
  }

  lemma DashedStep(w: string, gap: string, rest: string)
    requires All(w, IsAlnum) && All(gap, IsOther) && (rest == "" || IsAlnum(rest[0]))
    ensures Dashed(w + (gap + rest)) == w + ((if gap == "" then "" else "-") + Dashed(rest))
  {
    DashedWord(w, gap + rest);
    DashedGap(gap, rest);
  }

  lemma Regroup(w: string, head: string, tail: string)
    ensures w + ("-" + (head + tail)) == (w + ("-" + head)) + tail
  {
  }

  /** Dashing puts one dash where a gap is. */
  lemma {:induction false} DashedWords(words: seq<string>, gaps: seq<string>)
    requires WordsAndGaps(words, gaps)
    ensures Dashed(Spelled(words, gaps)) ==
              Hyphenated(words) + if words == [] || gaps[|gaps| - 1] == "" then "" else "-"
  {
    if words != [] {
      WordsTail(words, gaps);
      SpelledHead(words[1..], gaps[1..]);
      DashedStep(words[0], gaps[0], Spelled(words[1..], gaps[1..]));
      DashedWords(words[1..], gaps[1..]);
      if |words| > 1 {
        Regroup(words[0], Hyphenated(words[1..]), if gaps[|gaps| - 1] == "" then "" else "-");
        assert gaps[1..][|gaps| - 2] == gaps[|gaps| - 1];
      }
    }
  }

  lemma {:induction false} HyphenatedEnds(words: seq<string>)
    requires words != [] && forall i | 0 <= i < |words| :: words[i] != "" && All(words[i], IsAlnum)
    ensures var s := Hyphenated(words); s != "" && IsAlnum(s[0]) && IsAlnum(s[|s| - 1])
  {
    if |words| > 1 { HyphenatedEnds(words[1..]); }
  }

  /** The slug of a ref is its words of letters and digits, in lower case, joined by single dashes; a ref that has
      none is "branch". */
  lemma SlugExactly(ref: string, front: string, words: seq<string>, gaps: seq<string>)
    requires WordsAndGaps(words, gaps) && All(front, IsOther) && Lower(ref) == front + Spelled(words, gaps)
    ensures Slugify(ref) == if words == [] then "branch" else Hyphenated(words)
  {
    var head, tail := if front == "" then "" else "-", if words == [] || gaps[|gaps| - 1] == "" then "" else "-";
    SlugDashes(front, words, gaps, head, tail);
    if words != [] { HyphenatedEnds(words); }
    TrimExactly(head, Hyphenated(words), tail, IsDash);
  }

  lemma SlugDashes(front: string, words: seq<string>, gaps: seq<string>, head: string, tail: string)
    requires WordsAndGaps(words, gaps) && All(front, IsOther)
    requires head == if front == "" then "" else "-"
    requires tail == if words == [] || gaps[|gaps| - 1] == "" then "" else "-"
    ensures Dashed(front + Spelled(words, gaps)) == head + Hyphenated(words) + tail
  {
    SpelledHead(words, gaps);
    DashedGap(front, Spelled(words, gaps));
    DashedWords(words, gaps);
  }

  // ---- Identifiers ----

  predicate IsHex(c: char) { IsDigit(c) || 'a' <= c <= 'f' }

  /** Lower-case UUID text, as the database returns ids. */
  predicate IsUuid(s: string) {
    && |s| == 36
    && forall i | 0 <= i < 36 :: if i in {8, 13, 18, 23} then s[i] == '-' else IsHex(s[i])
  }

  /** Five groups of hex digits, of 8, 4, 4, 4 and 12, with dashes between them. */
  lemma UuidExactly(s: string, a: string, b: string, c: string, d: string, e: string)
    requires |a| == 8 && |b| == 4 && |c| == 4 && |d| == 4 && |e| == 12
    requires s == a + "-" + b + "-" + c + "-" + d + "-" + e
    ensures IsUuid(s) <==> All(a, IsHex) && All(b, IsHex) && All(c, IsHex) && All(d, IsHex) && All(e, IsHex)
    ensures forall x: char :: IsHex(x) <==> '0' <= x <= '9' || 'a' <= x <= 'f'
  {
    assert forall i | 0 <= i < 8 :: s[i] == a[i];
    assert forall i | 0 <= i < 4 :: s[i + 9] == b[i];
    assert forall i | 0 <= i < 4 :: s[i + 14] == c[i];
    assert forall i | 0 <= i < 4 :: s[i + 19] == d[i];
    assert forall i | 0 <= i < 12 :: s[i + 24] == e[i];
    if IsUuid(s) {
      forall i | 0 <= i < 4 ensures IsHex(b[i]) { assert IsHex(s[i + 9]); }
      forall i | 0 <= i < 4 ensures IsHex(c[i]) { assert IsHex(s[i + 14]); }
      forall i | 0 <= i < 4 ensures IsHex(d[i]) { assert IsHex(s[i + 19]); }
      forall i | 0 <= i < 12 ensures IsHex(e[i]) { assert IsHex(s[i + 24]); }
    }
  }

  /** SHA-256 in lower-case hex, of which only the shape is used. */
  ghost predicate IsHexDigest(sha: string -> string) {
    forall s :: |sha(s)| == 64 && All(sha(s), IsHex)
  }

  const MAX_LABEL := 63

  const MAX_INT32 := 0x7fff_ffff

  // ---- Routing keys ----

  function Suffix(pr: int, ref: string): string {
    if pr > 0 then "pr-" + Itoa(pr) else Slugify(ref)
  }

  function RouteKey(sha: string -> string, service: string, pr: int, ref: string): string
    requires forall s :: |sha(s)| == 64
  {
    var suffix := Suffix(pr, ref);
    var key := service + "-" + suffix;
    if |key| <= MAX_LABEL then key
    else
      var tail := sha(suffix)[..8];
      var left := MAX_LABEL - |service| - 2 - |tail|;
      var budget := if left < 0 then 0 else left;
      var cut := if |suffix| > budget then suffix[..budget] else suffix;
      service + "-" + Trim(cut, IsDash) + "-" + tail
  }

  lemma SuffixSound(pr: int, ref: string)
    requires pr <= MAX_INT32
    ensures IsSlug(Suffix(pr, ref))
    ensures 0 < pr ==> 4 <= |Suffix(pr, ref)| <= 13
  {
    SlugifySound(ref);
    if 0 < pr { ItoaShort(pr); }
  }

  /** What an over-long suffix leaves in a key: its first seventeen characters without outer dashes. */
  function Cut(suffix: string): string
    requires |suffix| > 26
  {
    Trim(suffix[..17], IsDash)
  }

  lemma ShortKey(sha: string -> string, service: string, pr: int, ref: string)
    requires IsHexDigest(sha) && IsUuid(service) && pr <= MAX_INT32 && |Suffix(pr, ref)| <= 26
    ensures var key := RouteKey(sha, service, pr, ref);
            key == service + "-" + Suffix(pr, ref) && 38 <= |key| && Hostnames.ValidLabel(key)
  {
    SuffixSound(pr, ref);
    JoinValid(service, Suffix(pr, ref));
  }

  lemma LongKey(sha: string -> string, service: string, pr: int, ref: string)
    requires IsHexDigest(sha) && IsUuid(service) && pr <= MAX_INT32 && |Suffix(pr, ref)| > 26
    ensures var key, suffix := RouteKey(sha, service, pr, ref), Suffix(pr, ref);
            && key == service + "-" + Cut(suffix) + "-" + sha(suffix)[..8]
            && 16 <= |Cut(suffix)| <= 17 && Cut(suffix) == suffix[..|Cut(suffix)|]
            && Hostnames.ValidLabel(key)
  {
    var suffix := Suffix(pr, ref);
    SuffixSound(pr, ref);
    CutSound(suffix, 17);
    var t, tail := Cut(suffix), sha(suffix)[..8];
    JoinValid(service, t);
    assert All(tail, Hostnames.IsLabelChar) by { assert All(sha(suffix), IsHex); }
    JoinValid(service + "-" + t, tail);
  }

  /** The shape of a key: the service id, a dash, and the suffix itself or, for a suffix of more than 26
      characters, its first sixteen or seventeen with a hash tail of the whole. */
  lemma KeyShape(sha: string -> string, service: string, pr: int, ref: string)
    requires IsHexDigest(sha) && IsUuid(service) && pr <= MAX_INT32
    ensures var key, suffix := RouteKey(sha, service, pr, ref), Suffix(pr, ref);
            && 38 <= |key|
            && key[..37] == service + "-"
            && Hostnames.ValidLabel(key)
            && (|suffix| <= 26 ==> key == service + "-" + suffix)
            && (|suffix| > 26 ==>
                  && key == service + "-" + Cut(suffix) + "-" + sha(suffix)[..8]
                  && 16 <= |Cut(suffix)| <= 17 && Cut(suffix) == suffix[..|Cut(suffix)|])
  {
    if |Suffix(pr, ref)| <= 26 { ShortKey(sha, service, pr, ref); } else { LongKey(sha, service, pr, ref); }
  }

  /** What a key has after its service id. */
  function KeyTail(sha: string -> string, suffix: string): string
    requires forall s :: |sha(s)| == 64
  {
    if |suffix| <= 26 then suffix else Cut(suffix) + "-" + sha(suffix)[..8]
  }

  lemma KeyIsTail(sha: string -> string, service: string, pr: int, ref: string)
    requires IsHexDigest(sha) && IsUuid(service) && pr <= MAX_INT32
    ensures RouteKey(sha, service, pr, ref) == service + "-" + KeyTail(sha, Suffix(pr, ref))
  {
    KeyShape(sha, service, pr, ref);
    var suffix := Suffix(pr, ref);
    if |suffix| > 26 { AssocFour(service + "-", Cut(suffix), "-", sha(suffix)[..8]); }
  }

  /** Two previews of one service have the same key exactly when their suffixes agree, as long as both fit.
      Of two over-long ones the cut parts and the hash tails must both agree; an over-long and a short one meet
      only if the short one spells the cut part and the hash tail of the other. */
  lemma KeysMeetExactly(sha: string -> string, service: string, prA: int, refA: string, prB: int, refB: string)
    requires IsHexDigest(sha) && IsUuid(service) && prA <= MAX_INT32 && prB <= MAX_INT32
    ensures var a, b := Suffix(prA, refA), Suffix(prB, refB);
            RouteKey(sha, service, prA, refA) == RouteKey(sha, service, prB, refB) <==>
            if |a| <= 26 && |b| <= 26 then a == b
            else if |a| > 26 && |b| > 26 then Cut(a) == Cut(b) && sha(a)[..8] == sha(b)[..8]
            else if |a| <= 26 then a == Cut(b) + "-" + sha(b)[..8]
            else b == Cut(a) + "-" + sha(a)[..8]
  {
    KeyIsTail(sha, service, prA, refA);
    KeyIsTail(sha, service, prB, refB);
    var a, b := Suffix(prA, refA), Suffix(prB, refB);
    var x, y := service + "-" + KeyTail(sha, a), service + "-" + KeyTail(sha, b);
    assert x[37..] == KeyTail(sha, a) && y[37..] == KeyTail(sha, b);
    if |a| > 26 && |b| > 26 { SameEnds(Cut(a), sha(a)[..8], Cut(b), sha(b)[..8]); }
  }

  lemma SameEnds(s: string, tail: string, s': string, tail': string)
    requires |tail| == |tail'|
    ensures s + "-" + tail == s' + "-" + tail' <==> s == s' && tail == tail'
  {
    var x, y := s + "-" + tail, s' + "-" + tail';
    if x == y {
      assert |s| == |s'|;
      assert x[..|s|] == s && y[..|s|] == s';
      assert x[|s| + 1..] == tail && y[|s| + 1..] == tail';
    }
  }

  /** A cut slug loses at most one dash. */
  lemma CutSound(s: string, k: nat)
    requires IsSlug(s) && 2 <= k <= |s|
    ensures var t := Trim(s[..k], IsDash);
            k - 1 <= |t| <= k && t == s[..|t|] && t[|t| - 1] != '-'
  {
    var cut := s[..k];
    assert cut[k - 1] == '-' ==> cut[k - 2] != '-';
    assert TrimLeft(cut, IsDash) == cut;
    assert RightCut(cut, k, IsDash) >= k - 1;
  }

  /** Two pieces of label joined by a dash. */
  lemma JoinValid(x: string, y: string)
    requires x != "" && x[0] != '-' && All(x, Hostnames.IsLabelChar)
    requires y != "" && y[|y| - 1] != '-' && All(y, Hostnames.IsLabelChar)
    ensures All(x + "-" + y, Hostnames.IsLabelChar)
    ensures |x| + 1 + |y| <= 63 ==> Hostnames.ValidLabel(x + "-" + y)
  {
    var z := x + "-" + y;
    assert z[0] == x[0] && z[|z| - 1] == y[|y| - 1];
  }

  /** Every key is one valid DNS label, so the agent's router accepts it. */
  lemma KeyValid(sha: string -> string, service: string, pr: int, ref: string)
    requires IsHexDigest(sha) && IsUuid(service) && pr <= MAX_INT32
    ensures Hostnames.ValidLabel(RouteKey(sha, service, pr, ref))
  {
    KeyShape(sha, service, pr, ref);
  }

  /** A key is never a service id, and keys of different services never meet. */
  lemma KeysApart(sha: string -> string, a: string, prA: int, refA: string, b: string, prB: int, refB: string)
    requires IsHexDigest(sha) && IsUuid(a) && IsUuid(b) && prA <= MAX_INT32 && prB <= MAX_INT32
    ensures RouteKey(sha, a, prA, refA) != b
    ensures RouteKey(sha, a, prA, refA) == RouteKey(sha, b, prB, refB) ==> a == b
  {
    KeyShape(sha, a, prA, refA);
    KeyShape(sha, b, prB, refB);
    assert (a + "-")[..36] == a && (b + "-")[..36] == b;
  }

  lemma PullRequestKey(sha: string -> string, service: string, n: int, ref: string)
    requires IsHexDigest(sha) && IsUuid(service) && 0 < n <= MAX_INT32
    ensures RouteKey(sha, service, n, ref) == service + "-" + ("pr-" + Itoa(n))
  {
    ItoaShort(n);
  }

  /** Pull-request keys ignore the ref, so opening and closing agree, and are injective in the number. */
  lemma PullRequestKeys(sha: string -> string, service: string, m: int, refM: string, n: int, refN: string)
    requires IsHexDigest(sha) && IsUuid(service) && 0 < m <= MAX_INT32 && 0 < n <= MAX_INT32
    ensures RouteKey(sha, service, m, refM) == RouteKey(sha, service, m, "")
    ensures RouteKey(sha, service, m, refM) == RouteKey(sha, service, n, refN) <==> m == n
  {
    PullRequestKey(sha, service, m, refM);
    PullRequestKey(sha, service, m, "");
    PullRequestKey(sha, service, n, refN);
    var x, y := service + "-" + ("pr-" + Itoa(m)), service + "-" + ("pr-" + Itoa(n));
    if x == y {
      assert x[40..] == Itoa(m) && y[40..] == Itoa(n);
      ItoaInjective(m, n);
    }
  }

  /** A branch preview takes a pull request's key exactly when its slug spells that request. */
  lemma BranchMeetsPullRequest(sha: string -> string, service: string, ref: string, n: int)
    requires IsHexDigest(sha) && IsUuid(service) && 0 < n <= MAX_INT32
    ensures RouteKey(sha, service, 0, ref) == RouteKey(sha, service, n, ref) <==> Slugify(ref) == "pr-" + Itoa(n)
  {
    KeyShape(sha, service, 0, ref);
    KeyShape(sha, service, n, ref);
    SuffixSound(n, ref);
    var x, y := service + "-" + Suffix(0, ref), service + "-" + Suffix(n, ref);
    assert x[37..] == Suffix(0, ref) && y[37..] == Suffix(n, ref);
  }

  /** The branch named pr-5 and pull request 5 share a key, so they replace and tear down each other. */
  lemma BranchNamedLikeAPullRequest(sha: string -> string, service: string)
    requires IsHexDigest(sha) && IsUuid(service)
    ensures RouteKey(sha, service, 0, "PR_5") == RouteKey(sha, service, 5, "feature")
  {
    var s: string := "PR_5";
    var t: string := "pr_5";
    assert Lower(s) == t;
    assert s == ['P'] + "R_5";
    var five: string := "5";
    assert t[1..] == "r_5" && t[1..][1..] == "_5" && t[1..][1..][1..] == five;
    assert five[1..] == "";
    assert LeftCut(five, 0, IsOther) == 0 && five[0..] == five;
    assert Dashed(five) == five;
    assert Dashed("_5") == "-5";
    assert Dashed(t) == "pr-5";
    TrimFixed("pr-5", IsDash);
    assert Slugify(s) == "pr-" + Itoa(5);
    BranchMeetsPullRequest(sha, service, s, 5);
    PullRequestKeys(sha, service, 5, s, 5, "feature");
  }

  // ---- Public hosts ----

  function HostBase(slug: string): string {
    if TrimSpace(slug) == "" then "preview" else Slugify(slug)
  }

  function HostHead(slug: string, pr: int, ref: string): string { HostBase(slug) + "-" + Suffix(pr, ref) }

  const MAX_HEAD := 56

  function RouteHost(sha: string -> string, slug: string, pr: int, ref: string, service: string): string
    requires forall s :: |sha(s)| == 64
  {
    var tail, head := sha(service)[..6], HostHead(slug, pr, ref);
    (if |head| > MAX_HEAD then Trim(head[..MAX_HEAD], IsDash) else head) + "-" + tail
  }

  /** A host is the slug and the suffix, cut to 56 characters without a dash at the end, and six digits of the hash of
      the service id; a service without a slug is called "preview". */
  lemma HostShape(sha: string -> string, slug: string, pr: int, ref: string, service: string)
    requires IsHexDigest(sha)
    ensures var base := if TrimSpace(slug) == "" then "preview" else Slugify(slug);
            var head := base + "-" + if pr > 0 then "pr-" + Itoa(pr) else Slugify(ref);
            RouteHost(sha, slug, pr, ref, service) ==
              (if |head| <= 56 then head else Trim(head[..56], c => c == '-')) + "-" + sha(service)[..6]
  {
    var head := HostHead(slug, pr, ref);
    if |head| > 56 { TrimAlike(head[..56], IsDash, c => c == '-'); }
  }

  lemma TrimAlike(s: string, p: char -> bool, q: char -> bool)
    requires forall c :: p(c) == q(c)
    ensures Trim(s, p) == Trim(s, q)
  {
    var t := TrimLeft(s, p);
    assert t == TrimLeft(s, q);
    assert RightCut(t, |t|, p) == RightCut(t, |t|, q);
  }

  lemma HostBaseSound(slug: string)
    ensures IsSlug(HostBase(slug))
  {
    if TrimSpace(slug) == "" {
      var base: string := "preview";
      assert IsSlug(base);
    } else {
      SlugifySound(slug);
    }
  }

  /** Every host is one valid DNS label, whatever the slug and the ref, and never a service id: no
      preview is ever published on a production host. */
  lemma HostValid(sha: string -> string, slug: string, pr: int, ref: string, service: string)
    requires IsHexDigest(sha) && pr <= MAX_INT32
    ensures Hostnames.ValidLabel(RouteHost(sha, slug, pr, ref, service))
    ensures !IsUuid(RouteHost(sha, slug, pr, ref, service))
  {
    HostBaseSound(slug);
    SuffixSound(pr, ref);
    var base, suffix, tail := HostBase(slug), Suffix(pr, ref), sha(service)[..6];
    var head := base + "-" + suffix;
    JoinValid(base, suffix);
    var cut := if |head| > MAX_HEAD then Trim(head[..MAX_HEAD], IsDash) else head;
    if |head| > MAX_HEAD {
      HeadIsSlug(base, suffix);
      CutSound(head, MAX_HEAD);
    }
    assert All(tail, IsHex) by { assert All(sha(service), IsHex); }
    JoinValid(cut, tail);
    HexTailNotUuid(cut, tail);
  }

  lemma HeadIsSlug(base: string, suffix: string)
    requires IsSlug(base) && IsSlug(suffix)
    ensures IsSlug(base + "-" + suffix)
  {
    var z := base + "-" + suffix;
    forall i | 0 <= i < |z| - 1 && z[i] == '-' ensures z[i + 1] != '-' {
      if i < |base| { assert base[i] == '-'; }
      else if i > |base| { assert suffix[i - |base| - 1] == '-'; }
    }
    JoinValid(base, suffix);
  }

  lemma HexTailNotUuid(x: string, tail: string)
    requires |tail| == 6
    ensures !IsUuid(x + "-" + tail)
  {
    var z := x + "-" + tail;
    assert |z| == 36 ==> z[29] == '-';
  }

  /** What is left of the slug and the suffix in a host. */
  function CutHead(slug: string, pr: int, ref: string): string {
    var head := HostHead(slug, pr, ref);
    if |head| > MAX_HEAD then Trim(head[..MAX_HEAD], IsDash) else head
  }

  /** Any two previews, of one service or of two, have the same host exactly when what is left of slug and
      suffix agrees and the hashes of the service ids agree in six digits. */
  lemma HostsMeetExactly(sha: string -> string, slug: string, pr: int, ref: string, service: string,
          slug': string, pr': int, ref': string, service': string)
    requires IsHexDigest(sha)
    ensures RouteHost(sha, slug, pr, ref, service) == RouteHost(sha, slug', pr', ref', service') <==>
              CutHead(slug, pr, ref) == CutHead(slug', pr', ref') && sha(service)[..6] == sha(service')[..6]
  {
    SameEnds(CutHead(slug, pr, ref), sha(service)[..6], CutHead(slug', pr', ref'), sha(service')[..6]);
  }

  /** Hosts are injective in the pull-request number exactly when the slug leaves room for it:
      at most 42 characters. A longer one cuts digits off. */
  lemma HostsInjectiveExact(sha: string -> string, slug: string, ref: string, service: string)
    requires IsHexDigest(sha)
    ensures |HostBase(slug)| <= 42 <==>
            forall m, n | 0 < m <= MAX_INT32 && 0 < n <= MAX_INT32
                          && RouteHost(sha, slug, m, ref, service) == RouteHost(sha, slug, n, ref, service) :: m == n
  {
    if |HostBase(slug)| <= 42 {
      forall m, n | 0 < m <= MAX_INT32 && 0 < n <= MAX_INT32
                    && RouteHost(sha, slug, m, ref, service) == RouteHost(sha, slug, n, ref, service)
        ensures m == n
      {
        ShortHostsApart(sha, slug, ref, service, m, n);
      }
    } else {
      LongHostsMeet(sha, slug, ref, service);
    }
  }

  lemma ShortHostsApart(sha: string -> string, slug: string, ref: string, service: string, m: int, n: int)
    requires IsHexDigest(sha) && |HostBase(slug)| <= 42
    requires 0 < m <= MAX_INT32 && 0 < n <= MAX_INT32
    requires RouteHost(sha, slug, m, ref, service) == RouteHost(sha, slug, n, ref, service)
    ensures m == n
  {
    ItoaShort(m);
    ItoaShort(n);
    var base, tail := HostBase(slug), sha(service)[..6];
    var x, y := RouteHost(sha, slug, m, ref, service), RouteHost(sha, slug, n, ref, service);
    assert x == base + "-" + ("pr-" + Itoa(m)) + "-" + tail;
    assert y == base + "-" + ("pr-" + Itoa(n)) + "-" + tail;
    MiddleUnique(base, Itoa(m), Itoa(n), tail);
    ItoaInjective(m, n);
  }

  lemma MiddleUnique(base: string, a: string, b: string, tail: string)
    requires base + "-" + ("pr-" + a) + "-" + tail == base + "-" + ("pr-" + b) + "-" + tail
    ensures a == b
  {
    var x, y := base + "-" + ("pr-" + a) + "-" + tail, base + "-" + ("pr-" + b) + "-" + tail;
    assert x[|base| + 4..|x| - |tail| - 1] == a;
    assert y[|base| + 4..|y| - |tail| - 1] == b;
  }

  lemma LongHostsMeet(sha: string -> string, slug: string, ref: string, service: string)
    requires IsHexDigest(sha) && |HostBase(slug)| > 42
    ensures RouteHost(sha, slug, 1_000_000_000, ref, service) == RouteHost(sha, slug, 1_000_000_001, ref, service)
  {
    TenDigits();
    SameCut(HostBase(slug), Itoa(100_000_000));
    assert HostHead(slug, 1_000_000_000, ref) == HostBase(slug) + "-" + ("pr-" + (Itoa(100_000_000) + "0"));
    assert HostHead(slug, 1_000_000_001, ref) == HostBase(slug) + "-" + ("pr-" + (Itoa(100_000_000) + "1"));
  }

  lemma TenDigits()
    ensures Itoa(1_000_000_000) == Itoa(100_000_000) + "0"
    ensures Itoa(1_000_000_001) == Itoa(100_000_000) + "1"
    ensures |Itoa(100_000_000)| >= 9
  {
    assert |Itoa(100)| >= 3;
    assert |Itoa(10_000)| >= 5;
    assert |Itoa(1_000_000)| >= 7;
  }

  lemma SameCut(base: string, digits: string)
    requires |base| > 42 && |digits| >= 9
    ensures (base + "-" + ("pr-" + (digits + "0")))[..MAX_HEAD] == (base + "-" + ("pr-" + (digits + "1")))[..MAX_HEAD]
  {
    var common := base + "-" + ("pr-" + digits);
    assert base + "-" + ("pr-" + (digits + "0")) == common + "0";
    assert base + "-" + ("pr-" + (digits + "1")) == common + "1";
    assert (common + "0")[..MAX_HEAD] == common[..MAX_HEAD] == (common + "1")[..MAX_HEAD];
  }

  /** Of a base of 55 characters or more the cut leaves nothing of the suffix. */
  lemma LongBaseHost(sha: string -> string, slug: string, pr: int, ref: string, service: string)
    requires IsHexDigest(sha) && pr <= MAX_INT32 && |HostBase(slug)| >= 55
    ensures var base := HostBase(slug);
            RouteHost(sha, slug, pr, ref, service) ==
              (if |base| == 55 then base else Trim(base[..MAX_HEAD], IsDash)) + "-" + sha(service)[..6]
  {
    HostBaseSound(slug);
    SuffixSound(pr, ref);
    var base, head := HostBase(slug), HostHead(slug, pr, ref);
    HeadIsSlug(base, Suffix(pr, ref));
    CutSound(head, MAX_HEAD);
    if |base| == 55 {
      assert head[55] == '-';
      assert head[..55] == base;
    } else {
      assert head[..MAX_HEAD] == base[..MAX_HEAD];
    }
  }

  lemma OneLetterSlug(ref: string)
    requires |ref| == 1 && IsAlnum(ref[0]) && LowerChar(ref[0]) == ref[0]
    ensures Slugify(ref) == ref
  {
    assert Lower(ref) == ref && ref[1..] == "";
    assert Dashed(ref) == [ref[0]] + Dashed("") == ref;
    TrimFixed(ref, IsDash);
  }

  lemma OneLetterHost(sha: string -> string, slug: string, ref: string, service: string)
    requires IsHexDigest(sha) && |HostBase(slug)| < 55 && |ref| == 1 && Slugify(ref) == ref
    ensures RouteHost(sha, slug, 0, ref, service) == HostBase(slug) + "-" + ref + "-" + sha(service)[..6]
  {
  }

  /** All the previews of a service, whatever their refs and numbers, have one host exactly when its slug has at
      least 55 characters. */
  lemma OneHostForAllExactly(sha: string -> string, slug: string, service: string)
    requires IsHexDigest(sha)
    ensures |HostBase(slug)| >= 55 <==>
              forall m, r, n, q | m <= MAX_INT32 && n <= MAX_INT32 ::
                RouteHost(sha, slug, m, r, service) == RouteHost(sha, slug, n, q, service)
  {
    if |HostBase(slug)| >= 55 {
      forall m, r, n, q | m <= MAX_INT32 && n <= MAX_INT32
        ensures RouteHost(sha, slug, m, r, service) == RouteHost(sha, slug, n, q, service)
      {
        LongBaseHost(sha, slug, m, r, service);
        LongBaseHost(sha, slug, n, q, service);
      }
    } else {
      OneLetterSlug("a");
      OneLetterSlug("b");
      OneLetterHost(sha, slug, "a", service);
      OneLetterHost(sha, slug, "b", service);
      LettersApart(HostBase(slug), sha(service)[..6]);
    }
  }

  lemma LettersApart(base: string, tail: string)
    ensures base + "-" + "a" + "-" + tail != base + "-" + "b" + "-" + tail
  {
    assert (base + "-" + "a" + "-" + tail)[|base| + 1] == 'a';
    assert (base + "-" + "b" + "-" + tail)[|base| + 1] == 'b';
  }

  // ---- Networks ----

  function EnvironmentNetwork(environment: string): string { "plorigo-" + environment }

  function PreviewNetwork(key: string): string { "plorigo-preview-" + key }

  /** A preview's network is never an environment's, and two keys never share one. */
  lemma NetworksApart(key: string, other: string, environment: string)
    requires IsUuid(environment)
    ensures PreviewNetwork(key) != EnvironmentNetwork(environment)
    ensures PreviewNetwork(key) == PreviewNetwork(other) <==> key == other
  {
    var p, e := PreviewNetwork(key), EnvironmentNetwork(environment);
    assert p[8] == 'p' && (|e| > 8 && e[8] == environment[0]);
    assert p[16..] == key && PreviewNetwork(other)[16..] == other;
  }
}
