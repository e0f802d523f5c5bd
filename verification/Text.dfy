/** Strings as the agent and the control plane use them: sequences of Unicode scalar values
    with Go's case folding, trimming, splitting, ordering and decimal printing. */
module Text {

  datatype Option<+T> = None | Some(value: T)

  datatype Result<+T, +E> = Ok(value: T) | Err(error: E)

  // ---- Characters ----

  /** Unicode white space, as unicode.IsSpace. */
  predicate IsSpace(c: char) {
    '\U{0009}' <= c <= '\U{000D}' || c == ' ' || c == '\U{0085}' || c == '\U{00A0}' || c == '\U{1680}'
    || '\U{2000}' <= c <= '\U{200A}' || c == '\U{2028}' || c == '\U{2029}' || c == '\U{202F}'
    || c == '\U{205F}' || c == '\U{3000}'
  }

  predicate IsDigit(c: char) { '0' <= c <= '9' }

  /** Lower case of one character. Two letters outside ASCII fold into ASCII (the dotted capital I
      and the Kelvin sign); the other non-ASCII letters stay outside it and are left alone here. */
  function LowerChar(c: char): char {
    if 'A' <= c <= 'Z' then (c as int + 32) as char
    else if c == '\U{0130}' then 'i'
    else if c == '\U{212A}' then 'k'
    else c
  }

  function Lower(s: string): (r: string)
    ensures |r| == |s|
  {
    seq(|s|, i requires 0 <= i < |s| => LowerChar(s[i]))
  }

  // ---- Trimming ----

  /** How many leading characters satisfy p. */
  function LeftCut(s: string, i: nat, p: char -> bool): (k: nat)
    requires i <= |s|
    ensures i <= k <= |s|
    ensures forall j | i <= j < k :: p(s[j])
    ensures k < |s| ==> !p(s[k])
    decreases |s| - i
  {
    if i < |s| && p(s[i]) then LeftCut(s, i + 1, p) else i
  }

  /** Where the trailing characters that satisfy p begin, at or before n. */
  function RightCut(s: string, n: nat, p: char -> bool): (k: nat)
    requires n <= |s|
    ensures k <= n
    ensures forall j | k <= j < n :: p(s[j])
    ensures 0 < k ==> !p(s[k - 1])
  {
    if 0 < n && p(s[n - 1]) then RightCut(s, n - 1, p) else n
  }

  function TrimLeft(s: string, p: char -> bool): string { s[LeftCut(s, 0, p)..] }

  function TrimRight(s: string, p: char -> bool): string { s[..RightCut(s, |s|, p)] }

  function Trim(s: string, p: char -> bool): string { TrimRight(TrimLeft(s, p), p) }

  function TrimSpace(s: string): string { Trim(s, IsSpace) }

  function TrimSuffix(s: string, c: char): string {
    if s != [] && s[|s| - 1] == c then s[..|s| - 1] else s
  }

  predicate All(s: string, p: char -> bool) { forall i | 0 <= i < |s| :: p(s[i]) }

  /** A trimmed string neither starts nor ends with what was trimmed, and holds only
      characters of the string. */
  lemma TrimSound(s: string, p: char -> bool)
    ensures Trim(s, p) != [] ==> !p(Trim(s, p)[0]) && !p(Trim(s, p)[|Trim(s, p)| - 1])
    ensures |Trim(s, p)| <= |s|
    ensures forall c | c in Trim(s, p) :: c in s
    ensures Trim(s, p) == [] <==> All(s, p)
  {
    var t, k := TrimLeft(s, p), LeftCut(s, 0, p);
    assert forall i | k <= i < |s| :: t[i - k] == s[i];
  }

  /** Nothing is trimmed from a string whose two ends are to be kept. */
  lemma TrimFixed(s: string, p: char -> bool)
    requires s == [] || (!p(s[0]) && !p(s[|s| - 1]))
    ensures Trim(s, p) == s
  {
    assert TrimLeft(s, p) == s;
  }

  /** Trimming takes off what is in front and behind, and no more. */
  lemma TrimExactly(front: string, s: string, back: string, p: char -> bool)
    requires All(front, p) && All(back, p)
    requires s == "" || (!p(s[0]) && !p(s[|s| - 1]))
    ensures Trim(front + s + back, p) == s
  {
    var all := front + s + back;
    assert forall i | 0 <= i < |front| :: all[i] == front[i];
    assert forall i | 0 <= i < |s| :: all[|front| + i] == s[i];
    assert forall i | 0 <= i < |back| :: all[|front| + |s| + i] == back[i];
    var k := LeftCut(all, 0, p);
    if s != "" {
      assert k == |front|;
      var t := TrimLeft(all, p);
      assert t == s + back;
      var n := RightCut(t, |t|, p);
      assert n == |s|;
    }
  }

  /** Lower case of the letters; two other characters fold to a letter, and the rest stays. */
  lemma LowerExactly()
    ensures Lower("ABCDEFGHIJKLMNOPQRSTUVWXYZ") == "abcdefghijklmnopqrstuvwxyz"
    ensures Lower("\U{0130}\U{212A}") == "ik"
    ensures forall c: char | !('A' <= c <= 'Z') && c != '\U{0130}' && c != '\U{212A}' :: Lower([c]) == [c]
    ensures forall s: string, i | 0 <= i < |s| :: Lower(s)[i] == Lower([s[i]])[0]
  {
    var upper, lower := "ABCDEFGHIJKLMNOPQRSTUVWXYZ", "abcdefghijklmnopqrstuvwxyz";
    assert Lower(upper) == lower;
  }

  /** The twenty-five white-space characters. */
  lemma SpacesExactly(c: char)
    ensures IsSpace(c) <==>
              || c in "\t\n\U{000B}\U{000C}\r \U{0085}\U{00A0}\U{1680}"
              || c in "\U{2000}\U{2001}\U{2002}\U{2003}\U{2004}\U{2005}\U{2006}\U{2007}\U{2008}\U{2009}\U{200A}"
              || c in "\U{2028}\U{2029}\U{202F}\U{205F}\U{3000}"
  {
  }

  // ---- Concatenation ----

  lemma Assoc<T>(x: seq<T>, y: seq<T>, z: seq<T>)
    ensures x + y + z == x + (y + z)
  {
  }

  lemma AssocFour<T>(a: seq<T>, b: seq<T>, c: seq<T>, d: seq<T>)
    ensures a + b + c + d == a + (b + c + d)
  {
  }

  // ---- Bytes ----

  /** How many bytes a character takes in UTF-8 (section 3 of RFC 3629). */
  function Utf8Width(c: char): nat {
    if c <= '\U{7F}' then 1 else if c <= '\U{7FF}' then 2 else if c <= '\U{FFFF}' then 3 else 4
  }

  /** The length of a string as Go counts it. */
  function Utf8Length(s: string): nat { if s == "" then 0 else Utf8Width(s[0]) + Utf8Length(s[1..]) }

  predicate IsAscii(c: char) { c <= '\U{7F}' }

  lemma {:induction false} AsciiLength(s: string)
    ensures |s| <= Utf8Length(s)
    ensures All(s, IsAscii) ==> Utf8Length(s) == |s|
  {
    if s != "" {
      AsciiLength(s[1..]);
      if All(s, IsAscii) { assert IsAscii(s[0]) && All(s[1..], IsAscii); }
    }
  }

  // ---- Splitting ----

  /** The parts of s between occurrences of sep; never empty (strings.Split on one character). */
  function Split(s: string, sep: char): (parts: seq<string>)
    ensures |parts| > 0
  {
    if s == [] then [[]]
    else Push(s[0], sep, Split(s[1..], sep))
  }

  lemma {:induction false} SplitCons(a: string, b: string, sep: char)
    requires sep !in a
    ensures Split(a + [sep] + b, sep) == [a] + Split(b, sep)
  {
    if a == [] {
      assert a + [sep] + b == [sep] + b;
      assert ([sep] + b)[1..] == b;
    } else {
      SplitCons(a[1..], b, sep);
      assert (a + [sep] + b)[1..] == a[1..] + [sep] + b;
      assert [a[0]] + a[1..] == a;
    }
  }

  lemma {:induction false} SplitWhole(a: string, sep: char)
    requires sep !in a
    ensures Split(a, sep) == [a]
  {
    if a != [] {
      SplitWhole(a[1..], sep);
      assert [a[0]] + a[1..] == a;
    }
  }

  /** Two lists of parts, the last of the first joined to the first of the second. */
  function Glue(xs: seq<string>, ys: seq<string>): seq<string>
    requires xs != [] && ys != []
  {
    xs[..|xs| - 1] + [xs[|xs| - 1] + ys[0]] + ys[1..]
  }

  /** Splitting commutes with concatenation. */
  lemma {:induction false} SplitConcat(a: string, b: string, sep: char)
    ensures Split(a + b, sep) == Glue(Split(a, sep), Split(b, sep))
  {
    var ys := Split(b, sep);
    if a == [] {
      assert a + b == b;
      GlueNothing(ys);
    } else {
      SplitConcat(a[1..], b, sep);
      assert (a + b)[1..] == a[1..] + b;
      PushGlue(a[0], sep, Split(a[1..], sep), ys);
    }
  }

  lemma GlueNothing(ys: seq<string>)
    requires ys != []
    ensures Glue([[]], ys) == ys
  {
    var none: string := [];
    assert none + ys[0] == ys[0];
    assert ys == [ys[0]] + ys[1..];
  }

  /** One more character in front of the parts. */
  function Push(c: char, sep: char, parts: seq<string>): seq<string>
    requires parts != []
  {
    if c == sep then [[]] + parts else [[c] + parts[0]] + parts[1..]
  }

  lemma PushGlue(c: char, sep: char, xs: seq<string>, ys: seq<string>)
    requires xs != [] && ys != []
    ensures Push(c, sep, Glue(xs, ys)) == Glue(Push(c, sep, xs), ys)
  {
    if c == sep {
      GlueCons([], xs, ys);
    } else if |xs| == 1 {
      assert [c] + (xs[0] + ys[0]) == ([c] + xs[0]) + ys[0];
    } else {
      GlueCons(xs[0], xs[1..], ys);
      GlueCons([c] + xs[0], xs[1..], ys);
      assert xs == [xs[0]] + xs[1..];
    }
  }

  lemma GlueCons(x: string, xs: seq<string>, ys: seq<string>)
    requires xs != [] && ys != []
    ensures Glue([x] + xs, ys) == [x] + Glue(xs, ys)
  {
    assert ([x] + xs)[..|xs|] == [x] + xs[..|xs| - 1];
  }

  lemma {:induction false} SplitFree(s: string, sep: char, k: nat)
    requires k < |Split(s, sep)|
    ensures sep !in Split(s, sep)[k]
  {
    if s != [] {
      var rest := Split(s[1..], sep);
      if s[0] == sep {
        if 0 < k { SplitFree(s[1..], sep, k - 1); }
      } else {
        SplitFree(s[1..], sep, k);
      }
    }
  }

  /** The part that a character other than the separator falls into. */
  lemma {:induction false} SplitHolds(s: string, sep: char, i: nat) returns (k: nat)
    requires i < |s| && s[i] != sep
    ensures k < |Split(s, sep)| && s[i] in Split(s, sep)[k]
  {
    k := 0;
    if 0 < i {
      k := SplitHolds(s[1..], sep, i - 1);
      if s[0] == sep { k := k + 1; }
    }
  }

  lemma {:induction false} SplitEnds(s: string, sep: char)
    ensures s == [] || s[|s| - 1] == sep ==> Split(s, sep)[|Split(s, sep)| - 1] == []
    ensures sep in s <==> |Split(s, sep)| > 1
  {
    if s != [] {
      SplitEnds(s[1..], sep);
      assert s == [s[0]] + s[1..];
    }
  }

  /** strings.Contains. */
  predicate Contains(s: string, sub: string) {
    |sub| <= |s| && (s[..|sub|] == sub || (s != [] && Contains(s[1..], sub)))
  }

  /** Where the first occurrence of sub starts. */
  function FirstAt(s: string, sub: string): (k: nat)
    requires Contains(s, sub)
    ensures k + |sub| <= |s|
  {
    if s[..|sub|] == sub then 0 else FirstAt(s[1..], sub) + 1
  }

  /** A leading part has the occurrence exactly when it reaches its end. */
  lemma {:induction false} LeadingContains(s: string, sub: string, k: nat)
    requires Contains(s, sub) && k <= |s| && sub != ""
    ensures Contains(s[..k], sub) <==> FirstAt(s, sub) + |sub| <= k
  {
    if s[..|sub|] == sub {
      if |sub| <= k { assert s[..k][..|sub|] == sub; }
    } else if 0 < k {
      LeadingContains(s[1..], sub, k - 1);
      assert s[..k][1..] == s[1..][..k - 1];
      if |sub| <= k { assert s[..k][..|sub|] == s[..|sub|]; }
    }
  }

  // ---- Decimal numbers ----

  const DIGITS: string := "0123456789"

  /** strconv.Itoa on a natural number. */
  function Itoa(n: nat): (s: string)
    ensures s != []
    ensures All(s, IsDigit)
  {
    if n < 10 then [DIGITS[n]] else Itoa(n / 10) + [DIGITS[n % 10]]
  }

  function DigitValue(c: char): nat
    requires IsDigit(c)
  {
    c as int - '0' as int
  }

  function Atoi(s: string): nat
    requires All(s, IsDigit)
  {
    if s == [] then 0 else Atoi(s[..|s| - 1]) * 10 + DigitValue(s[|s| - 1])
  }

  lemma {:induction false} AtoiItoa(n: nat)
    ensures Atoi(Itoa(n)) == n
  {
    if n >= 10 {
      AtoiItoa(n / 10);
      assert Itoa(n)[..|Itoa(n)| - 1] == Itoa(n / 10);
    } else {
      assert Itoa(n)[..0] == [];
    }
  }

  lemma ItoaInjective(m: nat, n: nat)
    requires Itoa(m) == Itoa(n)
    ensures m == n
  {
    AtoiItoa(m);
    AtoiItoa(n);
  }

  /** A 32-bit signed positive number prints in at most ten digits. */
  lemma ItoaShort(n: nat)
    requires n < 0x8000_0000
    ensures |Itoa(n)| <= 10
  {
    var a := n / 10; var b := a / 10; var c := b / 10; var d := c / 10; var e := d / 10;
    var f := e / 10; var g := f / 10; var h := g / 10; var i := h / 10;
    assert i < 10;
    assert |Itoa(h)| <= 2;
    assert |Itoa(g)| <= 3;
    assert |Itoa(f)| <= 4;
    assert |Itoa(e)| <= 5;
    assert |Itoa(d)| <= 6;
    assert |Itoa(c)| <= 7;
    assert |Itoa(b)| <= 8;
    assert |Itoa(a)| <= 9;
  }

  // ---- Order ----

  /** Go compares strings by bytes, which for UTF-8 is by scalar value. */
  predicate Less(a: string, b: string) {
    b != [] && (a == [] || a[0] < b[0] || (a[0] == b[0] && Less(a[1..], b[1..])))
  }

  lemma {:induction false} LessTotal(a: string, b: string)
    ensures Less(a, b) || a == b || Less(b, a)
    ensures !(Less(a, b) && Less(b, a))
    ensures !Less(a, a)
  {
    if a != [] {
      LessTotal(a[1..], a[1..]);
      if b != [] {
        LessTotal(a[1..], b[1..]);
        if a[0] == b[0] && a[1..] == b[1..] {
          assert a == [a[0]] + a[1..] == b;
        }
      }
    }
  }

  lemma {:induction false} LessTransitive(a: string, b: string, c: string)
    requires Less(a, b) && Less(b, c)
    ensures Less(a, c)
  {
    if a != [] && a[0] == b[0] == c[0] {
      LessTransitive(a[1..], b[1..], c[1..]);
    }
  }

  // ---- Sorting by a string key ----

  predicate Ascending<T>(xs: seq<T>, key: T -> string) {
    forall i, j | 0 <= i < j < |xs| :: Less(key(xs[i]), key(xs[j]))
  }

  /** Insertion of one element into a sorted list, behind equal keys. */
  function Insert<T>(x: T, xs: seq<T>, key: T -> string): seq<T> {
    if xs == [] || Less(key(x), key(xs[0])) then [x] + xs
    else [xs[0]] + Insert(x, xs[1..], key)
  }

  /** sort.Strings and sort.Slice over a string key. */
  function SortBy<T>(xs: seq<T>, key: T -> string): seq<T> {
    if xs == [] then [] else Insert(xs[|xs| - 1], SortBy(xs[..|xs| - 1], key), key)
  }

  predicate DistinctKeys<T>(xs: seq<T>, key: T -> string) {
    forall i, j | 0 <= i < j < |xs| :: key(xs[i]) != key(xs[j])
  }

  lemma {:induction false} InsertSound<T(!new)>(x: T, xs: seq<T>, key: T -> string)
    requires Ascending(xs, key)
    requires forall y | y in xs :: key(y) != key(x)
    ensures Ascending(Insert(x, xs, key), key)
    ensures forall y :: y in Insert(x, xs, key) <==> y == x || y in xs
  {
    if xs == [] {
    } else if Less(key(x), key(xs[0])) {
      forall j | 0 < j < |xs| ensures Less(key(x), key(xs[j])) {
        LessTransitive(key(x), key(xs[0]), key(xs[j]));
      }
    } else {
      var rest := Insert(x, xs[1..], key);
      InsertSound(x, xs[1..], key);
      LessTotal(key(x), key(xs[0]));
      assert xs == [xs[0]] + xs[1..];
      forall j | 0 <= j < |rest| ensures Less(key(xs[0]), key(rest[j])) {
        assert rest[j] in rest;
        if rest[j] != x {
          var y := rest[j];
          assert y in Insert(x, xs[1..], key);
          assert y in xs[1..];
          var k :| 0 <= k < |xs[1..]| && xs[1..][k] == y;
          assert xs[k + 1] == y;
        }
      }
    }
  }

  lemma {:induction false} SortSound<T(!new)>(xs: seq<T>, key: T -> string)
    requires DistinctKeys(xs, key)
    ensures Ascending(SortBy(xs, key), key)
    ensures forall y :: y in SortBy(xs, key) <==> y in xs
  {
    if xs != [] {
      var init, last := xs[..|xs| - 1], xs[|xs| - 1];
      SortSound(init, key);
      assert xs == init + [last];
      forall y | y in SortBy(init, key) ensures key(y) != key(last) {
        assert y in SortBy(init, key);
        assert y in init;
        var k :| 0 <= k < |init| && init[k] == y;
        assert xs[k] == y && xs[|xs| - 1] == last;
      }
      InsertSound(last, SortBy(init, key), key);
    }
  }

  /** A strictly ascending list is determined by its elements. */
  lemma {:induction false} AscendingUnique<T(!new)>(xs: seq<T>, ys: seq<T>, key: T -> string)
    requires Ascending(xs, key) && Ascending(ys, key)
    requires forall x :: x in xs <==> x in ys
    ensures xs == ys
  {
    MembersAgree(xs, ys);
    if xs != [] {
      HeadLeast(xs, ys, key);
      HeadLeast(ys, xs, key);
      LessTotal(key(xs[0]), key(ys[0]));
      assert xs[0] == ys[0];
      forall x ensures x in xs[1..] <==> x in ys[1..] {
        TailMembers(xs, x, key);
        TailMembers(ys, x, key);
      }
      AscendingUnique(xs[1..], ys[1..], key);
      assert xs == [xs[0]] + xs[1..] && ys == [ys[0]] + ys[1..];
    }
  }

  lemma MembersAgree<T(!new)>(xs: seq<T>, ys: seq<T>)
    requires forall x :: x in xs <==> x in ys
    ensures xs == [] <==> ys == []
  {
    if xs != [] { assert xs[0] in ys; }
    if ys != [] { assert ys[0] in xs; }
  }

  lemma HeadLeast<T(!new)>(xs: seq<T>, ys: seq<T>, key: T -> string)
    requires xs != [] && Ascending(xs, key)
    requires ys != [] && ys[0] in xs
    ensures xs[0] == ys[0] || Less(key(xs[0]), key(ys[0]))
  {
    var k :| 0 <= k < |xs| && xs[k] == ys[0];
  }

  lemma TailMembers<T(!new)>(xs: seq<T>, x: T, key: T -> string)
    requires xs != [] && Ascending(xs, key)
    ensures x in xs[1..] <==> x in xs && x != xs[0]
  {
    if x in xs[1..] {
      var k :| 0 <= k < |xs[1..]| && xs[1..][k] == x;
      assert xs[k + 1] == x;
      LessTotal(key(xs[0]), key(x));
    }
    if x in xs && x != xs[0] {
      var k :| 0 <= k < |xs| && xs[k] == x;
      assert xs[1..][k - 1] == x;
    }
  }


  // ---- What the library functions mean ----

  /** a comes before b exactly when it is a proper start of b, or has the smaller character where they first differ. */
  lemma {:induction false} LessExactly(head: string, a: string, b: string)
    requires a == "" || b == "" || a[0] != b[0]
    ensures Less(head + a, head + b) <==> (a == "" && b != "") || (a != "" && b != "" && a[0] < b[0])
  {
    if head == "" {
      assert head + a == a && head + b == b;
    } else {
      assert (head + a)[1..] == head[1..] + a && (head + b)[1..] == head[1..] + b;
      LessExactly(head[1..], a, b);
    }
  }

  /** A text holds another one exactly when it is that with something before and after. */
  lemma ContainsExactly(s: string, sub: string)
    ensures Contains(s, sub) <==> exists a, b :: s == a + sub + b
  {
    if Contains(s, sub) { var a, b := Around(s, sub); }
    if a, b :| s == a + sub + b { HoldsInner(a, sub, b); }
  }

  lemma {:induction false} Around(s: string, sub: string) returns (a: string, b: string)
    requires Contains(s, sub)
    ensures s == a + sub + b
  {
    if s[..|sub|] == sub {
      a, b := "", s[|sub|..];
    } else {
      a, b := Around(s[1..], sub);
      a := [s[0]] + a;
    }
  }

  lemma {:induction false} HoldsInner(a: string, sub: string, b: string)
    ensures Contains(a + sub + b, sub)
  {
    var s := a + sub + b;
    if a == "" {
      assert s[..|sub|] == sub;
    } else {
      assert s[1..] == a[1..] + sub + b;
      HoldsInner(a[1..], sub, b);
    }
  }

  /** A number is printed without leading zeros; with its value and its digits, that is all of it. */
  lemma {:induction false} ItoaPlain(n: nat)
    ensures Itoa(n)[0] == '0' <==> n == 0
    ensures n < 10 ==> Itoa(n) == ["0123456789"[n]]
  {
    if n >= 10 { ItoaPlain(n / 10); }
  }

  /** One character of each width. */
  lemma Widths()
    ensures Utf8Length("z") == 1 && Utf8Length("\U{00E9}") == 2 && Utf8Length("\U{20AC}") == 3
    ensures Utf8Length("\U{1F600}") == 4
    ensures forall a: string, b: string :: Utf8Length(a + b) == Utf8Length(a) + Utf8Length(b)
  {
    forall a: string, b: string ensures Utf8Length(a + b) == Utf8Length(a) + Utf8Length(b) { Utf8Concat(a, b); }
  }

  lemma {:induction false} Utf8Concat(a: string, b: string)
    ensures Utf8Length(a + b) == Utf8Length(a) + Utf8Length(b)
  {
    if a == "" {
      assert a + b == b;
    } else {
      Utf8Concat(a[1..], b);
      assert (a + b)[1..] == a[1..] + b && (a + b)[0] == a[0];
    }
  }
}
