/** Turning command output into lines: the emitter that is fed in pieces, and the tail of a whole. */
module LineEmitter {
  import opened Text

  predicate IsReturn(c: char) { c == '\r' }

  /** A line without its trailing returns. */
  function Bare(s: string): string {
    if s != "" && s[|s| - 1] == '\r' then Bare(s[..|s| - 1]) else s
  }

  predicate Blank(s: string) { s == "" || (IsSpace(s[0]) && Blank(s[1..])) }

  /** What emitting one line adds: the bare line, or nothing if that is blank. */
  function EmitLine(line: string): seq<string> { if Blank(Bare(line)) then [] else [Bare(line)] }

  lemma {:induction false} BareCut(s: string, n: nat)
    requires n <= |s|
    ensures Bare(s[..n]) == s[..RightCut(s, n, IsReturn)]
  {
    if 0 < n && s[n - 1] == '\r' {
      assert s[..n][..n - 1] == s[..n - 1];
      BareCut(s, n - 1);
    }
  }

  lemma BareTrimmed(s: string)
    ensures TrimRight(s, IsReturn) == Bare(s)
  {
    BareCut(s, |s|);
    assert s[..|s|] == s;
  }

  lemma {:induction false} BlankCut(s: string, i: nat)
    requires i <= |s|
    ensures Blank(s[i..]) <==> LeftCut(s, i, IsSpace) == |s|
    decreases |s| - i
  {
    if i < |s| {
      assert s[i..][1..] == s[i + 1..];
      BlankCut(s, i + 1);
    }
  }

  lemma BlankTrimmed(s: string)
    ensures TrimSpace(s) == "" <==> Blank(s)
  {
    BlankCut(s, 0);
    var t := TrimLeft(s, IsSpace);
    if t != "" { TrimKeepsFirst(t); }
  }

  lemma TrimKeepsFirst(t: string)
    requires t != "" && !IsSpace(t[0])
    ensures TrimRight(t, IsSpace) != ""
  {
    assert RightCut(t, |t|, IsSpace) > 0;
  }

  function EmitAll(parts: seq<string>): seq<string> {
    if parts == [] then [] else EmitAll(parts[..|parts| - 1]) + EmitLine(parts[|parts| - 1])
  }

  /** The lines of a whole text. */
  function Lines(s: string): seq<string> { EmitAll(Split(s, '\n')) }

  lemma {:induction false} EmitAllConcat(a: seq<string>, b: seq<string>)
    ensures EmitAll(a + b) == EmitAll(a) + EmitAll(b)
  {
    if b == [] {
      assert a + b == a;
    } else {
      EmitAllConcat(a, b[..|b| - 1]);
      assert (a + b)[..|a + b| - 1] == a + b[..|b| - 1];
      Assoc(EmitAll(a), EmitAll(b[..|b| - 1]), EmitLine(b[|b| - 1]));
    }
  }

  function AllButLast(parts: seq<string>): seq<string>
    requires parts != []
  {
    parts[..|parts| - 1]
  }

  function LastPart(parts: seq<string>): string
    requires parts != []
  {
    parts[|parts| - 1]
  }

  /** What has been emitted and what is still buffered once a text has been written. */
  predicate Holds(emitted: seq<string>, buf: string, written: string) {
    emitted == EmitAll(AllButLast(Split(written, '\n'))) && buf == LastPart(Split(written, '\n'))
  }

  lemma GlueLast(xs: seq<string>, ys: seq<string>)
    requires xs != [] && ys != []
    ensures var more := Glue([LastPart(xs)], ys);
            AllButLast(Glue(xs, ys)) == AllButLast(xs) + AllButLast(more) && LastPart(Glue(xs, ys)) == LastPart(more)
  {
    var more, whole := Glue([LastPart(xs)], ys), Glue(xs, ys);
    assert [LastPart(xs)][..0] == [];
    assert whole == AllButLast(xs) + more;
  }

  /** The buffered rest joins up with what is written next. */
  lemma WriteMore(emitted: seq<string>, buf: string, written: string, p: string)
    requires Holds(emitted, buf, written)
    ensures emitted + EmitAll(AllButLast(Split(buf + p, '\n'))) == EmitAll(AllButLast(Split(written + p, '\n')))
    ensures LastPart(Split(buf + p, '\n')) == LastPart(Split(written + p, '\n'))
  {
    var xs, ys := Split(written, '\n'), Split(p, '\n');
    SplitConcat(written, p, '\n');
    assert Split(buf + p, '\n') == Glue([buf], ys) by {
      SplitConcat(buf, p, '\n');
      SplitFree(written, '\n', |xs| - 1);
      SplitWhole(buf, '\n');
    }
    GlueLast(xs, ys);
    EmitAllConcat(AllButLast(xs), AllButLast(Glue([buf], ys)));
  }

  lemma EmitOne(line: string)
    ensures EmitAll([line]) == EmitLine(line)
  {
    assert [line][..0] == [];
    assert EmitAll([line][..0]) == [];
  }

  lemma EmitFirst(line: string, rest: seq<string>)
    requires rest != []
    ensures EmitAll(AllButLast([line] + rest)) == EmitLine(line) + EmitAll(AllButLast(rest))
  {
    var before := AllButLast(rest);
    assert AllButLast([line] + rest) == [line] + before;
    EmitAllConcat([line], before);
    EmitOne(line);
  }

  lemma FirstOf(line: string, rest: string)
    requires '\n' !in line
    ensures EmitAll(AllButLast(Split(line + ['\n'] + rest, '\n'))) == EmitLine(line)
              + EmitAll(AllButLast(Split(rest, '\n')))
    ensures LastPart(Split(line + ['\n'] + rest, '\n')) == LastPart(Split(rest, '\n'))
  {
    SplitCons(line, rest, '\n');
    EmitFirst(line, Split(rest, '\n'));
  }

  /** Cutting the first line off a buffer. */
  lemma FirstLine(buf: string, i: nat)
    requires i < |buf| && buf[i] == '\n' && '\n' !in buf[..i]
    ensures EmitAll(AllButLast(Split(buf, '\n'))) == EmitLine(buf[..i]) + EmitAll(AllButLast(Split(buf[i + 1..], '\n')))
    ensures LastPart(Split(buf, '\n')) == LastPart(Split(buf[i + 1..], '\n'))
  {
    assert buf == buf[..i] + ['\n'] + buf[i + 1..];
    FirstOf(buf[..i], buf[i + 1..]);
  }

  /** The bare line, unless it is blank. */
  method TrimLine(line: string) returns (l: Option<string>)
    ensures EmitLine(line) == if l.Some? then [l.value] else []
  {
    var t := TrimRight(line, IsReturn);
    BareTrimmed(line);
    BlankTrimmed(t);
    l := if TrimSpace(t) == "" then None else Some(t);
  }

  class Emitter {
    var buf: string
    var emitted: seq<string>
    /** Everything written so far. */
    ghost var written: string

    ghost predicate Valid()
      reads this
    {
      Holds(emitted, buf, written)
    }

    constructor ()
      ensures Valid() && written == "" && emitted == [] && buf == ""
    {
      buf, emitted, written := "", [], "";
    }

    method Emit(line: string)
      modifies this`emitted
      ensures emitted == old(emitted) + EmitLine(line)
    {
      var l := TrimLine(line);
      if l.Some? { emitted := emitted + [l.value]; }
    }

    /** Emit every line that is complete, and keep the rest. */
    method Write(p: string) returns (n: nat)
      requires Valid()
      modifies this
      ensures Valid() && written == old(written) + p && n == |p|
    {
      WriteMore(emitted, buf, written, p);
      buf := buf + p;
      written := written + p;
      ghost var all := EmitAll(AllButLast(Split(written, '\n')));
      while true
        invariant emitted + EmitAll(AllButLast(Split(buf, '\n'))) == all
        invariant LastPart(Split(buf, '\n')) == LastPart(Split(written, '\n'))
        invariant written == old(written) + p
        decreases |buf|
      {
        var i := IndexOfBreak(buf);
        if i < 0 {
          SplitWhole(buf, '\n');
          assert EmitAll([buf][..0]) == [];
          break;
        }
        FirstLine(buf, i);
        Assoc(emitted, EmitLine(buf[..i]), EmitAll(AllButLast(Split(buf[i + 1..], '\n'))));
        Emit(buf[..i]);
        buf := buf[i + 1..];
      }
      return |p|;
    }

    /** Emit the last line, if it was not ended, and empty the buffer: the emitted lines are those of
        everything written, however it was cut. */
    method Flush()
      requires Valid()
      modifies this
      ensures emitted == Lines(old(written)) && buf == ""
    {
      ghost var parts := Split(written, '\n');
      assert parts == AllButLast(parts) + [LastPart(parts)];
      if |buf| > 0 {
        Emit(buf);
        buf := "";
      } else {
        assert EmitLine("") == [];
      }
    }
  }

  method IndexOfBreak(s: string) returns (i: int)
    ensures -1 <= i < |s|
    ensures 0 <= i ==> s[i] == '\n' && '\n' !in s[..i]
    ensures i < 0 ==> '\n' !in s
  {
    i := 0;
    while i < |s|
      invariant 0 <= i <= |s| && '\n' !in s[..i]
    {
      if s[i] == '\n' { return; }
      i := i + 1;
    }
    assert s[..|s|] == s;
    i := -1;
  }

  /** The whole stream in any number of writes, then a flush. */
  method Feed(chunks: seq<string>) returns (lines: seq<string>)
    ensures lines == Lines(Joined(chunks))
  {
    var e := new Emitter();
    for k := 0 to |chunks|
      invariant fresh(e) && e.Valid() && e.written == Joined(chunks[..k])
    {
      var n := e.Write(chunks[k]);
      assert chunks[..k + 1][..k] == chunks[..k];
    }
    assert chunks[..|chunks|] == chunks;
    e.Flush();
    lines := e.emitted;
  }

  function Joined(chunks: seq<string>): string {
    if chunks == [] then "" else Joined(chunks[..|chunks| - 1]) + chunks[|chunks| - 1]
  }

  // ---- The tail of a whole text ----

  /** Line breaks of two characters become one. */
  function Unix(s: string): string {
    if |s| >= 2 && s[0] == '\r' && s[1] == '\n' then "\n" + Unix(s[2..])
    else if s == "" then ""
    else [s[0]] + Unix(s[1..])
  }

  function LastN(lines: seq<string>, limit: nat): seq<string> {
    if |lines| > limit then lines[|lines| - limit..] else lines
  }

  /** tailLines: split after replacing line breaks, drop blank lines, and keep the last ones. */
  method TailLines(s: string, limit: nat) returns (lines: seq<string>)
    ensures lines == LastN(Lines(s), limit)
  {
    var raw := Split(Unix(s), '\n');
    lines := [];
    for k := 0 to |raw|
      invariant lines == EmitAll(raw[..k])
    {
      assert raw[..k + 1][..k] == raw[..k];
      var l := TrimLine(raw[k]);
      if l.None? { continue; }
      lines := lines + [l.value];
    }
    assert raw[..|raw|] == raw;
    UnixLines(s);
    if |lines| > limit { lines := lines[|lines| - limit..]; }
  }

  /** Parts that are emitted alike: the same up to trailing returns. */
  predicate Alike(ps: seq<string>, qs: seq<string>) {
    |ps| == |qs| && forall k | 0 <= k < |ps| :: Bare(ps[k]) == Bare(qs[k])
  }

  lemma {:induction false} AlikeEmits(ps: seq<string>, qs: seq<string>)
    requires Alike(ps, qs)
    ensures EmitAll(ps) == EmitAll(qs)
  {
    if ps != [] { AlikeEmits(ps[..|ps| - 1], qs[..|qs| - 1]); }
  }

  lemma {:induction false} BareCons(c: char, s: string)
    ensures Bare([c] + s) == if Bare(s) == "" && c == '\r' then "" else [c] + Bare(s)
  {
    var x := [c] + s;
    if s == "" {
      assert x == [c] && [c][..0] == "";
    } else if s[|s| - 1] == '\r' {
      assert x[..|x| - 1] == [c] + s[..|s| - 1];
      BareCons(c, s[..|s| - 1]);
    }
  }

  lemma ConsAlike(p: string, q: string, ps: seq<string>, qs: seq<string>)
    requires Alike(ps, qs) && Bare(p) == Bare(q)
    ensures Alike([p] + ps, [q] + qs)
  {
  }

  lemma PushAlike(c: char, ps: seq<string>, qs: seq<string>)
    requires Alike(ps, qs) && ps != []
    ensures Alike(Push(c, '\n', ps), Push(c, '\n', qs))
  {
    if c == '\n' {
      ConsAlike([], [], ps, qs);
    } else {
      BareCons(c, ps[0]);
      BareCons(c, qs[0]);
      assert Alike(ps[1..], qs[1..]);
      ConsAlike([c] + ps[0], [c] + qs[0], ps[1..], qs[1..]);
    }
  }

  lemma {:induction false} UnixAlike(s: string)
    ensures Alike(Split(s, '\n'), Split(Unix(s), '\n'))
    decreases |s|
  {
    if |s| >= 2 && s[0] == '\r' && s[1] == '\n' {
      UnixAlike(s[2..]);
      var ps, qs := Split(s[2..], '\n'), Split(Unix(s[2..]), '\n');
      assert s[1..][1..] == s[2..] && ("\n" + Unix(s[2..]))[1..] == Unix(s[2..]);
      assert Split(s[1..], '\n') == [[]] + ps;
      assert Split(Unix(s), '\n') == [[]] + qs;
      OneReturn(ps);
      ConsAlike(['\r'], [], ps, qs);
    } else if s != "" {
      UnixAlike(s[1..]);
      PushAlike(s[0], Split(s[1..], '\n'), Split(Unix(s[1..]), '\n'));
      assert ([s[0]] + Unix(s[1..]))[1..] == Unix(s[1..]);
    }
  }

  lemma OneReturn(ps: seq<string>)
    ensures Bare(['\r']) == Bare([])
    ensures Push('\r', '\n', [[]] + ps) == [['\r']] + ps
  {
    assert ['\r'][..0] == [];
    assert ['\r'] + [] == ['\r'];
    assert ([[]] + ps)[1..] == ps;
  }

  /** The replacement changes no line: returns are trimmed anyway. */
  lemma UnixLines(s: string)
    ensures Lines(Unix(s)) == Lines(s)
  {
    UnixAlike(s);
    AlikeEmits(Split(s, '\n'), Split(Unix(s), '\n'));
  }

  // ---- The lines of a text ----

  /** A line of content c, then any returns and a line break, gives c unless that is white space only; so does
      such a line without a break at the end. This says what the lines of every text are. */
  lemma LinesExactly(c: string, ends: string, rest: string)
    requires '\n' !in c && (c == "" || c[|c| - 1] != '\r')
    requires forall i | 0 <= i < |ends| :: ends[i] == '\r'
    ensures var line := if forall i | 0 <= i < |c| :: IsSpace(c[i]) then [] else [c];
            Lines(c + ends) == line && Lines(c + ends + "\n" + rest) == line + Lines(rest)
  {
    var raw := c + ends;
    assert '\n' !in raw;
    BareOf(c, ends);
    BlankExactly(c);
    SplitWhole(raw, '\n');
    EmitOne(raw);
    SplitCons(raw, rest, '\n');
    EmitAllConcat([raw], Split(rest, '\n'));
  }

  lemma {:induction false} BareOf(c: string, ends: string)
    requires c == "" || c[|c| - 1] != '\r'
    requires forall i | 0 <= i < |ends| :: ends[i] == '\r'
    ensures Bare(c + ends) == c
  {
    if ends == "" {
      assert c + ends == c;
    } else {
      var init := ends[..|ends| - 1];
      assert (c + ends)[..|c + ends| - 1] == c + init;
      BareOf(c, init);
    }
  }

  lemma {:induction false} BlankExactly(s: string)
    ensures Blank(s) <==> forall i | 0 <= i < |s| :: IsSpace(s[i])
  {
    if s != "" {
      BlankExactly(s[1..]);
      assert forall i | 0 < i < |s| :: s[i] == s[1..][i - 1];
    }
  }
}
