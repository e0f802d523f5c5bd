/** Quoting a string for a remote shell, and reading it back by the quoting rules of the POSIX shell
    (sections 2.2.1 and 2.2.2: escape character and single-quotes). */
module ShellQuote {
  import opened Text

  /** Every single quote closes the quotes, adds an escaped quote, and opens them again. */
  function Escaped(s: string): string {
    if s == "" then "" else (if s[0] == '\'' then "'\\''" else [s[0]]) + Escaped(s[1..])
  }

  function Quote(s: string): string { "'" + Escaped(s) + "'" }

  /** strings.ReplaceAll and the two quotes around it. */
  method ShellQuote(s: string) returns (quoted: string)
    ensures quoted == Quote(s)
  {
    var inner := "";
    for k := 0 to |s|
      invariant inner + Escaped(s[k..]) == Escaped(s)
    {
      assert s[k..][1..] == s[k + 1..];
      var piece := if s[k] == '\'' then "'\\''" else [s[k]];
      assert inner + (piece + Escaped(s[k + 1..])) == inner + piece + Escaped(s[k + 1..]);
      inner := inner + piece;
    }
    assert Escaped(s[|s|..]) == "" && inner + "" == inner;
    quoted := "'" + inner + "'";
  }

  // ---- The shell's side ----

  /** Characters with a meaning of their own outside quotes. Double quotes and expansions are not read here:
      a text that needs them has no reading. */
  predicate Special(c: char) { c in {'|', '&', ';', '<', '>', '(', ')', '$', '`', '"', '*', '?', '[', '#', '~', '=',
          '%', '!', '{', '}'} }

  predicate Separates(c: char) { c == ' ' || c == '\t' || c == '\n' }

  /** The rest of one word and the text after it. Inside single quotes every character stands for itself up
      to the next quote; outside, a backslash keeps the next character literal, except that it joins
      lines before a line break. */
  function ReadWord(s: string, quoted: bool): Option<(string, string)>
    decreases |s|
  {
    if s == "" then (if quoted then None else Some(("", "")))
    else if quoted then
      if s[0] == '\'' then ReadWord(s[1..], false) else Then([s[0]], ReadWord(s[1..], true))
    else if Separates(s[0]) then Some(("", s))
    else if s[0] == '\'' then ReadWord(s[1..], true)
    else if s[0] == '\\' then
      if |s| == 1 then None
      else if s[1] == '\n' then ReadWord(s[2..], false)
      else Then([s[1]], ReadWord(s[2..], false))
    else if Special(s[0]) then None
    else Then([s[0]], ReadWord(s[1..], false))
  }

  function Then(head: string, rest: Option<(string, string)>): Option<(string, string)> {
    if rest.None? then None else Some((head + rest.value.0, rest.value.1))
  }

  predicate Ends(rest: string) { rest == "" || Separates(rest[0]) }

  /** Inside the quotes the reader gets back each character and stops at the closing quote. */
  lemma {:induction false} ReadEscaped(s: string, rest: string)
    requires Ends(rest)
    ensures ReadWord(Escaped(s) + "'" + rest, true) == Some((s, rest))
  {
    var text := Escaped(s) + "'" + rest;
    if s == "" {
      assert text == "'" + rest && text[1..] == rest;
    } else {
      ReadEscaped(s[1..], rest);
      var more := Escaped(s[1..]) + "'" + rest;
      if s[0] == '\'' {
        ReadQuote(more);
        assert text == "'\\''" + more;
      } else {
        assert text == [s[0]] + more && text[1..] == more;
      }
      assert [s[0]] + s[1..] == s;
    }
  }

  /** The four characters that stand for a quote. */
  lemma ReadQuote(more: string)
    ensures ReadWord("'\\''" + more, true) == Then("'", ReadWord(more, true))
  {
    var text, escaped, reopened := "'\\''" + more, "\\''" + more, "'" + more;
    assert text[1..] == escaped && escaped[2..] == reopened && reopened[1..] == more;
    assert ReadWord(reopened, false) == ReadWord(more, true);
    assert escaped[1] == '\'' && ReadWord(escaped, false) == Then(['\''], ReadWord(reopened, false));
    assert ReadWord(text, true) == ReadWord(escaped, false);
  }

  /** Reading a quoted string gives exactly the one word, and stops at its end. */
  lemma QuotedIsOneWord(s: string, rest: string)
    requires Ends(rest)
    ensures ReadWord(Quote(s) + rest, false) == Some((s, rest))
  {
    var text := Quote(s) + rest;
    assert text[1..] == Escaped(s) + "'" + rest;
    ReadEscaped(s, rest);
  }

  predicate PlainChar(c: char) { !Special(c) && !Separates(c) && c != '\'' && c != '\\' }

  /** An unquoted word without special characters reads as itself. */
  lemma {:induction false} PlainIsOneWord(s: string, rest: string)
    requires All(s, PlainChar) && Ends(rest)
    ensures ReadWord(s + rest, false) == Some((s, rest))
  {
    if s == "" {
      assert s + rest == rest;
    } else {
      assert PlainChar(s[0]);
      assert All(s[1..], PlainChar);
      PlainIsOneWord(s[1..], rest);
      assert (s + rest)[1..] == s[1..] + rest && [s[0]] + s[1..] == s;
    }
  }

  // ---- A whole command line ----

  /** The words of a command line. */
  function ReadWords(s: string): Option<seq<string>>
    decreases |s|
  {
    if s == "" then Some([])
    else if Separates(s[0]) then ReadWords(s[1..])
    else match ReadWord(s, false)
      case None => None
      case Some((word, rest)) =>
        if |rest| >= |s| then None
        else match ReadWords(rest) case None => None case Some(words) => Some([word] + words)
  }

  /** One word, and the words after it. */
  lemma FirstWord(text: string, word: string, rest: string, words: seq<string>)
    requires text != "" && !Separates(text[0]) && |rest| < |text|
    requires ReadWord(text, false) == Some((word, rest)) && ReadWords(rest) == Some(words)
    ensures ReadWords(text) == Some([word] + words)
  {
  }

  lemma AfterSpace(rest: string)
    ensures ReadWords(" " + rest) == ReadWords(rest)
  {
    assert (" " + rest)[1..] == rest;
  }

  lemma TakePlain(word: string, rest: string, words: seq<string>)
    requires word != "" && All(word, PlainChar) && ReadWords(rest) == Some(words)
    ensures ReadWords(word + (" " + rest)) == Some([word] + words)
  {
    PlainIsOneWord(word, " " + rest);
    AfterSpace(rest);
    assert PlainChar(word[0]);
    FirstWord(word + (" " + rest), word, " " + rest, words);
  }

  lemma TakeQuoted(s: string, rest: string, words: seq<string>)
    requires ReadWords(rest) == Some(words)
    ensures ReadWords(Quote(s) + (" " + rest)) == Some([s] + words)
  {
    QuotedIsOneWord(s, " " + rest);
    AfterSpace(rest);
    FirstWord(Quote(s) + (" " + rest), s, " " + rest, words);
  }

  lemma LastQuoted(s: string)
    ensures ReadWords(Quote(s)) == Some([s])
  {
    QuotedIsOneWord(s, "");
    assert Quote(s) + "" == Quote(s);
    FirstWord(Quote(s), s, "", []);
    assert [s] + [] == [s];
  }

  function Line(words: seq<string>): string {
    if words == [] then "" else if |words| == 1 then Quote(words[0]) else Quote(words[0]) + " " + Line(words[1..])
  }

  /** Any arguments, quoted and joined by spaces, arrive as they were. */
  lemma {:induction false} ArgumentsArrive(words: seq<string>)
    ensures ReadWords(Line(words)) == Some(words)
  {
    if |words| == 1 {
      LastQuoted(words[0]);
      assert [words[0]] == words;
    } else if words != [] {
      ArgumentsArrive(words[1..]);
      TakeQuoted(words[0], Line(words[1..]), words[1..]);
      assert Line(words) == Quote(words[0]) + (" " + Line(words[1..]));
      assert [words[0]] + words[1..] == words;
    }
  }
}
