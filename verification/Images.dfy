/** Container image references: what the control plane accepts and what it stores. */
module Images {
  import opened Text

  const MAX_BYTES := 512

  predicate NotSlash(c: char) { c != '/' }

  /** What follows the last slash. */
  function LastSegment(s: string): string { s[RightCut(s, |s|, NotSlash)..] }

  /** Pinned by digest, or with a tag in the last segment: a colon before is a registry's port. */
  predicate Tagged(ref: string) { '@' in ref || ':' in LastSegment(ref) }

  predicate Blank(c: char) { c == ' ' || c == '\t' || c == '\n' || c == '\r' }

  predicate HasBlank(s: string) { exists i | 0 <= i < |s| :: Blank(s[i]) }

  /** validateImageRef: the reference that is stored, with a default tag. */
  function Validate(raw: string): Option<string> {
    var ref := TrimSpace(raw);
    if ref == "" || Utf8Length(ref) > MAX_BYTES || HasBlank(ref) then None
    else Some(if Tagged(ref) then ref else ref + ":latest")
  }

  /** What is accepted, and what is stored: the trimmed reference, with the tag "latest" unless it has a digest, or a
      tag after its last slash. */
  lemma ValidateExactly(raw: string, ref: string, segment: string)
    requires ref == TrimSpace(raw) && segment <= ref && '/' !in ref[|segment|..]
    requires segment == "" || segment[|segment| - 1] == '/'
    ensures Validate(raw) ==
            if ref == "" || Utf8Length(ref) > 512 || ' ' in ref || '\t' in ref || '\n' in ref || '\r' in ref then None
            else if '@' in ref || ':' in ref[|segment|..] then Some(ref)
            else Some(ref + ":latest")
  {
    var k := RightCut(ref, |ref|, NotSlash);
    assert segment == "" || ref[|segment| - 1] == '/';
    assert forall i | |segment| <= i < |ref| :: ref[i] == ref[|segment|..][i - |segment|];
    assert k == |segment|;
  }

  lemma LatestTagged(ref: string)
    ensures Tagged(ref + ":latest")
  {
    var s := ref + ":latest";
    var k := RightCut(s, |s|, NotSlash);
    assert k <= |ref|;
    assert LastSegment(s)[|ref| - k] == ':';
  }

  lemma DefaultTag(ref: string)
    requires ref != "" && !IsSpace(ref[0]) && !HasBlank(ref)
    ensures var v := ref + ":latest"; Trim(v, IsSpace) == v && !HasBlank(v) && Utf8Length(v) == Utf8Length(ref) + 7
  {
    var tag: string := ":latest";
    var v := ref + tag;
    Utf8Concat(ref, tag);
    AsciiLength(tag);
    assert v[0] == ref[0] && v[|v| - 1] == 't';
    TrimFixed(v, IsSpace);
    forall i | 0 <= i < |v| ensures !Blank(v[i]) {
      if i < |ref| { assert !Blank(ref[i]); } else { assert v[i] == tag[i - |ref|]; }
    }
  }

  /** A stored reference is accepted again, and then as it is, exactly when the default tag has not made it too
      long: a rollback to an image that was deployed can be refused. */
  lemma StoredAcceptedExactly(raw: string, stored: string)
    requires Validate(raw) == Some(stored)
    ensures Tagged(stored) && Utf8Length(stored) <= MAX_BYTES + 7
    ensures Validate(stored) == if Utf8Length(stored) <= MAX_BYTES then Some(stored) else None
  {
    var ref := TrimSpace(raw);
    TrimSound(raw, IsSpace);
    TrimFixed(ref, IsSpace);
    if !Tagged(ref) {
      LatestTagged(ref);
      DefaultTag(ref);
    }
  }

  /** A name of 512 letters is deployed, and is refused when rolled back to. */
  lemma LongNameRefused()
    ensures var name := seq(MAX_BYTES, _ => 'a');
            Validate(name) == Some(name + ":latest") && Validate(name + ":latest") == None
  {
    var name := seq(MAX_BYTES, _ => 'a');
    TrimFixed(name, IsSpace);
    AsciiLength(name);
    assert forall i | 0 <= i < |LastSegment(name)| :: LastSegment(name)[i] == 'a';
    assert !Tagged(name);
    StoredAcceptedExactly(name, name + ":latest");
    Utf8Concat(name, ":latest");
    AsciiLength(":latest");
  }
}
