/** apply: validate, rename, reload or start, and restore the Caddyfile. The commands and the file
    system answer as they like; what they answered is one Attempt. */
module CaddyManager {
  import opened Text
  import opened Routes
  import opened Caddyfile

  /** The Caddyfile on disk and the configuration the running Caddy has loaded, if any. */
  datatype State = State(file: Option<string>, loaded: Option<string>)

  /** How putting the previous file back ended. A failed write has already truncated the file, so
      it leaves some leading part of what it was to write. */
  datatype Restore = Restored | Untouched | Truncated(kept: nat)

  datatype Attempt = Attempt(
    readable: bool, prepared: bool, valid: bool, renamed: bool,
    reloaded: bool, started: bool, restore: Restore)

  datatype Failure =
    | RenderFailed(why: RenderError) | Unreadable | NotManaged | PrepareFailed | Invalid | RenameFailed
    | ReloadFailed(restored: bool)

  datatype Outcome = Applied | Failed(why: Failure)

  predicate Managed(text: string) { Contains(text, MARKER) }

  function Restoration(file: Option<string>, written: string, r: Restore): Option<string> {
    match r
    case Restored => file
    case Untouched => Some(written)
    case Truncated(kept) =>
      if file.None? then Some(written)
      else Some(file.value[..if kept <= |file.value| then kept else |file.value|])
  }

  /** One call of apply with what it rendered. */
  function Step(s: State, rendered: Result<string, RenderError>, a: Attempt): (State, Outcome) {
    if rendered.Err? then (s, Failed(RenderFailed(rendered.error)))
    else if s.file.Some? && !a.readable then (s, Failed(Unreadable))
    else if s.file.Some? && !Managed(s.file.value) then (s, Failed(NotManaged))
    else if !a.prepared then (s, Failed(PrepareFailed))
    else if !a.valid then (s, Failed(Invalid))
    else if !a.renamed then (s, Failed(RenameFailed))
    else if a.reloaded || a.started then (State(Some(rendered.value), Some(rendered.value)), Applied)
    else (s.(file := Restoration(s.file, rendered.value, a.restore)), Failed(ReloadFailed(a.restore.Restored?)))
  }

  class Manager {
    const cfg: Settings
    var file: Option<string>
    var loaded: Option<string>

    function Now(): State
      reads this
    {
      State(file, loaded)
    }

    constructor (cfg: Settings, file: Option<string>, loaded: Option<string>)
      ensures this.cfg == cfg && Now() == State(file, loaded)
    {
      this.cfg, this.file, this.loaded := cfg, file, loaded;
    }

    method ReadExisting(a: Attempt) returns (r: Result<Option<string>, Failure>)
      ensures r == if file.None? then Ok(None)
                   else if !a.readable then Err(Unreadable)
                   else if !Managed(file.value) then Err(NotManaged)
                   else Ok(file)
    {
      if file.None? { return Ok(None); }
      if !a.readable { return Err(Unreadable); }
      if !Contains(file.value, MARKER) { return Err(NotManaged); }
      return Ok(file);
    }

    method RestoreConfig(previous: Option<string>, a: Attempt) returns (ok: bool)
      requires file.Some?
      modifies this`file
      ensures ok == a.restore.Restored?
      ensures file == Restoration(previous, old(file.value), a.restore)
    {
      if previous.None? {
        if a.restore.Restored? { file := None; }
        return a.restore.Restored?;
      }
      match a.restore
      case Restored => file := previous; return true;
      case Untouched => return false;
      case Truncated(kept) =>
        var text := previous.value;
        file := Some(text[..if kept <= |text| then kept else |text|]);
        return false;
    }

    method Apply(routes: seq<Route>, a: Attempt) returns (o: Outcome)
      modifies this
      ensures (Now(), o) == Step(old(Now()), Render(routes, cfg), a)
    {
      var rendered := RenderText(routes, cfg);
      o := Install(rendered, a);
    }

    /** apply once the text is rendered: read, prepare, validate, rename, then reload or start. */
    method Install(rendered: Result<string, RenderError>, a: Attempt) returns (o: Outcome)
      modifies this
      ensures (Now(), o) == Step(old(Now()), rendered, a)
    {
      if rendered.Err? { return Failed(RenderFailed(rendered.error)); }
      var existing := ReadExisting(a);
      if existing.Err? { return Failed(existing.error); }
      if !a.prepared { return Failed(PrepareFailed); }
      if !a.valid { return Failed(Invalid); }
      if !a.renamed { return Failed(RenameFailed); }
      file := Some(rendered.value);
      if !a.reloaded {
        if a.started {
          loaded := file;
          return Applied;
        }
        var restored := RestoreConfig(existing.value, a);
        return Failed(ReloadFailed(restored));
      }
      loaded := file;
      return Applied;
    }
  }

  // ---- One call ----

  predicate LeadingPart(t: string, whole: string) { t <= whole }

  /** Success leaves file and loaded configuration equal to the text. Failure never changes what is
      loaded, and changes the file only if the restore itself failed; then the file is the new text
      or a leading part of the previous one. */
  lemma StepOutcome(s: State, rendered: Result<string, RenderError>, a: Attempt)
    ensures var (s', o) := Step(s, rendered, a);
            if o.Applied? then rendered.Ok? && s' == State(Some(rendered.value), Some(rendered.value))
            else s'.loaded == s.loaded
                 && (s'.file != s.file ==>
                     && o.why == ReloadFailed(false)
                     && s'.file.Some?
                     && (s'.file.value == rendered.value || (s.file.Some? && LeadingPart(s'.file.value, s.file.value))))
  {
  }

  // ---- Whole runs ----

  datatype Call = Call(rendered: Result<string, RenderError>, attempt: Attempt)

  function Run(s: State, calls: seq<Call>): State {
    if calls == [] then s
    else Step(Run(s, calls[..|calls| - 1]), calls[|calls| - 1].rendered, calls[|calls| - 1].attempt).0
  }

  function OutcomeAt(s: State, calls: seq<Call>, k: nat): Outcome
    requires k < |calls|
  {
    Step(Run(s, calls[..k]), calls[k].rendered, calls[k].attempt).1
  }

  /** The text of the last successful call of a run. */
  function LastApplied(s: State, calls: seq<Call>): Option<string> {
    if calls == [] then None
    else if OutcomeAt(s, calls, |calls| - 1).Applied? then Some(calls[|calls| - 1].rendered.value)
    else LastApplied(s, calls[..|calls| - 1])
  }

  predicate RestoresHeld(s: State, calls: seq<Call>) {
    forall k | 0 <= k < |calls| :: OutcomeAt(s, calls, k) != Failed(ReloadFailed(false))
  }

  lemma EarlierOutcomes(s: State, calls: seq<Call>)
    requires calls != []
    ensures var init := calls[..|calls| - 1];
            forall k | 0 <= k < |init| :: OutcomeAt(s, init, k) == OutcomeAt(s, calls, k)
  {
    var init := calls[..|calls| - 1];
    forall k | 0 <= k < |init| ensures OutcomeAt(s, init, k) == OutcomeAt(s, calls, k) {
      assert init[..k] == calls[..k];
    }
  }

  /** In a run whose restores all worked, file and loaded configuration are both the text of the last
      successful call, or both as at the start when no call succeeded. */
  lemma {:induction false} RunKeepsLastApplied(s: State, calls: seq<Call>)
    requires RestoresHeld(s, calls)
    ensures Run(s, calls) == match LastApplied(s, calls) case Some(text) => State(Some(text), Some(text)) case None => s
  {
    if calls != [] {
      var init := calls[..|calls| - 1];
      EarlierOutcomes(s, calls);
      RunKeepsLastApplied(s, init);
      StepOutcome(Run(s, init), calls[|calls| - 1].rendered, calls[|calls| - 1].attempt);
      assert OutcomeAt(s, calls, |calls| - 1) != Failed(ReloadFailed(false));
    }
  }

  /** Whatever Caddy has loaded, restores or not, is the text of the last successful call. */
  lemma {:induction false} RunLoaded(s: State, calls: seq<Call>)
    ensures Run(s, calls).loaded == match LastApplied(s, calls) case Some(text) => Some(text) case None => s.loaded
  {
    if calls != [] {
      RunLoaded(s, calls[..|calls| - 1]);
      StepOutcome(Run(s, calls[..|calls| - 1]), calls[|calls| - 1].rendered, calls[|calls| - 1].attempt);
    }
  }

  /** A file that is not the agent's is never touched, and every call fails. */
  lemma {:induction false} ForeignFileKept(s: State, calls: seq<Call>)
    requires s.file.Some? && !Managed(s.file.value)
    ensures Run(s, calls) == s
    ensures forall k | 0 <= k < |calls| :: OutcomeAt(s, calls, k).Failed?
  {
    if calls != [] {
      var init := calls[..|calls| - 1];
      ForeignFileKept(s, init);
      EarlierOutcomes(s, calls);
    }
  }

  predicate Acceptable(s: State) { s.file.None? || Managed(s.file.value) }

  predicate Renders(c: Call) { c.rendered.Ok? ==> Managed(c.rendered.value) }

  /** Where the marker's first occurrence in a managed file ends. */
  function MarkerEnd(text: string): nat
    requires Managed(text)
  {
    FirstAt(text, MARKER) + |MARKER|
  }

  /** Everything up to the rename worked, and then neither the reload nor a fresh start did. */
  predicate ReloadsFail(a: Attempt) { a.readable && a.prepared && a.valid && a.renamed && !a.reloaded && !a.started }

  /** One call makes an acceptable file unacceptable exactly when there was a file, reloading failed, and
      writing the file back was cut before the end of its marker. */
  lemma LosesFileExactly(s: State, c: Call)
    requires Acceptable(s) && Renders(c)
    ensures !Acceptable(Step(s, c.rendered, c.attempt).0) <==>
            && c.rendered.Ok? && s.file.Some? && ReloadsFail(c.attempt)
            && c.attempt.restore.Truncated? && c.attempt.restore.kept < MarkerEnd(s.file.value)
  {
    if s.file.Some? && c.attempt.restore.Truncated? {
      var text, kept := s.file.value, c.attempt.restore.kept;
      assert text[..|text|] == text;
      LeadingContains(text, MARKER, if kept <= |text| then kept else |text|);
    }
  }

  /** In a file the agent rendered the marker comes first, so it is lost exactly when less than the marker
      was written back. */
  lemma RenderedFileLostExactly(routes: seq<Route>, cfg: Settings, loaded: Option<string>, c: Call)
    requires Render(routes, cfg).Ok? && Renders(c)
    ensures !Acceptable(Step(State(Some(Render(routes, cfg).value), loaded), c.rendered, c.attempt).0) <==>
            && c.rendered.Ok? && ReloadsFail(c.attempt)
            && c.attempt.restore.Truncated? && c.attempt.restore.kept < |MARKER|
  {
    var text := Render(routes, cfg).value;
    RenderIsManaged(routes, cfg);
    assert text[..|MARKER|] == MARKER;
    LosesFileExactly(State(Some(text), loaded), c);
  }

  /** A file the agent wrote is never refused later, in any run whose restores all worked. */
  lemma {:induction false} WrittenFileAccepted(s: State, calls: seq<Call>)
    requires Acceptable(s) && RestoresHeld(s, calls)
    requires forall k | 0 <= k < |calls| :: Renders(calls[k])
    ensures Acceptable(Run(s, calls))
    ensures forall k | 0 <= k < |calls| :: OutcomeAt(s, calls, k) != Failed(NotManaged)
  {
    if calls != [] {
      var init, last := calls[..|calls| - 1], calls[|calls| - 1];
      EarlierOutcomes(s, calls);
      WrittenFileAccepted(s, init);
      assert OutcomeAt(s, calls, |calls| - 1) != Failed(ReloadFailed(false));
      LosesFileExactly(Run(s, init), last);
    }
  }

  /** Every call the agent makes renders a managed file. */
  lemma AgentCallsRenderManaged(routes: seq<Route>, cfg: Settings, a: Attempt)
    ensures Renders(Call(Render(routes, cfg), a))
  {
    if Render(routes, cfg).Ok? { RenderIsManaged(routes, cfg); }
  }

  /** A restore that fails after truncating the file makes the agent refuse its own file: from then
      on no call succeeds. */
  lemma TruncatedRestoreLocksOut(text: string, next: string, calls: seq<Call>)
    requires Managed(text)
    ensures var broken := Attempt(true, true, true, true, false, false, Truncated(0));
            var s := State(Some(text), Some(text));
            forall k | 0 <= k < |calls| :: OutcomeAt(Step(s, Ok(next), broken).0, calls, k).Failed?
  {
    var broken := Attempt(true, true, true, true, false, false, Truncated(0));
    var s := Step(State(Some(text), Some(text)), Ok(next), broken).0;
    assert s.file == Some(text[..0]) && !Managed(text[..0]);
    ForeignFileKept(s, calls);
  }
}
