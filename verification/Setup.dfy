/** Preparing a server over SSH: six steps in order, each reported as it starts and ends. What the
    server, the control plane and the caller's context answer is part of the input. */
module Setup {
  import opened Text
  import LineEmitter
  import ShellQuote
  import opened SetupSteps

  // ---- Events ----

  datatype Event =
    | Started(step: Name) | Log(step: Name, line: Line) | Done(step: Name) | Failed(step: Name, reason: Reason)

  function Logs(step: Name, lines: seq<Line>): seq<Event> {
    if lines == [] then [] else Logs(step, lines[..|lines| - 1]) + [Log(step, lines[|lines| - 1])]
  }

  lemma {:induction false} LogsConcat(step: Name, a: seq<Line>, b: seq<Line>)
    ensures Logs(step, a + b) == Logs(step, a) + Logs(step, b)
  {
    if b == [] {
      assert a + b == a;
    } else {
      LogsConcat(step, a, b[..|b| - 1]);
      assert (a + b)[..|a + b| - 1] == a + b[..|b| - 1];
      Assoc(Logs(step, a), Logs(step, b[..|b| - 1]), [Log(step, b[|b| - 1])]);
    }
  }

  /** More lines behind those of a step. */
  lemma LogsMore(past: seq<Event>, step: Name, a: seq<Line>, b: seq<Line>)
    ensures past + Logs(step, a) + Logs(step, b) == past + Logs(step, a + b)
  {
    LogsConcat(step, a, b);
    Assoc(past, Logs(step, a), Logs(step, b));
  }

  lemma LogsNext(past: seq<Event>, step: Name, lines: seq<Line>, n: nat)
    requires n < |lines|
    ensures past + Logs(step, lines[..n]) + [Log(step, lines[n])] == past + Logs(step, lines[..n + 1])
  {
    assert lines[..n + 1][..n] == lines[..n];
  }

  /** How a step was left: not begun because the context was canceled, failed, or done. */
  datatype Verdict = Canceled | Broke(reason: Reason) | Passed

  /** What one turn of the loop came to, which command and which look at the context it began with, and how many
      commands it ran. */
  datatype Bracket = Bracket(step: Name, call: nat, look: nat, ran: nat, lines: seq<Line>, verdict: Verdict)

  /** The bracket says what its step came to. */
  predicate Fits(b: Bracket, told: Told) {
    b.ran == told.ran && b.lines == told.lines
      && b.verdict == if told.reason == Fine then Passed else Broke(told.reason)
  }

  /** The bracket says what its step comes to where it began, unless the context was canceled. */
  ghost predicate Judged(world: World, b: Bracket) {
    if world.canceled(b.look) then b.verdict == Canceled && b.lines == [] && b.ran == 0
    else forall told | told == StepTold(world, b.step, b.call, b.look + 1) :: Fits(b, told)
  }

  /** A step is passed exactly when its own condition holds where it began. */
  lemma PassedExactly(world: World, b: Bracket)
    requires Judged(world, b)
    ensures b.verdict == Passed <==> Stands(world, b.step, b.call, b.look)
    ensures b.verdict == Canceled <==> world.canceled(b.look)
    ensures b.verdict == Passed ==> b.ran == Ran(world, b.step, b.call)
  {
    PassesExactly(world, b.step, b.call, b.look + 1);
    assert !world.canceled(b.look) ==> Fits(b, StepTold(world, b.step, b.call, b.look + 1));
  }

  /** The command the next bracket begins with. */
  function NextCall(bs: seq<Bracket>, call: nat): nat {
    if bs == [] then call else bs[|bs| - 1].call + bs[|bs| - 1].ran
  }

  /** The bracket is the next one of a run: its step's, begun where the ones before left off. */
  ghost predicate Follows(world: World, bs: seq<Bracket>, b: Bracket, call: nat, look: nat) {
    && |bs| < |STEPS| && b.step == STEPS[|bs|] && b.call == NextCall(bs, call) && b.look == look + |bs|
    && Judged(world, b)
  }

  /** The brackets of a run so far: all but the last are passed. */
  ghost predicate Sound(world: World, bs: seq<Bracket>, call: nat, look: nat) {
    bs == []
    || (var init := bs[..|bs| - 1];
        Sound(world, init, call, look) && AllPassed(init) && Follows(world, init, bs[|bs| - 1], call, look))
  }

  predicate AllPassed(bs: seq<Bracket>) { bs == [] || (AllPassed(bs[..|bs| - 1]) && bs[|bs| - 1].verdict == Passed) }

  lemma SoundNext(world: World, bs: seq<Bracket>, b: Bracket, call: nat, look: nat)
    requires Sound(world, bs, call, look) && AllPassed(bs) && Follows(world, bs, b, call, look)
    ensures Sound(world, bs + [b], call, look)
    ensures AllPassed(bs + [b]) <==> b.verdict == Passed
  {
    assert (bs + [b])[..|bs|] == bs;
  }

  lemma OnePassed(world: World, bs: seq<Bracket>, b: Bracket, call: nat, look: nat, n: nat)
    requires n == |bs| < |STEPS| && Follows(world, bs, b, call, look) && b.call == CallAt(world, call, n)
    requires AllStand(world, call, look, n)
    ensures b.verdict == Passed <==> AllStand(world, call, look, n + 1)
    ensures b.verdict == Passed ==> b.call + b.ran == CallAt(world, call, n + 1)
  {
    PassedExactly(world, b);
    NextStands(world, call, look, n, b.call);
  }

  /** All the steps of a run so far are passed exactly when they stand, and the next command is the one they lead
      up to. */
  lemma {:induction false} PassedStand(world: World, bs: seq<Bracket>, call: nat, look: nat)
    requires Sound(world, bs, call, look) && |bs| <= |STEPS|
    ensures AllPassed(bs) ==> NextCall(bs, call) == CallAt(world, call, |bs|)
    ensures AllPassed(bs) <==> AllStand(world, call, look, |bs|)
  {
    if bs != [] {
      var init, b := bs[..|bs| - 1], bs[|bs| - 1];
      PassedStand(world, init, call, look);
      OnePassed(world, init, b, call, look, |init|);
    }
  }

  /** A run completes exactly when all its steps are there and passed. */
  lemma RunCompletes(world: World, bs: seq<Bracket>, call: nat, look: nat)
    requires Sound(world, bs, call, look) && |bs| <= |STEPS| && (AllPassed(bs) ==> |bs| == |STEPS|)
    ensures AllPassed(bs) <==> Completes(world, call, look)
  {
    PassedStand(world, bs, call, look);
    CompletesExactly(world, call, look);
    if AllStand(world, call, look, |STEPS|) { FirstStand(world, call, look, |bs|, |STEPS|); }
  }

  function BracketEvents(b: Bracket): seq<Event> {
    match b.verdict
    case Canceled => [Failed(b.step, SetupCanceled)]
    case Broke(reason) => [Started(b.step)] + Logs(b.step, b.lines) + [Failed(b.step, reason)]
    case Passed => [Started(b.step)] + Logs(b.step, b.lines) + [Done(b.step)]
  }

  lemma Bracketed(past: seq<Event>, b: Bracket)
    requires b.verdict != Canceled
    ensures past + [Started(b.step)] + Logs(b.step, b.lines)
            + [if b.verdict == Passed then Done(b.step) else Failed(b.step, b.verdict.reason)]
            == past + BracketEvents(b)
  {
  }

  function Flatten(bs: seq<Bracket>): seq<Event> {
    if bs == [] then [] else BracketEvents(bs[0]) + Flatten(bs[1..])
  }

  lemma {:induction false} FlattenAppend(bs: seq<Bracket>, b: Bracket)
    ensures Flatten(bs + [b]) == Flatten(bs) + BracketEvents(b)
  {
    if bs == [] {
      assert [] + [b] == [b] && [b][1..] == [];
      assert BracketEvents(b) + [] == BracketEvents(b);
    } else {
      assert (bs + [b])[1..] == bs[1..] + [b] && (bs + [b])[0] == bs[0];
      FlattenAppend(bs[1..], b);
      Assoc(BracketEvents(bs[0]), Flatten(bs[1..]), BracketEvents(b));
    }
  }

  lemma FlattenMore(past: seq<Event>, bs: seq<Bracket>, b: Bracket)
    ensures past + Flatten(bs) + BracketEvents(b) == past + Flatten(bs + [b])
  {
    FlattenAppend(bs, b);
    Assoc(past, Flatten(bs), BracketEvents(b));
  }

  function ReasonOf(v: Verdict): Reason {
    match v
    case Canceled => SetupCanceled
    case Broke(reason) => reason
    case Passed => Fine
  }

  /** A run of the remaining steps: brackets in order, all passed but possibly the last, which then gives
      the returned reason; without a failure every step has one. */
  predicate Shape(names: seq<Name>, bs: seq<Bracket>, reason: Reason) {
    if names == [] then bs == [] && reason == Fine
    else
      && bs != [] && bs[0].step == names[0]
      && (bs[0].verdict.Broke? ==> bs[0].verdict.reason != Fine)
      && if bs[0].verdict == Passed then Shape(names[1..], bs[1..], reason)
         else |bs| == 1 && reason == ReasonOf(bs[0].verdict)
  }

  // ---- What the trace of a run looks like ----

  predicate IsStatus(e: Event) { !e.Log? }

  function Statuses(es: seq<Event>): seq<Event> {
    if es == [] then [] else (if IsStatus(es[0]) then [es[0]] else []) + Statuses(es[1..])
  }

  lemma {:induction false} StatusesConcat(a: seq<Event>, b: seq<Event>)
    ensures Statuses(a + b) == Statuses(a) + Statuses(b)
  {
    if a == [] {
      assert a + b == b;
    } else {
      assert (a + b)[1..] == a[1..] + b && (a + b)[0] == a[0];
      StatusesConcat(a[1..], b);
      Assoc(if IsStatus(a[0]) then [a[0]] else [], Statuses(a[1..]), Statuses(b));
    }
  }

  lemma {:induction false} LogsHaveNoStatus(step: Name, lines: seq<Line>)
    ensures Statuses(Logs(step, lines)) == []
  {
    if lines != [] {
      LogsHaveNoStatus(step, lines[..|lines| - 1]);
      StatusesConcat(Logs(step, lines[..|lines| - 1]), [Log(step, lines[|lines| - 1])]);
    }
  }

  /** The status events of a run: a started and a done for each step passed, in step order, then, if it
      failed, a started and a failed, or a failed alone when it was canceled between steps. */
  function Pairs(bs: seq<Bracket>): seq<Event> {
    if bs == [] then []
    else
      (match bs[0].verdict
       case Canceled => [Failed(bs[0].step, SetupCanceled)]
       case Broke(reason) => [Started(bs[0].step), Failed(bs[0].step, reason)]
       case Passed => [Started(bs[0].step), Done(bs[0].step)])
      + Pairs(bs[1..])
  }

  lemma BracketStatuses(b: Bracket)
    ensures Statuses(BracketEvents(b)) == Pairs([b])
  {
    assert [b][1..] == [];
    var logs := Logs(b.step, b.lines);
    LogsHaveNoStatus(b.step, b.lines);
    if b.verdict != Canceled {
      var end := if b.verdict == Passed then Done(b.step) else Failed(b.step, b.verdict.reason);
      StatusesConcat([Started(b.step)] + logs, [end]);
      StatusesConcat([Started(b.step)], logs);
      assert Statuses([end]) == [end] && Statuses([Started(b.step)]) == [Started(b.step)];
    }
  }

  lemma PairsCons(bs: seq<Bracket>)
    requires bs != []
    ensures Pairs(bs) == Pairs([bs[0]]) + Pairs(bs[1..])
  {
    assert [bs[0]][1..] == [];
  }

  lemma {:induction false} RunStatuses(bs: seq<Bracket>)
    ensures Statuses(Flatten(bs)) == Pairs(bs)
  {
    if bs != [] {
      StatusesConcat(BracketEvents(bs[0]), Flatten(bs[1..]));
      BracketStatuses(bs[0]);
      RunStatuses(bs[1..]);
      PairsCons(bs);
    }
  }

  /** A run fails at most once, and then last and with the returned reason; the reason is empty exactly when
      all the steps passed. */
  lemma {:induction false} FailureComesLast(names: seq<Name>, bs: seq<Bracket>, reason: Reason)
    requires Shape(names, bs, reason)
    ensures reason == Fine <==> |bs| == |names| && forall b | b in bs :: b.verdict == Passed
    ensures forall i | 0 <= i < |Pairs(bs)| && Pairs(bs)[i].Failed? ::
              i == |Pairs(bs)| - 1 && Pairs(bs)[i].reason == reason
    ensures reason != Fine ==> Pairs(bs) != [] && Pairs(bs)[|Pairs(bs)| - 1].Failed?
    ensures forall k | 0 <= k < |bs| :: k < |names| && bs[k].step == names[k]
  {
    if names != [] && bs[0].verdict == Passed {
      FailureComesLast(names[1..], bs[1..], reason);
      var rest := Pairs(bs[1..]);
      assert Pairs(bs) == [Started(bs[0].step), Done(bs[0].step)] + rest;
      assert bs == [bs[0]] + bs[1..];
      forall k | 0 <= k < |bs| ensures k < |names| && bs[k].step == names[k] {
        if 0 < k { assert bs[1..][k - 1].step == names[1..][k - 1]; }
      }
    } else if names != [] {
      assert bs[1..] == [];
    }
  }

  /** The last status event before the end of a trace. */
  function LastStatus(es: seq<Event>): Option<Event> {
    if es == [] then None else if IsStatus(es[|es| - 1]) then Some(es[|es| - 1]) else LastStatus(es[..|es| - 1])
  }

  lemma {:induction false} LastStatusConcat(a: seq<Event>, b: seq<Event>)
    ensures LastStatus(a + b) == if LastStatus(b).Some? then LastStatus(b) else LastStatus(a)
  {
    if b == [] {
      assert a + b == a;
    } else if !IsStatus(b[|b| - 1]) {
      assert (a + b)[..|a + b| - 1] == a + b[..|b| - 1];
      LastStatusConcat(a, b[..|b| - 1]);
    }
  }

  lemma {:induction false} LogsAt(step: Name, lines: seq<Line>)
    ensures |Logs(step, lines)| == |lines|
    ensures forall i | 0 <= i < |lines| :: Logs(step, lines)[i] == Log(step, lines[i])
  {
    if lines != [] { LogsAt(step, lines[..|lines| - 1]); }
  }

  lemma {:induction false} NoLastStatus(step: Name, lines: seq<Line>, i: nat)
    requires i <= |Logs(step, lines)|
    ensures LastStatus(Logs(step, lines)[..i]) == None
  {
    LogsAt(step, lines);
    if 0 < i {
      assert Logs(step, lines)[..i][..i - 1] == Logs(step, lines)[..i - 1];
      NoLastStatus(step, lines, i - 1);
    }
  }

  lemma BracketLogs(b: Bracket, i: nat)
    requires i < |BracketEvents(b)| && BracketEvents(b)[i].Log?
    ensures BracketEvents(b)[i].step == b.step && LastStatus(BracketEvents(b)[..i]) == Some(Started(b.step))
  {
    var logs := Logs(b.step, b.lines);
    LogsAt(b.step, b.lines);
    assert BracketEvents(b)[..i] == [Started(b.step)] + logs[..i - 1];
    NoLastStatus(b.step, b.lines, i - 1);
    LastStatusConcat([Started(b.step)], logs[..i - 1]);
  }

  /** Each log line lies inside the bracket of its own step: the last status before it is that step's start. */
  lemma {:induction false} LogsInsideBrackets(bs: seq<Bracket>, i: nat)
    requires i < |Flatten(bs)| && Flatten(bs)[i].Log?
    ensures LastStatus(Flatten(bs)[..i]) == Some(Started(Flatten(bs)[i].step))
  {
    var head, rest := BracketEvents(bs[0]), Flatten(bs[1..]);
    if i < |head| {
      assert Flatten(bs)[..i] == head[..i];
      BracketLogs(bs[0], i);
    } else {
      LogsInsideBrackets(bs[1..], i - |head|);
      assert Flatten(bs)[..i] == head + rest[..i - |head|];
      LastStatusConcat(head, rest[..i - |head|]);
    }
  }

  class Runner {
    const world: World
    var events: seq<Event>
    /** How many commands were run, and how often the context was looked at. */
    var calls: nat
    var looks: nat

    constructor (world: World)
      ensures this.world == world && events == [] && calls == 0 && looks == 0
    {
      this.world, events, calls, looks := world, [], 0, 0;
    }

    method Cmd(c: Command) returns (r: Option<ExecResult>)
      modifies this`calls
      ensures r == world.answer(old(calls), c) && calls == old(calls) + 1
    {
      r := world.answer(calls, c);
      calls := calls + 1;
    }

    /** A command that has to succeed. */
    method Must(c: Command, message: Reason) returns (reason: Reason)
      modifies this`calls
      ensures calls == old(calls) + 1
      ensures reason == Demand(world.answer(old(calls), c), message)
    {
      var r := Cmd(c);
      reason := if r.None? then Lost else if r.value.exit != 0 then message else Fine;
    }

    method Say(step: Name, line: Line) returns (ghost lines: seq<Line>)
      modifies this`events
      ensures lines == [line] && events == old(events) + Logs(step, lines)
    {
      events := events + [Log(step, line)];
      lines := [line];
      assert [line][..0] == [];
    }

    method LastLines(output: string) returns (lines: seq<string>)
      ensures lines == LineEmitter.LastN(LineEmitter.Lines(output), 80)
    {
      var raw := Split(output, '\n');
      lines := [];
      for n := 0 to |raw|
        invariant lines == LineEmitter.EmitAll(raw[..n])
      {
        assert raw[..n + 1][..n] == raw[..n];
        var l := LineEmitter.TrimLine(raw[n]);
        if l.Some? { lines := lines + [l.value]; }
      }
      assert raw[..|raw|] == raw;
      if |lines| > 80 { lines := lines[|lines| - 80..]; }
    }

    /** emitOutput: up to the last eighty lines that are not blank. */
    method EmitOutput(step: Name, output: string)
      modifies this`events
      ensures events == old(events) + Logs(step, Shown(output))
    {
      var lines := LastLines(output);
      ghost var shown := Outputs(lines);
      for n := 0 to |lines|
        invariant events == old(events) + Logs(step, shown[..n])
      {
        LogsNext(old(events), step, shown, n);
        events := events + [Log(step, Output(lines[n]))];
      }
      assert shown[..|lines|] == shown;
    }

    method DetectOSStep() returns (reason: Reason, ghost lines: seq<Line>)
      modifies this
      ensures events == old(events) + Logs(DetectOS, lines) && looks == old(looks)
      ensures old(calls) <= calls && Told(reason, lines, calls - old(calls)) == OSTold(world, old(calls))
    {
      lines := [];
      var r := Cmd(ReadOSRelease);
      if r.None? { return Lost, []; }
      if r.value.exit != 0 { return NoOSRelease, []; }
      if !Supported(r.value.stdout) { return Unsupported(PrettyName(r.value.stdout)), []; }
      lines := Say(DetectOS, Detected(OSReleaseField(r.value.stdout, "VERSION_ID")));
      reason := Fine;
    }

    method CheckPrivilegeStep() returns (reason: Reason, ghost lines: seq<Line>)
      modifies this
      ensures events == old(events) + Logs(CheckPrivilege, lines) && looks == old(looks)
      ensures old(calls) <= calls && Told(reason, lines, calls - old(calls)) == PrivilegeTold(world, old(calls))
    {
      var r := Cmd(UserID);
      if r.None? { return Lost, []; }
      if TrimSpace(r.value.stdout) == "0" {
        lines := Say(CheckPrivilege, AsRoot);
        return Fine, lines;
      }
      reason := Must(SudoTrue, NoSudo);
      if reason != Fine { return reason, []; }
      lines := Say(CheckPrivilege, AsSudo);
    }

    method PreflightStep() returns (reason: Reason, ghost lines: seq<Line>)
      modifies this
      ensures events == old(events) + Logs(Preflight, lines) && looks == old(looks)
      ensures old(calls) <= calls && Told(reason, lines, calls - old(calls)) == PreflightTold(world, old(calls))
    {
      lines := [];
      reason := Obstruction();
      ghost var mid := calls;
      ghost var first, second := Told(reason, [], mid - old(calls)), Told(Fine, [], 0);
      if reason == Fine {
        lines := Survey();
        second := Told(Fine, lines, calls - mid);
      }
      PreflightJoins(world, old(calls), mid, first, second);
    }

    /** The first half of the preflight: the package lock and the ports. */
    method Obstruction() returns (reason: Reason)
      modifies this`calls
      ensures old(calls) <= calls && Told(reason, [], calls - old(calls)) == ObstructionTold(world, old(calls))
    {
      var lock := Cmd(AptLock);
      if lock.None? { return Lost; }
      if Contains(lock.value.stdout, "LOCKED") { return PackagesLocked; }
      var ports := Cmd(Ports);
      if ports.None? { return Lost; }
      if TrimSpace(ports.value.stdout) != "" { return PortsTaken; }
      reason := Fine;
    }

    /** The rest of the preflight, which cannot fail: the Docker version and the firewall. */
    method Survey() returns (ghost lines: seq<Line>)
      modifies this
      ensures events == old(events) + Logs(Preflight, lines) && looks == old(looks)
      ensures old(calls) <= calls && Told(Fine, lines, calls - old(calls)) == SurveyTold(world, old(calls))
    {
      var docker := Cmd(DockerVersion);
      var version := if docker.None? then "" else TrimSpace(docker.value.stdout);
      lines := Say(Preflight, DockerLine(version));
      var ufw := Cmd(UfwStatus);
      if ufw.Some? && Contains(ufw.value.stdout, "Status: active") {
        ghost var more := Say(Preflight, Firewall);
        LogsMore(old(events), Preflight, lines, more);
        lines := lines + more;
        var allowed := Cmd(UfwAllow);
      }
    }

    method InstallStep() returns (reason: Reason, ghost lines: seq<Line>)
      modifies this
      ensures events == old(events) + Logs(InstallPrereqs, lines) && looks == old(looks)
      ensures old(calls) <= calls && Told(reason, lines, calls - old(calls)) == InstallTold(world, old(calls))
    {
      if world.token.None? { return NoToken, []; }
      lines := Say(InstallPrereqs, Installing);
      var control := ShellQuote.ShellQuote(world.controlPlane);
      var token := ShellQuote.ShellQuote(world.token.value);
      var r := Cmd(Installer(CONTROL_PLANE + (" " + (control + (" " + (TOKEN + (" " + token)))))));
      if r.None? { return Lost, lines; }
      reason, lines := PassOn(old(events), lines, r.value);
    }

    /** What the installer printed, and how it ended. */
    method PassOn(ghost past: seq<Event>, ghost before: seq<Line>, r: ExecResult)
      returns (reason: Reason, ghost lines: seq<Line>)
      requires events == past + Logs(InstallPrereqs, before)
      modifies this`events
      ensures events == past + Logs(InstallPrereqs, lines)
      ensures reason == if r.exit != 0 then InstallFailed else Fine
      ensures lines == before + Shown(r.stdout) + if r.exit != 0 then Shown(r.stderr) else [Installed]
    {
      lines := EmitMore(past, before, r.stdout);
      if r.exit != 0 {
        lines := EmitMore(past, lines, r.stderr);
        return InstallFailed, lines;
      }
      ghost var more := Say(InstallPrereqs, Installed);
      LogsMore(past, InstallPrereqs, lines, more);
      lines := lines + more;
      reason := Fine;
    }

    method EmitMore(ghost past: seq<Event>, ghost before: seq<Line>, output: string)
      returns (ghost lines: seq<Line>)
      requires events == past + Logs(InstallPrereqs, before)
      modifies this`events
      ensures lines == before + Shown(output)
      ensures events == past + Logs(InstallPrereqs, lines)
    {
      ghost var more := Shown(output);
      EmitOutput(InstallPrereqs, output);
      lines := before + more;
      LogsMore(past, InstallPrereqs, before, more);
    }

    method ProvisionStep() returns (reason: Reason, ghost lines: seq<Line>)
      modifies this
      ensures events == old(events) + Logs(ProvisionUser, lines) && looks == old(looks)
      ensures old(calls) <= calls && Told(reason, lines, calls - old(calls)) == ProvisionTold(world, old(calls))
    {
      lines := [];
      if world.key.None? { return NoKey, []; }
      reason := Must(AddUser, NoUser);
      if reason != Fine { return; }
      reason := Must(SshDirectory, NoSshDirectory);
      if reason != Fine { return; }
      var key := ShellQuote.ShellQuote(world.key.value);
      reason := Must(InstallKey(key), NoKeyFile);
      if reason != Fine { return; }
      var r := Cmd(WriteSudoers);
      if r.None? { return Lost, []; }
      if r.value.exit != 0 {
        var removed := Cmd(RemoveSudoers);
        return NoSudoers, [];
      }
      lines := Say(ProvisionUser, Provisioned);
    }

    method AwaitStep() returns (reason: Reason, ghost lines: seq<Line>)
      modifies this
      ensures events == old(events) + Logs(AwaitAgent, lines)
      ensures old(calls) <= calls && Told(reason, lines, calls - old(calls)) == AwaitTold(world, old(looks))
    {
      lines := [];
      for i := 0 to world.attempts
        invariant events == old(events) && looks == old(looks) + i && calls == old(calls)
        invariant AwaitReason(world, old(looks), 0) == AwaitReason(world, old(looks), i)
      {
        looks := looks + 1;
        if world.canceled(looks - 1) { return AwaitCanceled, []; }
        if world.online(i) {
          lines := Say(AwaitAgent, Online);
          return Fine, lines;
        }
      }
      reason := NotOnline;
    }

    method Perform(step: Name) returns (reason: Reason, ghost lines: seq<Line>)
      modifies this
      ensures events == old(events) + Logs(step, lines)
      ensures step != AwaitAgent ==> looks == old(looks)
      ensures old(calls) <= calls
                && Told(reason, lines, calls - old(calls)) == StepTold(world, step, old(calls), old(looks))
    {
      match step
      case DetectOS => reason, lines := DetectOSStep();
      case CheckPrivilege => reason, lines := CheckPrivilegeStep();
      case Preflight => reason, lines := PreflightStep();
      case InstallPrereqs => reason, lines := InstallStep();
      case ProvisionUser => reason, lines := ProvisionStep();
      case AwaitAgent => reason, lines := AwaitStep();
    }

    /** The step, between its start and its end. */
    method Enclose(step: Name, ghost look: nat) returns (reason: Reason, ghost b: Bracket)
      requires !world.canceled(look) && looks == look + 1
      modifies this
      ensures b.step == step && b.call == old(calls) && b.look == look && b.call + b.ran == calls && Judged(world, b)
      ensures reason == ReasonOf(b.verdict) && (reason == Fine <==> b.verdict == Passed)
      ensures events == old(events) + BracketEvents(b)
      ensures step != AwaitAgent ==> looks == old(looks)
    {
      events := events + [Started(step)];
      ghost var lines;
      reason, lines := Perform(step);
      events := events + [if reason != Fine then Failed(step, reason) else Done(step)];
      b := Bracket(step, old(calls), look, calls - old(calls), lines, if reason != Fine then Broke(reason) else Passed);
      Bracketed(old(events), b);
    }

    /** One turn of the loop: the step's bracket is appended. */
    method Attempt(step: Name) returns (reason: Reason, ghost b: Bracket)
      modifies this
      ensures b.step == step && b.call == old(calls) && b.look == old(looks) && b.call + b.ran == calls
      ensures Judged(world, b)
      ensures reason == ReasonOf(b.verdict) && (reason == Fine <==> b.verdict == Passed)
      ensures events == old(events) + BracketEvents(b)
      ensures step != AwaitAgent ==> looks == old(looks) + 1
    {
      looks := looks + 1;
      if world.canceled(looks - 1) {
        events := events + [Failed(step, SetupCanceled)];
        return SetupCanceled, Bracket(step, calls, looks - 1, 0, [], Canceled);
      }
      reason, b := Enclose(step, looks - 1);
    }

    /** Run's loop: every step in order, stopping at the first failure. */
    method Loop() returns (reason: Reason, ghost bs: seq<Bracket>)
      modifies this
      ensures events == old(events) + Flatten(bs)
      ensures Sound(world, bs, old(calls), old(looks)) && 0 < |bs| <= |STEPS|
      ensures AllPassed(bs) ==> |bs| == |STEPS|
      ensures reason == ReasonOf(bs[|bs| - 1].verdict) && (reason == Fine <==> AllPassed(bs))
    {
      bs := [];
      for n := 0 to |STEPS|
        invariant |bs| == n && AllPassed(bs)
        invariant events == old(events) + Flatten(bs)
        invariant Sound(world, bs, old(calls), old(looks))
        invariant calls == NextCall(bs, old(calls)) && (n < |STEPS| ==> looks == old(looks) + n)
      {
        LastStep(n);
        ghost var b;
        reason, b := Attempt(STEPS[n]);
        FlattenMore(old(events), bs, b);
        SoundNext(world, bs, b, old(calls), old(looks));
        bs := bs + [b];
        if reason != Fine { return; }
      }
      reason := Fine;
    }

    /** Run. */
    method Run() returns (reason: Reason, ghost bs: seq<Bracket>)
      modifies this
      ensures Shape(STEPS, bs, reason)
      ensures events == old(events) + Flatten(bs)
      ensures Sound(world, bs, old(calls), old(looks))
      ensures reason == Fine <==> Completes(world, old(calls), old(looks))
    {
      reason, bs := Loop();
      LoopShape(world, bs, old(calls), old(looks), reason);
      RunCompletes(world, bs, old(calls), old(looks));
    }
  }

  /** Only the last step waits for the agent. */
  lemma LastStep(n: nat)
    requires n < |STEPS|
    ensures STEPS[n] == AwaitAgent <==> n == |STEPS| - 1
  {
    assert STEPS == [DetectOS, CheckPrivilege, Preflight, InstallPrereqs, ProvisionUser, AwaitAgent];
  }

  lemma {:induction false} SoundSteps(world: World, bs: seq<Bracket>, call: nat, look: nat)
    requires Sound(world, bs, call, look)
    ensures |bs| <= |STEPS| && forall k | 0 <= k < |bs| :: bs[k].step == STEPS[k]
    ensures forall k | 0 <= k < |bs| - 1 :: bs[k].verdict == Passed
  {
    if bs != [] {
      SoundSteps(world, bs[..|bs| - 1], call, look);
      if |bs| > 1 { assert bs[..|bs| - 1][|bs| - 2] == bs[|bs| - 2]; }
    }
  }

  lemma LoopShape(world: World, bs: seq<Bracket>, call: nat, look: nat, reason: Reason)
    requires Sound(world, bs, call, look) && 0 < |bs| && (AllPassed(bs) ==> |bs| == |STEPS|)
    requires reason == ReasonOf(bs[|bs| - 1].verdict) && (reason == Fine <==> AllPassed(bs))
    ensures Shape(STEPS, bs, reason)
  {
    SoundSteps(world, bs, call, look);
    if reason == Fine { ShapeComplete(STEPS, bs); } else { ShapeEnds(STEPS, bs); }
  }

  lemma {:induction false} ShapeEnds(names: seq<Name>, bs: seq<Bracket>)
    requires 0 < |bs| <= |names| && forall k | 0 <= k < |bs| :: bs[k].step == names[k]
    requires forall k | 0 <= k < |bs| - 1 :: bs[k].verdict == Passed
    requires var last := bs[|bs| - 1].verdict; last.Canceled? || (last.Broke? && last.reason != Fine)
    ensures Shape(names, bs, ReasonOf(bs[|bs| - 1].verdict))
  {
    if |bs| > 1 { ShapeEnds(names[1..], bs[1..]); }
  }

  lemma {:induction false} ShapeComplete(names: seq<Name>, bs: seq<Bracket>)
    requires |bs| == |names| && forall k | 0 <= k < |bs| :: bs[k].step == names[k] && bs[k].verdict == Passed
    ensures Shape(names, bs, Fine)
  {
    if bs != [] { ShapeComplete(names[1..], bs[1..]); }
  }
}
