/** What each step of a server's setup asks and what it makes of the answers: whether it passes, what it says,
    and how many commands it runs. */
module SetupSteps {
  import opened Text
  import LineEmitter
  import ShellQuote

  datatype Name = DetectOS | CheckPrivilege | Preflight | InstallPrereqs | ProvisionUser | AwaitAgent

  const STEPS: seq<Name> := [DetectOS, CheckPrivilege, Preflight, InstallPrereqs, ProvisionUser, AwaitAgent]

  // ---- Messages ----

  /** Why a step or a run failed, if it did. */
  datatype Reason =
    | Fine | Lost | NoOSRelease | Unsupported(pretty: string) | NoSudo | PackagesLocked | PortsTaken | NoToken
    | InstallFailed | NoKey | NoUser | NoSshDirectory | NoKeyFile | NoSudoers | AwaitCanceled | NotOnline
    | SetupCanceled

  /** A log line of a step. */
  datatype Line =
    | Detected(version: string) | AsRoot | AsSudo | NoDocker | OldDocker(version: string)
    | HasDocker(version: string) | Firewall | Installing | Output(text: string) | Installed | Provisioned | Online

  // ---- Reading the server's answers ----

  datatype ExecResult = ExecResult(exit: int, stdout: string, stderr: string)

  /** The commands, by what they are for. The installer's is a script that is fetched and piped into a shell, which
      is given the arguments. */
  datatype Command =
    | ReadOSRelease | UserID | SudoTrue | AptLock | Ports | DockerVersion | UfwStatus | UfwAllow
    | Installer(arguments: string) | AddUser | SshDirectory | InstallKey(key: string) | WriteSudoers | RemoveSudoers

  predicate IsQuoteMark(c: char) { c == '"' || c == '\'' }

  function FieldIn(lines: seq<string>, key: string): string {
    if lines == [] then ""
    else
      var ln := TrimSpace(lines[0]);
      if |key| < |ln| && ln[..|key|] == key && ln[|key|] == '=' then Trim(ln[|key| + 1..], IsQuoteMark)
      else FieldIn(lines[1..], key)
  }

  function OSReleaseField(content: string, key: string): string { FieldIn(Split(content, '\n'), key) }

  /** The line, trimmed, gives the key a value. */
  ghost predicate Gives(line: string, key: string, value: string) { TrimSpace(line) == key + "=" + value }

  lemma GivesAt(line: string, key: string, value: string)
    requires Gives(line, key, value)
    ensures var ln := TrimSpace(line);
            |key| < |ln| && ln[..|key|] == key && ln[|key|] == '=' && ln[|key| + 1..] == value
  {
  }

  lemma GivenBy(line: string, key: string)
    requires var ln := TrimSpace(line); |key| < |ln| && ln[..|key|] == key && ln[|key|] == '='
    ensures Gives(line, key, TrimSpace(line)[|key| + 1..])
  {
    var ln := TrimSpace(line);
    assert ln == ln[..|key|] + [ln[|key|]] + ln[|key| + 1..];
  }

  lemma NotGiven(line: string, key: string)
    requires forall v :: !Gives(line, key, v)
    ensures var ln := TrimSpace(line); !(|key| < |ln| && ln[..|key|] == key && ln[|key|] == '=')
  {
    var ln := TrimSpace(line);
    if |key| < |ln| && ln[..|key|] == key && ln[|key|] == '=' { GivenBy(line, key); }
  }

  /** A field is what the first line that gives it says, without quotes; it is empty if none does. */
  lemma {:induction false} FieldExactly(lines: seq<string>, key: string, k: nat, value: string)
    requires k <= |lines| && forall j, v | 0 <= j < k :: !Gives(lines[j], key, v)
    ensures k < |lines| && Gives(lines[k], key, value) ==> FieldIn(lines, key) == Trim(value, IsQuoteMark)
    ensures k == |lines| ==> FieldIn(lines, key) == ""
  {
    if 0 < k {
      NotGiven(lines[0], key);
      FieldExactly(lines[1..], key, k - 1, value);
    } else if lines != [] && Gives(lines[0], key, value) {
      GivesAt(lines[0], key, value);
    }
  }

  predicate Supported(content: string) {
    && OSReleaseField(content, "ID") == "ubuntu"
    && (OSReleaseField(content, "VERSION_ID") == "22.04" || OSReleaseField(content, "VERSION_ID") == "24.04")
  }

  const CONTROL_PLANE: string := "--control-plane"

  const TOKEN: string := "--token"

  /** The installer's arguments, quoted for the remote shell. */
  function InstallerArguments(controlPlane: string, token: string): string {
    CONTROL_PLANE + (" " + (ShellQuote.Quote(controlPlane) + (" " + (TOKEN + (" " + ShellQuote.Quote(token))))))
  }

  const MAX_INT64 := 0x7fff_ffff_ffff_ffff

  /** strconv.Atoi: an optional sign and digits, within 64 bits; 0 stands for an error. */
  function ParseInt(s: string): int {
    var digits := if s != "" && (s[0] == '-' || s[0] == '+') then s[1..] else s;
    if digits == "" || !All(digits, IsDigit) then 0
    else
      var n: int := if s[0] == '-' then -(Atoi(digits) as int) else Atoi(digits);
      if -MAX_INT64 - 1 <= n <= MAX_INT64 then n else 0
  }

  /** The leading number of a version, 0 when there is none. */
  function DockerMajor(version: string): int { ParseInt(TrimSpace(Split(version, '.')[0])) }

  function DockerLine(version: string): Line {
    if version == "" then NoDocker
    else if 0 < DockerMajor(version) < 20 then OldDocker(version)
    else HasDocker(version)
  }

  lemma ItoaHead(n: nat)
    ensures TrimSpace(Itoa(n)) == Itoa(n) && '.' !in Itoa(n) && Itoa(n)[0] != '-' && Itoa(n)[0] != '+'
  {
    var s := Itoa(n);
    assert forall i | 0 <= i < |s| :: IsDigit(s[i]);
    TrimFixed(s, IsSpace);
  }

  /** A version below 20 is called old. */
  lemma DockerLineExactly(n: nat, rest: string)
    requires 0 < n <= MAX_INT64
    ensures var version := Itoa(n) + "." + rest;
            DockerLine(version) == if n < 20 then OldDocker(version) else HasDocker(version)
    ensures DockerLine("") == NoDocker
  {
    ItoaHead(n);
    AtoiItoa(n);
    SplitCons(Itoa(n), rest, '.');
    assert Itoa(n) + ['.'] + rest == Itoa(n) + "." + rest;
  }

  /** What a command printed, if it could be run. */
  function Printed(world: World, call: nat, c: Command): string {
    match world.answer(call, c) case None => "" case Some(r) => r.stdout
  }

  predicate UfwActive(world: World, call: nat) { Contains(Printed(world, call, UfwStatus), "Status: active") }

  datatype World = World(
    answer: (nat, Command) -> Option<ExecResult>, canceled: nat -> bool, online: nat -> bool,
    token: Option<string>, key: Option<string>, controlPlane: string, attempts: nat)

  /** The command ran and exited with zero. */
  predicate Succeeds(world: World, call: nat, c: Command) {
    world.answer(call, c).Some? && world.answer(call, c).value.exit == 0
  }

  // ---- What a step says ----

  /** What a step comes to: the reason it fails for, if it does, its log lines, and how many commands it ran. */
  datatype Told = Told(reason: Reason, lines: seq<Line>, ran: nat)

  /** How an unsupported system calls itself. */
  function PrettyName(content: string): string {
    var pretty := OSReleaseField(content, "PRETTY_NAME");
    if pretty == "" then TrimSpace(OSReleaseField(content, "ID") + " " + OSReleaseField(content, "VERSION_ID"))
    else pretty
  }

  /** It is the release's pretty name if it has one, and else its id and version. */
  lemma PrettyNameExactly(content: string, pretty: string, id: string, version: string)
    requires OSReleaseField(content, "PRETTY_NAME") == pretty
    requires OSReleaseField(content, "ID") == id && OSReleaseField(content, "VERSION_ID") == version
    ensures PrettyName(content) == if pretty != "" then pretty else TrimSpace(id + " " + version)
  {
  }

  /** The reason a command that has to succeed gives. */
  function Demand(r: Option<ExecResult>, message: Reason): Reason {
    if r.None? then Lost else if r.value.exit != 0 then message else Fine
  }

  function OSTold(world: World, call: nat): Told {
    var r := world.answer(call, ReadOSRelease);
    if Demand(r, NoOSRelease) != Fine then Told(Demand(r, NoOSRelease), [], 1)
    else if !Supported(r.value.stdout) then Told(Unsupported(PrettyName(r.value.stdout)), [], 1)
    else Told(Fine, [Detected(OSReleaseField(r.value.stdout, "VERSION_ID"))], 1)
  }

  function PrivilegeTold(world: World, call: nat): Told {
    var user, sudo := world.answer(call, UserID), world.answer(call + 1, SudoTrue);
    if user.None? then Told(Lost, [], 1)
    else if TrimSpace(user.value.stdout) == "0" then Told(Fine, [AsRoot], 1)
    else if Demand(sudo, NoSudo) != Fine then Told(Demand(sudo, NoSudo), [], 2)
    else Told(Fine, [AsSudo], 2)
  }

  /** The package lock, then the ports. */
  function ObstructionTold(world: World, call: nat): Told {
    var lock, ports := world.answer(call, AptLock), world.answer(call + 1, Ports);
    if lock.None? then Told(Lost, [], 1)
    else if Contains(lock.value.stdout, "LOCKED") then Told(PackagesLocked, [], 1)
    else if ports.None? then Told(Lost, [], 2)
    else if TrimSpace(ports.value.stdout) != "" then Told(PortsTaken, [], 2)
    else Told(Fine, [], 2)
  }

  /** The Docker version, then the firewall: nothing here fails. */
  function SurveyTold(world: World, call: nat): Told {
    var docker := DockerLine(TrimSpace(Printed(world, call, DockerVersion)));
    if UfwActive(world, call + 1) then Told(Fine, [docker, Firewall], 3) else Told(Fine, [docker], 2)
  }

  function PreflightTold(world: World, call: nat): Told {
    var obstruction := ObstructionTold(world, call);
    if obstruction.reason != Fine then obstruction
    else
      var survey := SurveyTold(world, call + obstruction.ran);
      survey.(ran := obstruction.ran + survey.ran)
  }

  lemma PreflightJoins(world: World, call: nat, mid: nat, first: Told, second: Told)
    requires first == ObstructionTold(world, call) && mid == call + first.ran
    requires first.reason == Fine ==> second == SurveyTold(world, mid)
    ensures PreflightTold(world, call) ==
              if first.reason != Fine then first else Told(Fine, second.lines, first.ran + second.ran)
  {
  }

  /** The lines of an output that are passed on. */
  function Shown(output: string): seq<Line> { Outputs(LineEmitter.LastN(LineEmitter.Lines(output), 80)) }

  function Outputs(lines: seq<string>): (r: seq<Line>)
    ensures |r| == |lines|
    ensures forall i | 0 <= i < |lines| :: r[i] == Output(lines[i])
  {
    seq(|lines|, i requires 0 <= i < |lines| => Output(lines[i]))
  }

  function InstallTold(world: World, call: nat): Told {
    if world.token.None? then Told(NoToken, [], 0)
    else
      var r := world.answer(call, Installer(InstallerArguments(world.controlPlane, world.token.value)));
      if r.None? then Told(Lost, [Installing], 1)
      else if r.value.exit != 0 then
        Told(InstallFailed, [Installing] + Shown(r.value.stdout) + Shown(r.value.stderr), 1)
      else Told(Fine, [Installing] + Shown(r.value.stdout) + [Installed], 1)
  }

  function ProvisionTold(world: World, call: nat): Told {
    if world.key.None? then Told(NoKey, [], 0)
    else
      var user := Demand(world.answer(call, AddUser), NoUser);
      var directory := Demand(world.answer(call + 1, SshDirectory), NoSshDirectory);
      var key := Demand(world.answer(call + 2, InstallKey(ShellQuote.Quote(world.key.value))), NoKeyFile);
      var sudoers := world.answer(call + 3, WriteSudoers);
      if user != Fine then Told(user, [], 1)
      else if directory != Fine then Told(directory, [], 2)
      else if key != Fine then Told(key, [], 3)
      else if sudoers.None? then Told(Lost, [], 4)
      else if sudoers.value.exit != 0 then Told(NoSudoers, [], 5)
      else Told(Fine, [Provisioned], 4)
  }

  /** Looking for the agent from the i-th time on, the context being looked at before each. */
  function AwaitReason(world: World, look: nat, i: nat): Reason
    decreases world.attempts - i
  {
    if i >= world.attempts then NotOnline
    else if world.canceled(look + i) then AwaitCanceled
    else if world.online(i) then Fine
    else AwaitReason(world, look, i + 1)
  }

  function AwaitTold(world: World, look: nat): Told {
    var reason := AwaitReason(world, look, 0);
    Told(reason, if reason == Fine then [Online] else [], 0)
  }

  function StepTold(world: World, step: Name, call: nat, look: nat): Told {
    match step
    case DetectOS => OSTold(world, call)
    case CheckPrivilege => PrivilegeTold(world, call)
    case Preflight => PreflightTold(world, call)
    case InstallPrereqs => InstallTold(world, call)
    case ProvisionUser => ProvisionTold(world, call)
    case AwaitAgent => AwaitTold(world, look)
  }

  // ---- When a step passes ----

  lemma DemandMet(r: Option<ExecResult>, message: Reason)
    requires message != Fine
    ensures Demand(r, message) == Fine <==> r.Some? && r.value.exit == 0
  {
  }

  /** One of the two supported releases of Ubuntu. */
  lemma OSPasses(world: World, call: nat)
    ensures OSTold(world, call).reason == Fine <==>
              && Succeeds(world, call, ReadOSRelease)
              && var release := world.answer(call, ReadOSRelease).value.stdout;
                 && OSReleaseField(release, "ID") == "ubuntu"
                 && (OSReleaseField(release, "VERSION_ID") == "22.04"
                   || OSReleaseField(release, "VERSION_ID") == "24.04")
    ensures OSTold(world, call).ran == 1
  {
    DemandMet(world.answer(call, ReadOSRelease), NoOSRelease);
  }

  predicate IsRoot(world: World, call: nat) { TrimSpace(Printed(world, call, UserID)) == "0" }

  /** Root, or a user that may use sudo without a password. */
  lemma PrivilegePasses(world: World, call: nat)
    ensures PrivilegeTold(world, call).reason == Fine <==>
              world.answer(call, UserID).Some? && (IsRoot(world, call) || Succeeds(world, call + 1, SudoTrue))
    ensures PrivilegeTold(world, call).reason == Fine ==>
              PrivilegeTold(world, call).ran == if IsRoot(world, call) then 1 else 2
  {
    DemandMet(world.answer(call + 1, SudoTrue), NoSudo);
  }

  /** Nothing holds the package lock, and ports 80 and 443 are free. */
  lemma PreflightPasses(world: World, call: nat)
    ensures PreflightTold(world, call).reason == Fine <==>
              && world.answer(call, AptLock).Some? && !Contains(Printed(world, call, AptLock), "LOCKED")
              && world.answer(call + 1, Ports).Some? && TrimSpace(Printed(world, call + 1, Ports)) == ""
    ensures PreflightTold(world, call).reason == Fine ==>
              PreflightTold(world, call).ran == if UfwActive(world, call + 3) then 5 else 4
  {
  }

  /** A token was minted, and the installer's whole command line succeeds. */
  lemma InstallPasses(world: World, call: nat)
    ensures InstallTold(world, call).reason == Fine <==>
              && world.token.Some?
              && Succeeds(world, call, Installer(InstallerArguments(world.controlPlane, world.token.value)))
    ensures InstallTold(world, call).reason == Fine ==> InstallTold(world, call).ran == 1
  {
  }

  /** There is a key, and the four commands that provision the user succeed. */
  lemma ProvisionPasses(world: World, call: nat)
    ensures ProvisionTold(world, call).reason == Fine <==>
              && world.key.Some?
              && Succeeds(world, call, AddUser) && Succeeds(world, call + 1, SshDirectory)
              && Succeeds(world, call + 2, InstallKey(ShellQuote.Quote(world.key.value)))
              && Succeeds(world, call + 3, WriteSudoers)
    ensures ProvisionTold(world, call).reason == Fine ==> ProvisionTold(world, call).ran == 4
  {
    if world.key.Some? {
      DemandMet(world.answer(call, AddUser), NoUser);
      DemandMet(world.answer(call + 1, SshDirectory), NoSshDirectory);
      DemandMet(world.answer(call + 2, InstallKey(ShellQuote.Quote(world.key.value))), NoKeyFile);
    }
  }

  /** The agent is seen online in time, and the context is not canceled before. */
  ghost predicate SeenOnline(world: World, look: nat) {
    exists i | 0 <= i < world.attempts ::
      world.online(i) && forall k | look <= k <= look + i :: !world.canceled(k)
  }

  lemma AwaitPasses(world: World, look: nat)
    ensures AwaitTold(world, look).reason == Fine <==> SeenOnline(world, look)
  {
    AwaitFrom(world, look, 0);
  }

  lemma {:induction false} AwaitFrom(world: World, look: nat, i: nat)
    requires forall k | look <= k < look + i :: !world.canceled(k)
    ensures AwaitReason(world, look, i) == Fine <==>
              exists j | i <= j < world.attempts ::
                world.online(j) && forall k | look <= k <= look + j :: !world.canceled(k)
    decreases world.attempts - i
  {
    if i < world.attempts && !world.canceled(look + i) && !world.online(i) { AwaitFrom(world, look, i + 1); }
  }

  // ---- When a run completes ----

  /** What a step needs to pass, the first command being the call-th and the first look at the context the
      look-th. */
  ghost predicate Holds(world: World, step: Name, call: nat, look: nat) {
    match step
    case DetectOS =>
      && Succeeds(world, call, ReadOSRelease)
      && var release := world.answer(call, ReadOSRelease).value.stdout;
         && OSReleaseField(release, "ID") == "ubuntu"
         && (OSReleaseField(release, "VERSION_ID") == "22.04" || OSReleaseField(release, "VERSION_ID") == "24.04")
    case CheckPrivilege =>
      world.answer(call, UserID).Some? && (IsRoot(world, call) || Succeeds(world, call + 1, SudoTrue))
    case Preflight =>
      && world.answer(call, AptLock).Some? && !Contains(Printed(world, call, AptLock), "LOCKED")
      && world.answer(call + 1, Ports).Some? && TrimSpace(Printed(world, call + 1, Ports)) == ""
    case InstallPrereqs =>
      && world.token.Some?
      && Succeeds(world, call, Installer(InstallerArguments(world.controlPlane, world.token.value)))
    case ProvisionUser =>
      && world.key.Some?
      && Succeeds(world, call, AddUser) && Succeeds(world, call + 1, SshDirectory)
      && Succeeds(world, call + 2, InstallKey(ShellQuote.Quote(world.key.value)))
      && Succeeds(world, call + 3, WriteSudoers)
    case AwaitAgent => SeenOnline(world, look)
  }

  /** How many commands a step runs that passes. */
  function Ran(world: World, step: Name, call: nat): nat {
    match step
    case DetectOS => 1
    case CheckPrivilege => if IsRoot(world, call) then 1 else 2
    case Preflight => if UfwActive(world, call + 3) then 5 else 4
    case InstallPrereqs => 1
    case ProvisionUser => 4
    case AwaitAgent => 0
  }

  lemma PassesExactly(world: World, step: Name, call: nat, look: nat)
    ensures StepTold(world, step, call, look).reason == Fine <==> Holds(world, step, call, look)
    ensures Holds(world, step, call, look) ==> StepTold(world, step, call, look).ran == Ran(world, step, call)
  {
    match step
    case DetectOS => OSPasses(world, call);
    case CheckPrivilege => PrivilegePasses(world, call);
    case Preflight => PreflightPasses(world, call);
    case InstallPrereqs => InstallPasses(world, call);
    case ProvisionUser => ProvisionPasses(world, call);
    case AwaitAgent => AwaitPasses(world, look);
  }

  /** The command a run's n-th step begins with. */
  function CallAt(world: World, call: nat, n: nat): nat
    requires n <= |STEPS|
  {
    if n == 0 then call
    else
      var before := CallAt(world, call, n - 1);
      before + Ran(world, STEPS[n - 1], before)
  }

  /** The context is not canceled before the step, and the step passes. */
  ghost predicate Stands(world: World, step: Name, call: nat, look: nat) {
    !world.canceled(look) && Holds(world, step, call, look + 1)
  }

  /** So for the first n steps of a run. */
  ghost predicate AllStand(world: World, call: nat, look: nat, n: nat)
    requires n <= |STEPS|
  {
    n == 0
    || (AllStand(world, call, look, n - 1) && Stands(world, STEPS[n - 1], CallAt(world, call, n - 1), look + n - 1))
  }

  /** The system is detected, then privileges are checked, then the preflight is made, then the prerequisites are
      installed, then the user is provisioned, then the agent is awaited: each holds where the ones before it left
      off, and the context is not canceled before any. */
  ghost predicate Completes(world: World, call: nat, look: nat) {
    var privilege := call + 1;
    var preflight := privilege + if IsRoot(world, privilege) then 1 else 2;
    var install := preflight + if UfwActive(world, preflight + 3) then 5 else 4;
    var provision := install + 1;
    && Stands(world, DetectOS, call, look) && Stands(world, CheckPrivilege, privilege, look + 1)
    && Stands(world, Preflight, preflight, look + 2) && Stands(world, InstallPrereqs, install, look + 3)
    && Stands(world, ProvisionUser, provision, look + 4) && Stands(world, AwaitAgent, provision + 4, look + 5)
  }

  lemma CallsAt(world: World, call: nat)
    ensures var privilege := call + 1;
            var preflight := privilege + if IsRoot(world, privilege) then 1 else 2;
            var install := preflight + if UfwActive(world, preflight + 3) then 5 else 4;
            && |STEPS| == 6
            && CallAt(world, call, 0) == call && CallAt(world, call, 1) == privilege
            && CallAt(world, call, 2) == preflight && CallAt(world, call, 3) == install
            && CallAt(world, call, 4) == install + 1 && CallAt(world, call, 5) == install + 5
  {
    assert CallAt(world, call, 0) == call;
    assert CallAt(world, call, 1) == call + 1;
    assert STEPS[1] == CheckPrivilege && STEPS[2] == Preflight && STEPS[3] == InstallPrereqs;
    assert STEPS[4] == ProvisionUser;
  }

  lemma NextStands(world: World, call: nat, look: nat, n: nat, at: nat)
    requires n < |STEPS| && at == CallAt(world, call, n)
    ensures AllStand(world, call, look, n + 1) <==>
              AllStand(world, call, look, n) && Stands(world, STEPS[n], at, look + n)
    ensures CallAt(world, call, n + 1) == at + Ran(world, STEPS[n], at)
  {
  }

  lemma {:induction false} FirstStand(world: World, call: nat, look: nat, n: nat, m: nat)
    requires n <= m <= |STEPS| && AllStand(world, call, look, m)
    ensures AllStand(world, call, look, n)
  {
    if n < m { FirstStand(world, call, look, n, m - 1); }
  }

  lemma CompletesExactly(world: World, call: nat, look: nat)
    ensures Completes(world, call, look) <==> AllStand(world, call, look, |STEPS|)
  {
    CallsAt(world, call);
    assert STEPS == [DetectOS, CheckPrivilege, Preflight, InstallPrereqs, ProvisionUser, AwaitAgent];
    NextStands(world, call, look, 0, call);
    NextStands(world, call, look, 1, CallAt(world, call, 1));
    NextStands(world, call, look, 2, CallAt(world, call, 2));
    NextStands(world, call, look, 3, CallAt(world, call, 3));
    NextStands(world, call, look, 4, CallAt(world, call, 4));
    NextStands(world, call, look, 5, CallAt(world, call, 5));
    assert AllStand(world, call, look, 0);
  }

  lemma OptionsPlain()
    ensures All(CONTROL_PLANE, ShellQuote.PlainChar) && All(TOKEN, ShellQuote.PlainChar)
  {
  }

  /** The remote shell reads the control plane's address and the token back as two single words. */
  lemma InstallerReadsItsArguments(controlPlane: string, token: string)
    ensures ShellQuote.ReadWords(InstallerArguments(controlPlane, token)) ==
              Some(["--control-plane", controlPlane, "--token", token])
  {
    OptionsPlain();
    var fourth := ShellQuote.Quote(token);
    ShellQuote.LastQuoted(token);
    var third := TOKEN + (" " + fourth);
    ShellQuote.TakePlain(TOKEN, fourth, [token]);
    var second := ShellQuote.Quote(controlPlane) + (" " + third);
    ShellQuote.TakeQuoted(controlPlane, third, [TOKEN] + [token]);
    ShellQuote.TakePlain(CONTROL_PLANE, second, [controlPlane] + ([TOKEN] + [token]));
    assert [CONTROL_PLANE] + ([controlPlane] + ([TOKEN] + [token])) == [CONTROL_PLANE, controlPlane, TOKEN, token];
  }
}
