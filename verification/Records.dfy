/** What the control plane's requests write and hand out, field by field, and what a row keeps of the reports
    on it over every run. */
module Records {
  import opened Text
  import ConfigEnv
  import Images
  import PreviewNames
  import opened Tables
  import opened ControlPlane
  import opened Histories

  // ---- Who asks ----

  /** An agent is its credential's, and may leave its id out. */
  lemma AgentExactly(agents: Agents, agent: string, credential: string, server: string)
    ensures ResolveAgent(agents, agent, credential) == Ok(server) <==>
              && credential != "" && credential in agents
              && (agent == "" || agents[credential].0 == agent) && agents[credential].1 == server
    ensures ResolveAgent(agents, agent, credential) == Err(InvalidInput) <==> credential == ""
    ensures ResolveAgent(agents, agent, credential).Err? ==>
              ResolveAgent(agents, agent, credential).error in {InvalidInput, PermissionDenied}
  {
  }

  /** A request is refused for its form, then for its service, then for its caller, then for its server, which has to
      be of the service's workspace. */
  lemma RefusedExactly(valid: bool, services: map<string, Service>, servers: map<string, string>, service: string,
          server: string, denied: Option<Problem>)
    ensures Refusal(valid, services, servers, service, server, denied) ==
            if !valid then Some(InvalidInput)
            else if service !in services then Some(NotFound)
            else match denied
              case Some(problem) => Some(problem)
              case None =>
                if server in servers && servers[server] == services[service].workspace then None else Some(NotFound)
  {
  }

  /** What a well-formed request is: ids, a port of 0 to 65535, and for a preview one of a branch and a pull request. */
  lemma WellFormedExactly(service: string, server: string, port: int, o: PreviewOrder)
    ensures ProductionAsked(service, server, port) <==>
              PreviewNames.IsUuid(service) && PreviewNames.IsUuid(server) && 0 <= port <= 65535
    ensures PreviewOrderOk(o) <==>
              && PreviewNames.IsUuid(o.service) && PreviewNames.IsUuid(o.server) && 0 <= o.port <= 65535
              && ((TrimSpace(o.branch) != "" && o.pr <= 0) || (TrimSpace(o.branch) == "" && o.pr > 0))
  {
  }

  // ---- New rows ----

  /** The row waits, and nothing has been reported on it. */
  predicate Waiting(row: Row, at: nat) {
    && row.status == Queued && row.created == at && row.hostPort == 0
    && row.message == "" && row.container == "" && row.commit == "" && row.builtImage == "" && row.url == ""
  }

  /** A production row is the service's, under its id, without a password; the request may override the ref and
      the port. */
  lemma ProductionExactly(id: string, svc: Service, server: string, port: int, ref: string, at: nat)
    ensures var asked, r := if port > 0 then port else svc.port, ProductionRow(id, svc, server, port, ref, at);
            && (r.Err? ==> r.error == InvalidInput)
            && (r.Ok? <==> if svc.git then svc.access == "public" || svc.access == "app"
                           else Images.Validate(svc.image).Some? && 1 <= asked <= 65535)
            && (r.Ok? ==>
                  && Waiting(r.value, at) && r.value.kind == Production && r.value.pr == 0
                  && r.value.service == id && r.value.routeKey == id && r.value.server == server
                  && r.value.environment == svc.environment && r.value.port == asked
                  && r.value.authUser == "" && r.value.authHash == ""
                  && r.value.source ==
                       if !svc.git then Image(Images.Validate(svc.image).value)
                       else if TrimSpace(ref) == "" then Git(svc.ref)
                       else Git(TrimSpace(ref)))
  {
  }

  predicate UserName(user: string) {
    && 1 <= |user| <= 32
    && forall i | 0 <= i < |user| ::
         'a' <= user[i] <= 'z' || 'A' <= user[i] <= 'Z' || '0' <= user[i] <= '9' || user[i] in "._-"
  }

  function AskedUser(username: string): string { if TrimSpace(username) == "" then "preview" else TrimSpace(username) }

  /** A preview is refused for its service first, then for what GitHub says of its pull request, then for its
      user name. */
  lemma PreviewRefusedExactly(sha: string -> string, svc: Service, o: PreviewOrder, head: Result<string, Problem>,
          at: nat)
    requires PreviewNames.IsHexDigest(sha)
    ensures PreviewRow(sha, svc, o, head, at) ==
            if !svc.git || (svc.access != "public" && svc.access != "app") then Err(InvalidInput)
            else if o.pr > 0 && head.Err? then Err(head.error)
            else if o.pr > 0 && head == Ok("") then Err(NotFound)
            else if o.password != "" && !UserName(AskedUser(o.username)) then Err(InvalidInput)
            else Ok(PreviewRow(sha, svc, o, head, at).value)
  {
    var user := AskedUser(o.username);
    assert forall c: char :: UserChar(c) <==> ('a' <= c <= 'z' || 'A' <= c <= 'Z' || '0' <= c <= '9' || c in "._-");
    assert ValidUser(user) <==> UserName(user);
  }

  /** A preview ordered with a password gets the user asked for, or "preview", and the given hash; one ordered
      without gets neither. It is built from the branch or from the pull request's head, on the port asked for or
      on the service's. */
  lemma PreviewExactly(sha: string -> string, svc: Service, o: PreviewOrder, head: Result<string, Problem>, at: nat)
    requires PreviewNames.IsHexDigest(sha) && PreviewRow(sha, svc, o, head, at).Ok?
    ensures o.pr > 0 ==> head.Ok?
    ensures var row, ref := PreviewRow(sha, svc, o, head, at).value, if o.pr > 0 then head.value else o.branch;
            && Waiting(row, at) && row.kind == Preview && row.pr == o.pr
            && row.service == o.service && row.routeKey == PreviewNames.RouteKey(sha, o.service, o.pr, ref)
            && row.server == o.server && row.environment == svc.environment
            && row.source == Git(ref) && row.port == (if o.port > 0 then o.port else svc.port)
            && row.authUser == (if o.password == "" then "" else AskedUser(o.username))
            && row.authHash == (if o.password == "" then "" else o.hash)
            && (o.password != "" ==> row.authUser != "")
  {
  }

  /** A rollback is to what ran: the commit that was reported, or else the ref; or the image, if its stored name is
      still accepted. It is a production row on the target's server, without a password. */
  lemma RollbackExactly(target: Row, at: nat)
    ensures var r := RollbackRow(target, at);
            && (r.Err? ==> r.error == InvalidInput)
            && (r.Err? <==> target.source.Image? && Images.Validate(target.source.image).None?)
            && (r.Ok? ==>
                  && Waiting(r.value, at) && r.value.kind == Production && r.value.pr == 0
                  && r.value.service == target.service && r.value.routeKey == target.service
                  && r.value.server == target.server && r.value.environment == target.environment
                  && r.value.port == target.port && r.value.authUser == "" && r.value.authHash == ""
                  && r.value.source ==
                       match target.source
                       case Image(image) => Image(Images.Validate(image).value)
                       case Git(ref) => Git(if target.commit == "" then ref else target.commit))
  {
  }

  /** A webhook's preview is built from the pull request's head on the service's own port, without a password, on the
      server it is given. */
  lemma RequestExactly(sha: string -> string, svc: Service, service: string, server: string, pr: int,
          head: Result<string, Problem>, at: nat)
    requires PreviewNames.IsHexDigest(sha) && pr > 0
    requires PreviewRow(sha, svc, RequestOrder(service, server, pr), head, at).Ok?
    ensures var row := PreviewRow(sha, svc, RequestOrder(service, server, pr), head, at).value;
            && head.Ok? && row.source == Git(head.value) && row.port == svc.port && row.pr == pr
            && row.service == service && row.server == server && row.authUser == "" && row.authHash == ""
  {
    PreviewExactly(sha, svc, RequestOrder(service, server, pr), head, at);
  }

  /** What can be rolled back to, what an agent has to tear down for a request, and what a sweep finds. */
  lemma FoundExactly(status: Status, row: Row, service: string, key: string, cutoff: int)
    ensures Restorable(status) <==> status in {Running, Superseded}
    ensures Active(row, service, key) <==>
              row.service == service && row.routeKey == key && row.kind != Production && row.status != TornDown
    ensures Expired(row, cutoff) <==> row.kind != Production && row.status == Running && row.created < cutoff
  {
  }

  // ---- What an agent is handed ----

  /** The container asked for is the row's: its key, its id, its port and its password; public if the service is; on
      its environment's network and at the service's host, or for a preview on a network and at a host of its own. */
  lemma WorkExactly(sha: string -> string, svc: Service, id: string, row: Row)
    requires PreviewNames.IsHexDigest(sha)
    ensures var input, key := WorkFor(sha, svc, id, row), if row.routeKey == "" then row.service else row.routeKey;
            && input.appLabel == key && input.deployment == id && input.public == svc.public
            && input.containerPort == (if row.port > 0 then row.port else 0)
            && input.authUser == row.authUser && input.authHash == row.authHash
            && (row.kind == Production ==>
                  input.network == "plorigo-" + row.environment && input.routeHost == "")
            && (row.kind == Preview ==>
                  && input.network == "plorigo-preview-" + key
                  && input.routeHost ==
                     PreviewNames.RouteHost(sha, svc.slug, row.pr, match row.source case Git(ref) => ref
                                                                   case Image(_) => "", row.service))
  {
  }

  /** The preview was ordered with this pair, and what the agent is handed asks for it. */
  lemma PasswordReachesTheAgent(sha: string -> string, svc: Service, o: PreviewOrder, head: Result<string, Problem>,
          at: nat, id: string)
    requires PreviewNames.IsHexDigest(sha) && PreviewRow(sha, svc, o, head, at).Ok?
    ensures var input := WorkFor(sha, svc, id, PreviewRow(sha, svc, o, head, at).value);
            if o.password == "" then input.authUser == "" && input.authHash == ""
            else input.authUser == AskedUser(o.username) && input.authUser != "" && input.authHash == o.hash
  {
    PreviewExactly(sha, svc, o, head, at);
    WorkExactly(sha, svc, id, PreviewRow(sha, svc, o, head, at).value);
  }

  /** The service's configuration can be had: a preview needs no secret. */
  ghost predicate Readable(config: seq<ConfigEnv.Entry>, row: Row) {
    row.kind == Preview || forall e | e in config :: e.secret ==> e.value.Some?
  }

  /** The clone needs a token that could not be had. */
  predicate Locked(svc: Service, row: Row, token: TokenReply) {
    row.source.Git? && svc.access == "app" && token != Minted
  }

  lemma ReadableExactly(config: seq<ConfigEnv.Entry>, row: Row)
    ensures Readable(config, row) <==> ConfigEnv.Env(config, row.kind != Preview).Some?
  {
    ConfigEnv.EnvFailsExactly(config, row.kind != Preview);
    if row.kind != Preview && ConfigEnv.Env(config, true).Some? {
      assert forall e | e in config :: !ConfigEnv.Sealed(e);
    }
  }

  /** A claimed row is handed out, failed for want of a token, or withheld: exactly when. */
  lemma HandoverExactly(sha: string -> string, services: map<string, Service>, config: seq<ConfigEnv.Entry>,
          token: TokenReply, d: Data, id: string)
    requires PreviewNames.IsHexDigest(sha) && id in d.rows
    ensures var row, r := d.rows[id], Handover(sha, services, config, token, d, id).0;
            if !Readable(config, row) || row.service !in services then r == Err(Internal)
            else if Locked(services[row.service], row, token) then r == Ok(NoWork)
            else
              && r.Ok? && r.value.Work? && r.value.id == id
              && r.value.input == WorkFor(sha, services[row.service], id, row)
              && ConfigEnv.Env(config, row.kind == Production) == Some(r.value.env)
  {
    ReadableExactly(config, d.rows[id]);
    assert d.rows[id].kind == Preview || d.rows[id].kind == Production;
  }

  lemma GivenUpWrites(d: Data, id: string, message: string)
    requires id in d.rows
    ensures GivenUp(SetStatus(d, id, Assigned), id, message) ==
            d.(rows := d.rows[id :=
              d.rows[id].(status := Status.Failed, message := Given(message, d.rows[id].message))])
  {
    var row := d.rows[id];
    var failed := row.(status := Status.Failed, message := Given(message, row.message));
    assert d.rows[id := row.(status := Assigned)][id := failed] == d.rows[id := failed];
  }

  /** The reason says which of the two went wrong. */
  lemma Reasoned(token: TokenReply)
    ensures TokenProblem(token) != ""
    ensures token != MintFailed ==>
              TokenProblem(token) == "this service builds a private repo but its integration is no longer connected"
    ensures TokenProblem(MintFailed) == "could not obtain a token to clone this private repo"
  {
  }

  /** It is marked as claimed, or as failed with a reason, and nothing else is written. */
  lemma HandoverWrites(sha: string -> string, services: map<string, Service>, config: seq<ConfigEnv.Entry>,
          token: TokenReply, d: Data, id: string)
    requires PreviewNames.IsHexDigest(sha) && id in d.rows
    ensures var (r, d') := Handover(sha, services, config, token, d, id);
            if r != Ok(NoWork) then d' == d.(rows := d.rows[id := d.rows[id].(status := Assigned)])
            else d' == d.(rows := d.rows[id := d.rows[id].(status := Status.Failed, message := TokenProblem(token))])
  {
    GivenUpWrites(d, id, TokenProblem(token));
    Reasoned(token);
  }

  // ---- Teardown jobs ----

  /** A teardown job is for the row's key on the row's server. */
  lemma JobExactly(d: Data, id: string, deployment: string, row: Row, key: string, at: nat)
    ensures var d' := InsertJob(d, id, deployment, row, key, at);
            && d'.rows == d.rows && d'.urls == d.urls && d'.now == at
            && d'.jobs == d.jobs[id := Job(deployment, row.service, key, row.server, at, JobQueued, "", "")]
  {
  }

  /** An accepted report on a job sets its status, keeps what it holds where nothing is given, and when it succeeded
      retires the key's rows on the server that had neither failed nor been superseded. */
  lemma JobReportExactly(d: Data, server: string, id: string, status: JobStatus, message: string, error: string)
    ensures var r := JobReported(d, server, id, status, message, error);
            && (r.Ok? <==> PreviewNames.IsUuid(id) && status in {Stopping, Removing, Succeeded, JobFailed}
                           && id in d.jobs && d.jobs[id].server == server)
            && (r.Ok? ==>
                  var d' := r.value;
                  && d'.urls == d.urls && d'.now == d.now && d'.rows.Keys == d.rows.Keys
                  && d'.jobs ==
                    d.jobs[id := d.jobs[id].(status := status, message := Given(message, d.jobs[id].message),
                                                         error := Given(error, d.jobs[id].error))]
                  && forall x | x in d.rows ::
                       d'.rows[x] ==
                         if status == Succeeded && d.rows[x].routeKey == d.jobs[id].routeKey
                           && d.rows[x].server == server
                            && d.rows[x].status !in {Status.Failed, Superseded, TornDown}
                         then d.rows[x].(status := TornDown) else d.rows[x])
  {
  }

  // ---- Reports over runs ----

  /** A report is accepted for a row of the agent's server, with one of the statuses a deployment goes through. */
  lemma AcceptedExactly(d: Data, server: string, r: ControlPlane.Report)
    ensures Reported(d, server, r).Ok? <==>
              && PreviewNames.IsUuid(r.deployment) && r.update.status !in {Queued, Assigned, Superseded, TornDown}
              && r.deployment in d.rows && d.rows[r.deployment].server == server
    ensures Reported(d, server, r).Err? ==>
              Reported(d, server, r).error ==
                if !PreviewNames.IsUuid(r.deployment) || r.update.status in {Queued, Assigned, Superseded, TornDown}
                then InvalidInput
                else if r.deployment !in d.rows then NotFound
                else PermissionDenied
  {
    StatusNamed(r.update.status);
  }

  lemma StatusNamed(s: Status)
    ensures s in {Queued, Assigned, Superseded, TornDown} <==>
              !s.Cloning? && !s.Building? && !s.Pulling? && !s.Starting? && !s.Healthcheck? && !s.Routing?
                && !s.Running?
              && !s.Failed?
  {
    match s case _ =>
  }

  /** The row holds what has been reported on it. */
  predicate SameReported(a: Row, b: Row) {
    && b.hostPort == a.hostPort && b.container == a.container && b.commit == a.commit
    && b.builtImage == a.builtImage && b.url == a.url
  }

  lemma ReportStep(d: Data, server: string, r: ControlPlane.Report, x: string)
    requires x in d.rows
    ensures var d' := Next(d, RowReport(server, r));
            && x in d'.rows && SameOrder(d.rows[x], d'.rows[x])
            && if Speaks(RowReport(server, r), x, d.rows[x].server) then Reworded(d.rows[x], d'.rows[x], r.update)
               else SameReported(d.rows[x], d'.rows[x]) && d'.rows[x].message == d.rows[x].message
  {
    if Reported(d, server, r).Ok? { RecordedAll(d, server, r.deployment, r.update); }
  }

  lemma JobReportStep(d: Data, e: Event, x: string)
    requires e.JobReport? && x in d.rows
    ensures x in Next(d, e).rows && Next(d, e).rows[x] == d.rows[x].(status := Next(d, e).rows[x].status)
  {
    JobReportExactly(d, e.server, e.id, e.status, e.message, e.error);
  }

  lemma QuietStep(d: Data, e: Event, x: string)
    requires Enabled(d, e) && x in d.rows && !e.RowReport?
    ensures x in Next(d, e).rows && SameOrder(d.rows[x], Next(d, e).rows[x])
    ensures SameReported(d.rows[x], Next(d, e).rows[x])
    ensures Next(d, e).rows[x].message != d.rows[x].message ==> e.Abandoned? && e.id == x
  {
    if e.JobReport? { JobReportStep(d, e, x); }
  }

  /** An event writes of a row only what it reports, and accepts reports from the row's server alone. */
  lemma StepReports(d: Data, e: Event, x: string)
    requires Enabled(d, e) && x in d.rows
    ensures x in Next(d, e).rows && SameOrder(d.rows[x], Next(d, e).rows[x])
    ensures if Speaks(e, x, d.rows[x].server) then Reworded(d.rows[x], Next(d, e).rows[x], e.report.update)
            else SameReported(d.rows[x], Next(d, e).rows[x])
    ensures !Speaks(e, x, d.rows[x].server) && Next(d, e).rows[x].message != d.rows[x].message ==>
              e.Abandoned? && e.id == x
  {
    if e.RowReport? { ReportStep(d, e.server, e.report, x); } else { QuietStep(d, e, x); }
  }

  /** The last value reported on the row, if any was; hold is what it held before. */
  function LastReported(es: seq<Event>, x: string, server: string, of: Update -> string, hold: string): string {
    if es == [] then hold
    else
      var said := if Speaks(es[0], x, server) then of(es[0].report.update) else "";
      LastReported(es[1..], x, server, of, if said == "" then hold else said)
  }

  function LastPort(es: seq<Event>, x: string, server: string, hold: int): int {
    if es == [] then hold
    else
      var said := if Speaks(es[0], x, server) then es[0].report.update.hostPort else 0;
      LastPort(es[1..], x, server, if said <= 0 then hold else said)
  }

  /** After any run a row holds, of each value, the last one its server reported on it: none is ever lost to a
      report that leaves it out. */
  lemma {:induction false} HoldsTheLast(d: Data, es: seq<Event>, d': Data, x: string)
    requires Run(d, es, d') && x in d.rows
    ensures x in d'.rows && SameOrder(d.rows[x], d'.rows[x])
    ensures var a, b := d.rows[x], d'.rows[x];
            && b.hostPort == LastPort(es, x, a.server, a.hostPort)
            && b.container == LastReported(es, x, a.server, (u: Update) => u.container, a.container)
            && b.commit == LastReported(es, x, a.server, (u: Update) => u.commit, a.commit)
            && b.builtImage == LastReported(es, x, a.server, (u: Update) => u.builtImage, a.builtImage)
            && b.url == LastReported(es, x, a.server, (u: Update) => u.url, a.url)
    decreases es
  {
    if es != [] {
      StepReports(d, es[0], x);
      HoldsTheLast(Next(d, es[0]), es[1..], d', x);
    }
  }

  /** What the log tail reports on a running container: its status and nothing else. */
  const TAIL := Update(Running, "", 0, "", "", "", "")

  /** Whatever is reported on the row is the log tail's report, and the row is not given up. */
  predicate OnlyTails(es: seq<Event>, x: string) {
    forall i | 0 <= i < |es| ::
      && (es[i].RowReport? && es[i].report.deployment == x ==> es[i].report.update == TAIL)
      && (es[i].Abandoned? ==> es[i].id != x)
  }

  lemma {:induction false} TailsKeep(d: Data, es: seq<Event>, d': Data, x: string)
    requires Run(d, es, d') && x in d.rows && OnlyTails(es, x)
    ensures x in d'.rows && SameReported(d.rows[x], d'.rows[x]) && SameOrder(d.rows[x], d'.rows[x])
    ensures d'.rows[x].message == d.rows[x].message
    decreases es
  {
    if es != [] {
      StepReports(d, es[0], x);
      assert OnlyTails(es[1..], x) by {
        forall i | 0 <= i < |es[1..]| ensures es[1..][i] == es[i + 1] { }
      }
      TailsKeep(Next(d, es[0]), es[1..], d', x);
    }
  }

  /** A commit was reported on a git row. After any run in which only the log tail reports on the row, rolling back to
      it deploys that commit. */
  lemma RollbackAfterTails(d: Data, server: string, x: string, u: Update, after: Data, es: seq<Event>, d': Data,
          at: nat)
    requires Reported(d, server, ControlPlane.Report(x, u)) == Ok(after) && u.commit != "" && d.rows[x].source.Git?
    requires Run(after, es, d') && OnlyTails(es, x)
    ensures x in d'.rows && RollbackRow(d'.rows[x], at).Ok?
    ensures RollbackRow(d'.rows[x], at).value.source == Git(u.commit)
  {
    RecordedAll(d, server, x, u);
    TailsKeep(after, es, d', x);
    RollbackExactly(d'.rows[x], at);
  }
}
