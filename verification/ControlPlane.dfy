/** The deployment service: what each request does to the tables. Authorization, GitHub and token
    minting answer as part of the input; the database does not fail. */
module ControlPlane {
  import opened Text
  import Images
  import ConfigEnv
  import PreviewNames
  import Docker
  import Routes
  import RouteSync
  import opened Tables

  datatype Problem = InvalidInput | NotFound | PermissionDenied | Internal

  datatype Service = Service(
    workspace: string, environment: string, git: bool, access: string, image: string, ref: string, port: int,
    public: bool, slug: string)

  /** What of a request for a server is refused, and how: a malformed one, one for an unknown service, one the
      caller may not make, one for a server of another workspace. */
  function Refusal(valid: bool, services: map<string, Service>, servers: map<string, string>, service: string,
          server: string, denied: Option<Problem>): Option<Problem> {
    if !valid then Some(InvalidInput)
    else if service !in services then Some(NotFound)
    else if denied.Some? then denied
    else if server !in servers || servers[server] != services[service].workspace then Some(NotFound)
    else None
  }

  /** The row's server is in the workspace of its service. */
  predicate Housed(services: map<string, Service>, servers: map<string, string>, row: Row) {
    row.service in services ==> row.server in servers && servers[row.server] == services[row.service].workspace
  }

  /** The agents table by credential: agent and server. */
  type Agents = map<string, (string, string)>

  function ResolveAgent(agents: Agents, agent: string, credential: string): Result<string, Problem> {
    if credential == "" then Err(InvalidInput)
    else if credential !in agents then Err(PermissionDenied)
    else if agent != "" && agent != agents[credential].0 then Err(PermissionDenied)
    else Ok(agents[credential].1)
  }

  const MAX_PORT := 65535

  predicate Buildable(access: string) { access == "public" || access == "app" }

  // ---- Production rows ----

  function ProductionRow(id: string, svc: Service, server: string, portOverride: int, ref: string,
          at: nat): Result<Row, Problem> {
    var port := if portOverride > 0 then portOverride else svc.port;
    if svc.git then
      if !Buildable(svc.access) then Err(InvalidInput)
      else
        var trimmed := TrimSpace(ref);
        var source := Git(if trimmed == "" then svc.ref else trimmed);
        Ok(Fresh(id, id, Production, server, svc.environment, source, port, 0, "", "", at))
    else match Images.Validate(svc.image)
      case None => Err(InvalidInput)
      case Some(image) =>
        if port < 1 || port > MAX_PORT then Err(InvalidInput)
        else Ok(Fresh(id, id, Production, server, svc.environment, Image(image), port, 0, "", "", at))
  }

  /** A rollback reproduces the artifact in a production row, whatever kind of row it restores. */
  function RollbackRow(target: Row, at: nat): Result<Row, Problem> {
    var source := match target.source
      case Git(ref) => Some(Git(if target.commit == "" then ref else target.commit))
      case Image(image) => (match Images.Validate(image) case None => None case Some(again) => Some(Image(again)));
    if source.None? then Err(InvalidInput)
    else
      Ok(Fresh(target.service, target.service, Production, target.server, target.environment, source.value,
               target.port, 0, "", "", at))
  }

  predicate Restorable(status: Status) { status == Running || status == Superseded }

  // ---- Preview rows ----

  predicate UserChar(c: char) { 'A' <= c <= 'Z' || 'a' <= c <= 'z' || IsDigit(c) || c == '.' || c == '_' || c == '-' }

  predicate ValidUser(user: string) { 1 <= |user| <= 32 && All(user, UserChar) }

  /** The basic-auth pair of a preview; the hash stands for bcrypt's. */
  function AuthPair(password: string, username: string, hash: string): Result<(string, string), Problem> {
    if password == "" then Ok(("", ""))
    else
      var trimmed := TrimSpace(username);
      var user := if trimmed == "" then "preview" else trimmed;
      if ValidUser(user) then Ok((user, hash)) else Err(InvalidInput)
  }

  datatype PreviewOrder = PreviewOrder(
    service: string, server: string, branch: string, pr: int, port: int, password: string, username: string,
    hash: string)

  /** A webhook's preview of a pull request has no password and the service's own port. */
  function RequestOrder(service: string, server: string, pr: int): PreviewOrder {
    PreviewOrder(service, server, "", pr, 0, "", "", "")
  }

  /** GitHub's answer for a pull request: its head ref, or none. */
  function PreviewRow(sha: string -> string, svc: Service, o: PreviewOrder, head: Result<string, Problem>,
          at: nat): Result<Row, Problem>
    requires forall s :: |sha(s)| == 64
  {
    if !svc.git || !Buildable(svc.access) then Err(InvalidInput)
    else if o.pr > 0 && head.Err? then Err(head.error)
    else if o.pr > 0 && head.value == "" then Err(NotFound)
    else
      var ref := if o.pr > 0 then head.value else o.branch;
      match AuthPair(o.password, o.username, o.hash)
      case Err(e) => Err(e)
      case Ok(pair) =>
        Ok(Fresh(o.service, PreviewNames.RouteKey(sha, o.service, o.pr, ref), Preview, o.server, svc.environment,
                 Git(ref), if o.port > 0 then o.port else svc.port, o.pr, pair.0, pair.1, at))
  }

  /** Previews ask for exactly one of a branch and a pull request. */
  function PreviewOrderOk(o: PreviewOrder): bool {
    && PreviewNames.IsUuid(o.service) && PreviewNames.IsUuid(o.server)
    && 0 <= o.port <= MAX_PORT
    && (TrimSpace(o.branch) == "") != (o.pr <= 0)
  }

  // ---- What the agent is handed ----

  function RowRef(row: Row): string { match row.source case Git(ref) => ref case Image(_) => "" }

  /** The container the agent is asked to start for a row. */
  function WorkFor(sha: string -> string, svc: Service, id: string, row: Row): Docker.RunInput
    requires forall s :: |sha(s)| == 64
  {
    var preview := row.kind == Preview;
    Docker.RunInput(
      KeyOf(row), id, svc.public, if row.port < 0 then 0 else row.port,
      if preview then PreviewNames.PreviewNetwork(KeyOf(row)) else PreviewNames.EnvironmentNetwork(row.environment),
      row.authUser, row.authHash,
      if preview then PreviewNames.RouteHost(sha, svc.slug, row.pr, RowRef(row), row.service) else "")
  }

  datatype TokenReply = Minted | MintFailed | NotConnected

  datatype Claim = NoWork | Work(id: string, input: Docker.RunInput, env: map<string, string>)

  // ---- Reports ----

  datatype Report = Report(deployment: string, update: Update)

  predicate Reportable(status: Status) {
    status in {Status.Cloning, Building, Pulling, Starting, Healthcheck, Routing, Running, Status.Failed}
  }

  function Reported(d: Data, server: string, r: Report): Result<Data, Problem> {
    if !PreviewNames.IsUuid(r.deployment) || !Reportable(r.update.status) then Err(InvalidInput)
    else if r.deployment !in d.rows then Err(NotFound)
    else if d.rows[r.deployment].server != server then Err(PermissionDenied)
    else Ok(AfterReport(d, server, r.deployment, r.update))
  }

  function AfterReport(d: Data, server: string, id: string, u: Update): Data
    requires id in d.rows
  {
    var row := d.rows[id];
    var rows := d.rows[id := Updated(row, u)];
    d.(urls := if u.url != "" && row.kind != Preview then d.urls[row.service := u.url] else d.urls,
       rows := if u.status != Running || u.hostPort <= 0 then rows
               else SupersedePreviousRunning(rows, KeyOf(row), server, id))
  }

  lemma RecordedAll(d: Data, server: string, id: string, u: Update)
    requires id in d.rows && d.rows[id].server == server
    ensures var d' := AfterReport(d, server, id, u);
            && RowsRecorded(d.rows, d'.rows, id, u) && UrlsRecorded(d.urls, d'.urls, d.rows[id], u)
            && d'.jobs == d.jobs && d'.now == d.now
  {
  }

  // ---- Teardown jobs ----

  predicate JobReportable(status: JobStatus) { status in {Stopping, Removing, Succeeded, JobFailed} }

  function JobReported(d: Data, server: string, id: string, status: JobStatus, message: string,
          error: string): Result<Data, Problem> {
    if !PreviewNames.IsUuid(id) || !JobReportable(status) then Err(InvalidInput)
    else if id !in d.jobs then Err(NotFound)
    else if d.jobs[id].server != server then Err(PermissionDenied)
    else
      var d1 := SetJobStatus(d, id, status, message, error);
      Ok(if status == Succeeded then d1.(rows := MarkPreviewTornDown(d1.rows, d.jobs[id].routeKey, server)) else d1)
  }

  /** The expired previews, oldest first. */
  ghost predicate IsExpiredList(rows: map<string, Row>, cutoff: int, list: seq<string>) {
    && (forall x :: x in list <==> x in rows && Expired(rows[x], cutoff))
    && forall i, j | 0 <= i < j < |list| :: list[i] != list[j] && rows[list[i]].created <= rows[list[j]].created
  }

  function Except(list: seq<string>, fails: set<string>): (r: seq<string>)
    ensures forall x | x in r :: x in list && x !in fails
  {
    if list == [] then []
    else
      var rest := Except(list[..|list| - 1], fails);
      if list[|list| - 1] in fails then rest else rest + [list[|list| - 1]]
  }

  /** The jobs a sweep inserts, one for each row in turn. */
  function JobsFor(d: Data, rows: seq<string>, ids: nat -> string, at: nat): Data
    requires forall x | x in rows :: x in d.rows
  {
    if rows == [] then d
    else
      var n := |rows| - 1;
      var before := JobsFor(d, rows[..n], ids, at);
      InsertJob(before, ids(n), rows[n], d.rows[rows[n]], KeyOf(d.rows[rows[n]]), at)
  }

  class Deployments {
    const sha: string -> string
    const agents: Agents
    const services: map<string, Service>
    /** The workspace of each server. */
    const servers: map<string, string>
    var rows: map<string, Row>
    var jobs: map<string, Job>
    var urls: map<string, string>
    var now: nat

    function Now(): Data
      reads this
    {
      Data(rows, jobs, urls, now)
    }

    constructor (sha: string -> string, agents: Agents, services: map<string, Service>, servers: map<string, string>)
      ensures this.sha == sha && this.agents == agents && this.services == services && this.servers == servers
      ensures Now() == Data(map[], map[], map[], 0)
    {
      this.sha, this.agents, this.services, this.servers := sha, agents, services, servers;
      rows, jobs, urls, now := map[], map[], map[], 0;
    }

    /** Insert a row under an id of its own. */
    method Insert(id: string, row: Row)
      modifies this
      ensures Now() == InsertRow(old(Now()), id, row)
    {
      rows, now := rows[id := row], row.created;
    }

    /** CreateForService. */
    method CreateForService(service: string, server: string, port: int, ref: string, denied: Option<Problem>,
            id: string, at: nat)
      returns (r: Result<string, Problem>)
      modifies this
      ensures r.Err? ==> Now() == old(Now())
      ensures r == match Refusal(ProductionAsked(service, server, port), services, servers, service, server, denied)
                   case Some(e) => Err(e)
                   case None => (match ProductionRow(service, services[service], server, port, ref, at)
                                 case Err(e) => Err(e)
                                 case Ok(_) => Ok(id))
      ensures r.Ok? ==>
                && service in services && ProductionRow(service, services[service], server, port, ref, at).Ok?
                && var row := ProductionRow(service, services[service], server, port, ref, at).value;
                   Now() == InsertRow(old(Now()), id, row) && Housed(services, servers, row)
    {
      if !ProductionAsked(service, server, port) { return Err(InvalidInput); }
      if service !in services { return Err(NotFound); }
      if denied.Some? { return Err(denied.value); }
      if server !in servers || servers[server] != services[service].workspace { return Err(NotFound); }
      var row := ProductionRow(service, services[service], server, port, ref, at);
      if row.Err? { return Err(row.error); }
      Insert(id, row.value);
      return Ok(id);
    }

    /** enqueuePreview: the shared core of the dashboard's and the webhook's previews. */
    method EnqueuePreview(o: PreviewOrder, head: Result<string, Problem>, id: string, at: nat)
      returns (r: Result<string, Problem>)
      requires forall s :: |sha(s)| == 64
      modifies this
      ensures r.Err? ==> Now() == old(Now())
      ensures r == if o.service !in services then Err(NotFound)
                   else match PreviewRow(sha, services[o.service], o, head, at)
                     case Err(e) => Err(e)
                     case Ok(_) => Ok(id)
      ensures r.Ok? ==> Now() == InsertRow(old(Now()), id, PreviewRow(sha, services[o.service], o, head, at).value)
    {
      if o.service !in services { return Err(NotFound); }
      var row := PreviewRow(sha, services[o.service], o, head, at);
      if row.Err? { return Err(row.error); }
      Insert(id, row.value);
      return Ok(id);
    }

    /** CreatePreview. */
    method CreatePreview(o: PreviewOrder, denied: Option<Problem>, head: Result<string, Problem>, id: string, at: nat)
      returns (r: Result<string, Problem>)
      requires forall s :: |sha(s)| == 64
      modifies this
      ensures r.Err? ==> Now() == old(Now())
      ensures r == match Refusal(PreviewOrderOk(o), services, servers, o.service, o.server, denied)
                   case Some(e) => Err(e)
                   case None => (match PreviewRow(sha, services[o.service], o.(branch := TrimSpace(o.branch)), head, at)
                                 case Err(e) => Err(e)
                                 case Ok(_) => Ok(id))
      ensures r.Ok? ==>
                && o.service in services
                && PreviewRow(sha, services[o.service], o.(branch := TrimSpace(o.branch)), head, at).Ok?
                && var row := PreviewRow(sha, services[o.service], o.(branch := TrimSpace(o.branch)), head, at).value;
                   Now() == InsertRow(old(Now()), id, row) && Housed(services, servers, row)
    {
      if !PreviewOrderOk(o) { return Err(InvalidInput); }
      if o.service !in services { return Err(NotFound); }
      if denied.Some? { return Err(denied.value); }
      if o.server !in servers || servers[o.server] != services[o.service].workspace { return Err(NotFound); }
      r := EnqueuePreview(o.(branch := TrimSpace(o.branch)), head, id, at);
    }

    /** CreatePreviewForPR: on the server the service last deployed to, without a password. */
    method CreatePreviewForPR(service: string, pr: int, head: Result<string, Problem>, id: string, at: nat)
      returns (r: Result<string, Problem>)
      requires forall s :: |sha(s)| == 64
      modifies this
      ensures r.Err? ==> Now() == old(Now())
      ensures r.Ok? <==>
                && PreviewNames.IsUuid(service) && 0 < pr && service in services
                && (exists x | x in old(rows) :: old(rows)[x].service == service)
                && PreviewRow(sha, services[service], RequestOrder(service, "", pr), head, at).Ok?
      ensures r.Ok? ==> exists server ::
                && LatestServer(old(rows), service, server)
                && PreviewRow(sha, services[service], RequestOrder(service, server, pr), head, at).Ok?
                && var row := PreviewRow(sha, services[service], RequestOrder(service, server, pr), head, at).value;
                   && Now() == InsertRow(old(Now()), id, row)
                   && ((forall x | x in old(rows) :: Housed(services, servers, old(rows)[x])) ==>
                     Housed(services, servers, row))
    {
      if !PreviewNames.IsUuid(service) || pr <= 0 { return Err(InvalidInput); }
      var mine := set x | x in rows && rows[x].service == service;
      if mine == {} {
        assert forall x | x in rows :: rows[x].service != service by {
          forall x | x in rows ensures rows[x].service != service { assert x !in mine; }
        }
        return Err(InvalidInput);
      }
      var latest := Latest(mine);
      assert LatestServer(rows, service, rows[latest].server);
      r := EnqueuePreview(RequestOrder(service, rows[latest].server, pr), head, id, at);
    }

    /** The row of a set that was created last. */
    method Latest(ids: set<string>) returns (id: string)
      requires ids != {} && ids <= rows.Keys
      ensures id in ids && forall x | x in ids :: rows[x].created <= rows[id].created
    {
      var left := ids;
      id :| id in ids;
      while left != {}
        invariant left <= ids && id in ids
        invariant forall x | x in ids - left :: rows[x].created <= rows[id].created
        decreases left
      {
        var x :| x in left;
        if rows[id].created < rows[x].created { id := x; }
        left := left - {x};
      }
    }

    /** The row of a set that was created first. */
    method Earliest(ids: set<string>) returns (id: string)
      requires ids != {} && ids <= rows.Keys
      ensures id in ids && forall x | x in ids :: rows[id].created <= rows[x].created
    {
      var left := ids;
      id :| id in ids;
      while left != {}
        invariant left <= ids && id in ids
        invariant forall x | x in ids - left :: rows[id].created <= rows[x].created
        decreases left
      {
        var x :| x in left;
        if rows[x].created < rows[id].created { id := x; }
        left := left - {x};
      }
    }

    /** RollbackToDeployment. */
    method RollbackToDeployment(target: string, denied: Option<Problem>, id: string, at: nat)
      returns (r: Result<string, Problem>)
      modifies this
      ensures r.Err? ==> Now() == old(Now())
      ensures r == if !PreviewNames.IsUuid(target) then Err(InvalidInput)
                   else if target !in old(rows) then Err(NotFound)
                   else if denied.Some? then Err(denied.value)
                   else if !Restorable(old(rows)[target].status) then Err(InvalidInput)
                   else match RollbackRow(old(rows)[target], at) case Err(e) => Err(e) case Ok(_) => Ok(id)
      ensures r.Ok? ==>
                && target in old(rows) && RollbackRow(old(rows)[target], at).Ok?
                && var row := RollbackRow(old(rows)[target], at).value;
                   && Now() == InsertRow(old(Now()), id, row)
                   && (Housed(services, servers, old(rows)[target]) ==> Housed(services, servers, row))
    {
      if !PreviewNames.IsUuid(target) { return Err(InvalidInput); }
      if target !in rows { return Err(NotFound); }
      if denied.Some? { return Err(denied.value); }
      if !Restorable(rows[target].status) { return Err(InvalidInput); }
      var row := RollbackRow(rows[target], at);
      if row.Err? { return Err(row.error); }
      Insert(id, row.value);
      return Ok(id);
    }

    /** PollDeployment: claim the oldest queued row of the agent's server. A private repository whose token
        cannot be had fails the row instead of handing it out. A row whose configuration cannot be opened, or
        whose service is gone, stays claimed and is not handed out. */
    method PollDeployment(agent: string, credential: string, config: string -> seq<ConfigEnv.Entry>, token: TokenReply)
      returns (r: Result<Claim, Problem>, ghost taken: Option<string>)
      requires forall s :: |sha(s)| == 64
      modifies this
      ensures taken.None? ==> Now() == old(Now())
      ensures taken.None? && r.Ok? ==>
                && r == Ok(NoWork) && ResolveAgent(agents, agent, credential).Ok?
                && NoneQueued(old(rows), ResolveAgent(agents, agent, credential).value)
      ensures ResolveAgent(agents, agent, credential).Err? ==>
                taken.None? && r == Err(ResolveAgent(agents, agent, credential).error)
      ensures taken.Some? ==>
                && ResolveAgent(agents, agent, credential).Ok?
                && Oldest(old(rows), ResolveAgent(agents, agent, credential).value, taken.value)
                && (r, Now()) ==
                  Handover(sha, services, config(old(rows)[taken.value].service), token, old(Now()), taken.value)
    {
      var server := ResolveAgent(agents, agent, credential);
      if server.Err? { return Err(server.error), None; }
      var queued := set x | x in rows && rows[x].server == server.value && rows[x].status == Queued;
      if queued == {} {
        assert NoneQueued(rows, server.value) by {
          forall x | x in rows && rows[x].server == server.value ensures rows[x].status != Queued {
            assert x !in queued;
          }
        }
        return Ok(NoWork), None;
      }
      var id := Earliest(queued);
      taken := Some(id);
      var row := rows[id];
      rows := rows[id := row.(status := Assigned)];
      var env := ConfigEnv.ConfigEnvForService(config(row.service), row.kind != Preview);
      if env.None? { return Err(Internal), taken; }
      if row.service !in services { return Err(Internal), taken; }
      if row.source.Git? && services[row.service].access == "app" && token != Minted {
        FailDeployment(id, TokenProblem(token));
        return Ok(NoWork), taken;
      }
      return Ok(Work(id, WorkFor(sha, services[row.service], id, row), env.value)), taken;
    }

    method FailDeployment(id: string, message: string)
      requires id in rows
      modifies this`rows
      ensures Now() == GivenUp(old(Now()), id, message)
    {
      rows := rows[id := Updated(rows[id], Update(Status.Failed, message, 0, "", "", "", ""))];
    }

    /** ReportDeployment. */
    method ReportDeployment(agent: string, credential: string, report: Report) returns (r: Result<(), Problem>)
      modifies this
      ensures r.Ok? ==>
                && ResolveAgent(agents, agent, credential).Ok?
                && Reported(old(Now()), ResolveAgent(agents, agent, credential).value, report) == Ok(Now())
      ensures r.Ok? ==>
                && credential in agents && (agent == "" || agent == agents[credential].0)
                && report.deployment in old(rows) && old(rows)[report.deployment].server == agents[credential].1
                && RowsRecorded(old(rows), rows, report.deployment, report.update)
                && UrlsRecorded(old(urls), urls, old(rows)[report.deployment], report.update)
                && jobs == old(jobs) && now == old(now)
      ensures r.Err? ==> Now() == old(Now())
      ensures r.Err? ==>
                if credential == "" || !PreviewNames.IsUuid(report.deployment) || !Reportable(report.update.status)
                then r.error == InvalidInput
                else if ResolveAgent(agents, agent, credential).Err? then r.error == PermissionDenied
                else Reported(old(Now()), ResolveAgent(agents, agent, credential).value, report) == Err(r.error)
    {
      if credential == "" || !PreviewNames.IsUuid(report.deployment) || !Reportable(report.update.status) {
        return Err(InvalidInput);
      }
      var server := ResolveAgent(agents, agent, credential);
      if server.Err? { return Err(server.error); }
      if report.deployment !in rows { return Err(NotFound); }
      if rows[report.deployment].server != server.value { return Err(PermissionDenied); }
      Record(report.deployment, report.update, server.value);
      return Ok(());
    }

    /** The writes of an accepted report: the row, the cached address of production, and the rows it supersedes. */
    method Record(id: string, u: Update, server: string)
      requires id in rows && rows[id].server == server
      modifies this
      ensures Now() == AfterReport(old(Now()), server, id, u)
      ensures RowsRecorded(old(rows), rows, id, u) && UrlsRecorded(old(urls), urls, old(rows)[id], u)
      ensures jobs == old(jobs) && now == old(now)
    {
      var row := rows[id];
      RecordedAll(Now(), server, id, u);
      rows := rows[id := Updated(row, u)];
      if u.url != "" && row.kind != Preview { urls := urls[row.service := u.url]; }
      if u.status == Running && u.hostPort > 0 {
        var key := if row.routeKey == "" then row.service else row.routeKey;
        rows := SupersedePreviousRunning(rows, key, server, id);
      }
    }

    /** SyncRoutes: the overrides for the routes an agent reports, as far as its rows vouch for them. */
    method SyncRoutes(agent: string, credential: string, routes: seq<Routes.Route>, verified: map<string, seq<string>>)
      returns (r: Result<seq<RouteSync.Override>, Problem>)
      ensures match ResolveAgent(agents, agent, credential)
              case Err(e) => r == Err(e)
              case Ok(server) => r.Ok? && RouteSync.IsAnswer(Known(rows, verified), server, routes, r.value)
      ensures r.Ok? ==> credential in agents && Answers(rows, verified, agents[credential].1, routes, r.value)
    {
      var server := ResolveAgent(agents, agent, credential);
      if server.Err? { return Err(server.error); }
      var overrides := RouteSync.SyncRoutes(Known(rows, verified), server.value, routes);
      AnswerExactly(rows, verified, server.value, routes, overrides);
      return Ok(overrides);
    }

    // ---- Teardown ----

    method NewJob(id: string, deployment: string, key: string, at: nat)
      requires deployment in rows
      modifies this`jobs, this`now
      ensures Now() == InsertJob(old(Now()), id, deployment, old(rows)[deployment], key, at)
    {
      var row := rows[deployment];
      jobs, now := jobs[id := Job(deployment, row.service, key, row.server, at, JobQueued, "", "")], at;
    }

    /** TeardownPreview. */
    method TeardownPreview(deployment: string, denied: Option<Problem>, id: string, at: nat)
      returns (r: Result<string, Problem>)
      modifies this
      ensures r.Err? ==> Now() == old(Now())
      ensures r == if !PreviewNames.IsUuid(deployment) then Err(InvalidInput)
                   else if deployment !in old(rows) then Err(NotFound)
                   else if old(rows)[deployment].kind != Preview then Err(InvalidInput)
                   else if denied.Some? then Err(denied.value)
                   else Ok(id)
      ensures r.Ok? ==>
                && deployment in old(rows)
                && Now() == InsertJob(old(Now()), id, deployment, old(rows)[deployment], KeyOf(old(rows)[deployment]),
                  at)
    {
      if !PreviewNames.IsUuid(deployment) { return Err(InvalidInput); }
      if deployment !in rows { return Err(NotFound); }
      if rows[deployment].kind != Preview { return Err(InvalidInput); }
      if denied.Some? { return Err(denied.value); }
      NewJob(id, deployment, KeyOf(rows[deployment]), at);
      return Ok(id);
    }

    /** TeardownPreviewForPR: a job for the latest row of the request's key that is not torn down, if any. */
    method TeardownPreviewForPR(service: string, pr: int, id: string, at: nat) returns (r: Result<bool, Problem>)
      requires forall s :: |sha(s)| == 64
      modifies this
      ensures r.Err? <==> !PreviewNames.IsUuid(service) || pr <= 0
      ensures r.Ok? && r.value ==>
                exists x :: LatestActive(old(rows), service, PreviewNames.RouteKey(sha, service, pr, ""), x)
                       && Now() == InsertJob(old(Now()), id, x, old(rows)[x],
                         PreviewNames.RouteKey(sha, service, pr, ""), at)
      ensures (r.Ok? && r.value) || Now() == old(Now())
      ensures r.Ok? ==>
                (r.value <==>
                  exists x | x in old(rows) ::
                    Active(old(rows)[x], service, PreviewNames.RouteKey(sha, service, pr, "")))
    {
      if !PreviewNames.IsUuid(service) || pr <= 0 { return Err(InvalidInput); }
      var key := PreviewNames.RouteKey(sha, service, pr, "");
      var active := set x | x in rows && Active(rows[x], service, key);
      if active == {} {
        assert forall x | x in rows :: !Active(rows[x], service, key) by {
          forall x | x in rows ensures !Active(rows[x], service, key) { assert x !in active; }
        }
        return Ok(false);
      }
      var x := Latest(active);
      assert LatestActive(rows, service, key, x);
      NewJob(id, x, key, at);
      return Ok(true);
    }

    method ListExpiredPreviews(cutoff: int) returns (list: seq<string>)
      ensures IsExpiredList(rows, cutoff, list)
    {
      list := [];
      var left := set x | x in rows && Expired(rows[x], cutoff);
      while left != {}
        invariant forall x :: x in left || x in list <==> x in rows && Expired(rows[x], cutoff)
        invariant forall x, y | x in list && y in left :: x != y && rows[x].created <= rows[y].created
        invariant forall i, j | 0 <= i < j < |list| ::
                  list[i] != list[j] && rows[list[i]].created <= rows[list[j]].created
        decreases left
      {
        var x := Earliest(left);
        left := left - {x};
        assert forall i | 0 <= i < |list| :: list[i] in list;
        list := list + [x];
      }
    }

    /** ExpirePreviews: one job for every running preview older than ttl, oldest first. A job whose insertion
        fails is skipped; a ttl that is not positive disables the sweep. */
    method ExpirePreviews(ttl: int, ids: nat -> string, fails: set<string>, at: nat)
      returns (enqueued: nat, list: seq<string>)
      modifies this
      ensures rows == old(rows) && urls == old(urls)
      ensures if ttl <= 0 then list == [] else IsExpiredList(rows, at - ttl, list)
      ensures var swept := Except(list, fails); enqueued == |swept| && Now() == JobsFor(old(Now()), swept, ids, at)
    {
      if ttl <= 0 { return 0, []; }
      list := ListExpiredPreviews(at - ttl);
      enqueued := 0;
      for n := 0 to |list|
        invariant rows == old(rows) && urls == old(urls)
        invariant var swept := Except(list[..n], fails);
                  enqueued == |swept| && Now() == JobsFor(old(Now()), swept, ids, at)
      {
        assert list[n] in list;
        ghost var swept := Except(list[..n], fails);
        assert list[..n + 1][..n] == list[..n];
        if list[n] in fails { continue; }
        assert (swept + [list[n]])[..enqueued] == swept;
        NewJob(ids(enqueued), list[n], KeyOf(rows[list[n]]), at);
        enqueued := enqueued + 1;
      }
      assert list[..|list|] == list;
    }

    /** PollTeardownJob: the oldest queued job of the agent's server, with the key and the network to remove. */
    method PollTeardownJob(agent: string, credential: string)
      returns (r: Result<Option<(string, string, string)>, Problem>)
      modifies this
      ensures rows == old(rows) && urls == old(urls)
      ensures r.Ok? <==> ResolveAgent(agents, agent, credential).Ok?
      ensures r.Ok? && r.value.Some? ==>
                && OldestJob(old(jobs), ResolveAgent(agents, agent, credential).value, r.value.value.0)
                && Now() == SetJobStatus(old(Now()), r.value.value.0, JobAssigned, "", "")
                && r.value.value.1 == old(jobs)[r.value.value.0].routeKey
                && r.value.value.2 == PreviewNames.PreviewNetwork(r.value.value.1)
      ensures r.Err? || r.value.None? ==> Now() == old(Now())
      ensures r.Ok? && r.value.None? ==>
                forall x | x in old(jobs) && old(jobs)[x].server == ResolveAgent(agents, agent, credential).value ::
                  old(jobs)[x].status != JobQueued
    {
      var server := ResolveAgent(agents, agent, credential);
      if server.Err? { return Err(server.error); }
      var queued := set x | x in jobs && jobs[x].server == server.value && jobs[x].status == JobQueued;
      if queued == {} {
        assert forall x | x in jobs && jobs[x].server == server.value :: jobs[x].status != JobQueued by {
          forall x | x in jobs && jobs[x].server == server.value ensures jobs[x].status != JobQueued {
            assert x !in queued;
          }
        }
        return Ok(None);
      }
      var id := EarliestJob(queued);
      jobs := jobs[id := jobs[id].(status := JobAssigned)];
      return Ok(Some((id, jobs[id].routeKey, PreviewNames.PreviewNetwork(jobs[id].routeKey))));
    }

    method EarliestJob(ids: set<string>) returns (id: string)
      requires ids != {} && ids <= jobs.Keys
      ensures id in ids && forall x | x in ids :: jobs[id].created <= jobs[x].created
    {
      var left := ids;
      id :| id in ids;
      while left != {}
        invariant left <= ids && id in ids
        invariant forall x | x in ids - left :: jobs[id].created <= jobs[x].created
        decreases left
      {
        var x :| x in left;
        if jobs[x].created < jobs[id].created { id := x; }
        left := left - {x};
      }
    }

    /** ReportTeardownJob. */
    method ReportTeardownJob(agent: string, credential: string, id: string, status: JobStatus, message: string,
            error: string)
      returns (r: Result<(), Problem>)
      modifies this
      ensures r.Ok? ==>
                && ResolveAgent(agents, agent, credential).Ok?
                && JobReported(old(Now()), ResolveAgent(agents, agent, credential).value, id, status, message, error) ==
                  Ok(Now())
      ensures r.Err? ==> Now() == old(Now())
      ensures r.Err? ==>
                if credential == "" || !PreviewNames.IsUuid(id) || !JobReportable(status) then r.error == InvalidInput
                else if ResolveAgent(agents, agent, credential).Err? then r.error == PermissionDenied
                else
                  JobReported(old(Now()), ResolveAgent(agents, agent, credential).value, id, status, message, error) ==
                  Err(r.error)
    {
      if credential == "" || !PreviewNames.IsUuid(id) || !JobReportable(status) { return Err(InvalidInput); }
      var server := ResolveAgent(agents, agent, credential);
      if server.Err? { return Err(server.error); }
      if id !in jobs { return Err(NotFound); }
      var job := jobs[id];
      if job.server != server.value { return Err(PermissionDenied); }
      jobs := jobs[id :=
        job.(status := status, message := Keep(message, job.message), error := Keep(error, job.error))];
      if status == Succeeded { rows := MarkPreviewTornDown(rows, job.routeKey, job.server); }
      return Ok(());
    }
  }

  /** A production deploy names a service and a server, and a port or none. */
  predicate ProductionAsked(service: string, server: string, port: int) {
    PreviewNames.IsUuid(service) && PreviewNames.IsUuid(server) && 0 <= port <= MAX_PORT
  }

  /** What the rows say of the routes an agent may report. */
  function Known(rows: map<string, Row>, verified: map<string, seq<string>>): RouteSync.Directory {
    RouteSync.Directory(map x | x in rows :: (rows[x].server, rows[x].service), verified)
  }

  /** The route is of a deployment of its service on the server, as the rows have it. */
  predicate Owned(rows: map<string, Row>, server: string, r: Routes.Route) {
    && PreviewNames.IsUuid(r.service) && PreviewNames.IsUuid(r.deployment) && 0 < r.port
    && r.deployment in rows && rows[r.deployment].server == server && rows[r.deployment].service == r.service
  }

  /** One override, with the verified domains if there are any, for every service that such a route is of. */
  ghost predicate Answers(rows: map<string, Row>, verified: map<string, seq<string>>, server: string,
          routes: seq<Routes.Route>, out: seq<RouteSync.Override>) {
    && (forall i, j | 0 <= i < j < |out| :: out[i].service != out[j].service)
    && forall o :: o in out <==>
         && (exists r | r in routes :: r.service == o.service && Owned(rows, server, r))
         && o.service in verified && o.hostnames == verified[o.service] && o.hostnames != []
  }

  lemma AnswerExactly(rows: map<string, Row>, verified: map<string, seq<string>>, server: string,
          routes: seq<Routes.Route>, out: seq<RouteSync.Override>)
    ensures RouteSync.IsAnswer(Known(rows, verified), server, routes, out) <==>
              Answers(rows, verified, server, routes, out)
  {
    var dir := Known(rows, verified);
    assert forall r :: RouteSync.Vouched(dir, server, r) <==> Owned(rows, server, r);
    assert forall s :: RouteSync.Named(dir, s) <==> s in verified && verified[s] != [];
  }

  /** What becomes of a claimed row, and what the agent is told. */
  function Handover(sha: string -> string, services: map<string, Service>, config: seq<ConfigEnv.Entry>,
          token: TokenReply, d: Data, id: string): (Result<Claim, Problem>, Data)
    requires id in d.rows && forall s :: |sha(s)| == 64
  {
    var row, claimed := d.rows[id], SetStatus(d, id, Assigned);
    var env := ConfigEnv.Env(config, row.kind != Preview);
    if env.None? || row.service !in services then (Err(Internal), claimed)
    else if row.source.Git? && services[row.service].access == "app" && token != Minted then
      (Ok(NoWork), GivenUp(claimed, id, TokenProblem(token)))
    else (Ok(Work(id, WorkFor(sha, services[row.service], id, row), env.value)), claimed)
  }

  function TokenProblem(token: TokenReply): string {
    if token == MintFailed then "could not obtain a token to clone this private repo"
    else "this service builds a private repo but its integration is no longer connected"
  }

  /** A claimed row that could not be handed out. */
  function GivenUp(d: Data, id: string, message: string): Data
    requires id in d.rows
  {
    d.(rows := d.rows[id := Updated(d.rows[id], Update(Status.Failed, message, 0, "", "", "", ""))])
  }

  /** server is that of a latest row of the service. */
  predicate LatestServer(rows: map<string, Row>, service: string, server: string) {
    exists x | x in rows :: rows[x].service == service && rows[x].server == server
      && forall y | y in rows && rows[y].service == service :: rows[y].created <= rows[x].created
  }
}
