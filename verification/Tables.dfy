/** The control plane's tables of deployments and teardown jobs, and the statements that write them. */
module Tables {

  datatype Kind = Production | Preview

  datatype Status =
    | Queued | Assigned | Cloning | Building | Pulling | Starting | Healthcheck | Routing | Running | Failed
    | Superseded | TornDown

  datatype Source = Image(image: string) | Git(ref: string)

  datatype Row = Row(
    service: string, routeKey: string, kind: Kind, server: string, environment: string,
    source: Source, port: int, pr: int, authUser: string, authHash: string, created: nat,
    status: Status, message: string, hostPort: int, container: string, commit: string, builtImage: string, url: string)

  datatype JobStatus = JobQueued | JobAssigned | Stopping | Removing | Succeeded | JobFailed

  datatype Job = Job(
    deployment: string, service: string, routeKey: string, server: string, created: nat,
    status: JobStatus, message: string, error: string)

  /** urls caches the current address of each service; now is no earlier than any row. */
  datatype Data = Data(rows: map<string, Row>, jobs: map<string, Job>, urls: map<string, string>, now: nat)

  /** Older rows have no routing key and use the service id. */
  function KeyOf(row: Row): string { if row.routeKey == "" then row.service else row.routeKey }

  function Fresh(service: string, key: string, kind: Kind, server: string, environment: string, source: Source,
          port: int, pr: int, authUser: string, authHash: string, at: nat): Row {
    Row(service, key, kind, server, environment, source, port, pr, authUser, authHash, at, Queued, "", 0, "", "", "",
      "")
  }

  function InsertRow(d: Data, id: string, row: Row): Data { d.(rows := d.rows[id := row], now := row.created) }

  /** The first queued row of a server, which the claim takes. */
  predicate Oldest(rows: map<string, Row>, server: string, id: string) {
    && id in rows && rows[id].server == server && rows[id].status == Queued
    && forall x | x in rows && rows[x].server == server && rows[x].status == Queued ::
      rows[id].created <= rows[x].created
  }

  predicate NoneQueued(rows: map<string, Row>, server: string) {
    forall x | x in rows && rows[x].server == server :: rows[x].status != Queued
  }

  function SetStatus(d: Data, id: string, status: Status): Data
    requires id in d.rows
  {
    d.(rows := d.rows[id := d.rows[id].(status := status)])
  }

  datatype Update = Update(
    status: Status, message: string, hostPort: int, container: string, commit: string, builtImage: string, url: string)

  function Keep(given: string, held: string): string { if given != "" then given else held }

  /** A zero or empty value never clobbers a set one. */
  function Updated(row: Row, u: Update): Row {
    row.(status := u.status,
         message := Keep(u.message, row.message),
         hostPort := if u.hostPort > 0 then u.hostPort else row.hostPort,
         container := Keep(u.container, row.container),
         commit := Keep(u.commit, row.commit),
         builtImage := Keep(u.builtImage, row.builtImage),
         url := Keep(u.url, row.url))
  }

  function SupersedePreviousRunning(rows: map<string, Row>, key: string, server: string, id: string): map<string, Row> {
    map x | x in rows ::
      if rows[x].routeKey == key && rows[x].server == server && rows[x].status == Running && x != id
      then rows[x].(status := Superseded) else rows[x]
  }

  predicate Retirable(status: Status) { status != Failed && status != Superseded && status != TornDown }

  function MarkPreviewTornDown(rows: map<string, Row>, key: string, server: string): map<string, Row> {
    map x | x in rows ::
      if rows[x].routeKey == key && rows[x].server == server && Retirable(rows[x].status)
      then rows[x].(status := TornDown) else rows[x]
  }

  function InsertJob(d: Data, id: string, deployment: string, row: Row, key: string, at: nat): Data {
    d.(jobs := d.jobs[id := Job(deployment, row.service, key, row.server, at, JobQueued, "", "")], now := at)
  }

  predicate OldestJob(jobs: map<string, Job>, server: string, id: string) {
    && id in jobs && jobs[id].server == server && jobs[id].status == JobQueued
    && forall x | x in jobs && jobs[x].server == server && jobs[x].status == JobQueued ::
      jobs[id].created <= jobs[x].created
  }

  function SetJobStatus(d: Data, id: string, status: JobStatus, message: string, error: string): Data
    requires id in d.jobs
  {
    var job := d.jobs[id];
    d.(jobs := d.jobs[id :=
      job.(status := status, message := Keep(message, job.message), error := Keep(error, job.error))])
  }

  /** The latest preview row of a key that is not torn down. */
  predicate Active(row: Row, service: string, key: string) {
    row.service == service && row.routeKey == key && row.kind == Preview && row.status != TornDown
  }

  predicate LatestActive(rows: map<string, Row>, service: string, key: string, id: string) {
    && id in rows && Active(rows[id], service, key)
    && forall x | x in rows && Active(rows[x], service, key) :: rows[x].created <= rows[id].created
  }

  predicate Expired(row: Row, cutoff: int) { row.kind == Preview && row.status == Running && row.created < cutoff }

  // ---- What a report leaves, field by field ----

  function Given(given: string, held: string): string { if given == "" then held else given }

  /** b is a after a report: a value that was given replaces the one that was held, the status always does. */
  predicate Reworded(a: Row, b: Row, u: Update) {
    && b.status == u.status
    && b.message == Given(u.message, a.message)
    && b.hostPort == (if u.hostPort <= 0 then a.hostPort else u.hostPort)
    && b.container == Given(u.container, a.container)
    && b.commit == Given(u.commit, a.commit)
    && b.builtImage == Given(u.builtImage, a.builtImage)
    && b.url == Given(u.url, a.url)
    && SameOrder(a, b)
  }

  /** What was ordered is the same. */
  predicate SameOrder(a: Row, b: Row) {
    && b.service == a.service && b.routeKey == a.routeKey && b.kind == a.kind && b.server == a.server
    && b.environment == a.environment && b.source == a.source && b.port == a.port && b.pr == a.pr
    && b.authUser == a.authUser && b.authHash == a.authHash && b.created == a.created
  }

  predicate SameKey(a: Row, b: Row) {
    b.routeKey == (if a.routeKey == "" then a.service else a.routeKey) && b.server == a.server
  }

  /** The rows after a report on id: that row is reworded, and when it runs on a port the other running rows of its
      key on its server are superseded. */
  predicate RowsRecorded(before: map<string, Row>, after: map<string, Row>, id: string, u: Update) {
    && id in before && after.Keys == before.Keys && Reworded(before[id], after[id], u)
    && forall x | x in before && x != id ::
      after[x] ==
        if u.status == Running && u.hostPort > 0 && SameKey(before[id], before[x]) && before[x].status == Running
        then before[x].(status := Superseded) else before[x]
  }

  /** The cached addresses after it: production's is the one reported, if any was. */
  predicate UrlsRecorded(before: map<string, string>, after: map<string, string>, row: Row, u: Update) {
    after == if u.url == "" || row.kind == Preview then before else before[row.service := u.url]
  }
}
