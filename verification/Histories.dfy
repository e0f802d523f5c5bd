/** What holds over every run of the control plane: requests in any order, from any users and agents. */
module Histories {
  import opened Text
  import ConfigEnv
  import Images
  import PreviewNames
  import opened Tables
  import opened ControlPlane

  // ---- Keys ----

  /** A preview's key starts with its service's id and a dash. */
  predicate KeyShaped(service: string, key: string) { 38 <= |key| && key[..37] == service + "-" }

  predicate RowOk(row: Row) {
    && |row.service| == 36
    && (if row.kind == Production then row.routeKey == row.service else KeyShaped(row.service, row.routeKey))
  }

  predicate JobOk(job: Job) { |job.service| == 36 && KeyShaped(job.service, job.routeKey) }

  /** Every row's key is its service's id or a preview key of it, and jobs are for preview keys. */
  predicate WellKept(d: Data) {
    && (forall x | x in d.rows :: RowOk(d.rows[x]) && d.rows[x].created <= d.now)
    && (forall x | x in d.jobs :: JobOk(d.jobs[x]))
  }

  lemma ProductionRowOk(id: string, svc: Service, server: string, port: int, ref: string, at: nat)
    requires PreviewNames.IsUuid(id) && ProductionRow(id, svc, server, port, ref, at).Ok?
    ensures var row := ProductionRow(id, svc, server, port, ref, at).value;
            RowOk(row) && row.kind == Production && row.status == Queued && row.created == at
  {
  }

  lemma PreviewRowOk(sha: string -> string, svc: Service, o: PreviewOrder, head: Result<string, Problem>, at: nat)
    requires PreviewNames.IsHexDigest(sha) && PreviewNames.IsUuid(o.service) && o.pr <= PreviewNames.MAX_INT32
    requires PreviewRow(sha, svc, o, head, at).Ok?
    ensures var row := PreviewRow(sha, svc, o, head, at).value;
            RowOk(row) && row.kind == Preview && row.status == Queued && row.created == at
  {
    PreviewNames.KeyShape(sha, o.service, o.pr, if o.pr > 0 then head.value else o.branch);
  }

  /** Rolling back a preview inserts a production row: it will replace production, not the preview. */
  lemma RollbackIsProduction(target: Row, at: nat)
    requires RowOk(target) && RollbackRow(target, at).Ok?
    ensures var row := RollbackRow(target, at).value;
            && RowOk(row) && row.kind == Production && row.status == Queued && row.created == at
            && row.routeKey == target.service && (target.kind == Preview ==> row.routeKey != target.routeKey)
  {
  }

  /** A production row is refused as the target of a rollback exactly when the default tag made its image
      reference too long: it was deployed and cannot be restored. */
  lemma RollbackRefusedExactly(id: string, svc: Service, server: string, port: int, ref: string, at: nat, later: nat)
    requires ProductionRow(id, svc, server, port, ref, at).Ok?
    ensures var row := ProductionRow(id, svc, server, port, ref, at).value;
            RollbackRow(row, later).Err? <==> row.source.Image? && Utf8Length(row.source.image) > Images.MAX_BYTES
  {
    if !svc.git { Images.StoredAcceptedExactly(svc.image, Images.Validate(svc.image).value); }
  }

  // ---- Runs ----

  /** One change to the tables. Inserts stand for every way a row or a job comes about. */
  datatype Event =
    | NewRow(id: string, row: Row)
    | Claimed(server: string, id: string)
    | Abandoned(id: string, message: string)
    | RowReport(server: string, report: Report)
    | NewTeardown(id: string, deployment: string, at: nat)
    | JobClaimed(server: string, id: string)
    | JobReport(server: string, id: string, status: JobStatus, message: string, error: string)

  predicate Enabled(d: Data, e: Event) {
    match e
    case NewRow(id, row) => id !in d.rows && RowOk(row) && row.status == Queued && d.now <= row.created
    case Claimed(server, id) => Oldest(d.rows, server, id)
    case Abandoned(id, _) => id in d.rows && d.rows[id].status == Assigned
    case RowReport(_, _) => true
    case NewTeardown(_, x, at) => x in d.rows && d.rows[x].kind == Preview && d.now <= at
    case JobClaimed(server, id) => OldestJob(d.jobs, server, id)
    case JobReport(_, _, _, _, _) => true
  }

  function Next(d: Data, e: Event): Data
    requires Enabled(d, e)
  {
    match e
    case NewRow(id, row) => InsertRow(d, id, row)
    case Claimed(_, id) => SetStatus(d, id, Assigned)
    case Abandoned(id, message) => GivenUp(d, id, message)
    case RowReport(server, report) => (match Reported(d, server, report) case Ok(d') => d' case Err(_) => d)
    case NewTeardown(id, x, at) => InsertJob(d, id, x, d.rows[x], KeyOf(d.rows[x]), at)
    case JobClaimed(_, id) => SetJobStatus(d, id, JobAssigned, "", "")
    case JobReport(server, id, status, message, error) =>
      (match JobReported(d, server, id, status, message, error) case Ok(d') => d' case Err(_) => d)
  }

  /** The events happen one after the other, from d to d'. */
  predicate Run(d: Data, es: seq<Event>, d': Data)
    decreases es
  {
    if es == [] then d == d'
    else Enabled(d, es[0]) && Run(Next(d, es[0]), es[1..], d')
  }

  /** A poll is a claim, followed by giving the row up when its token cannot be had. */
  lemma PollIsARun(d: Data, server: string, id: string, message: string)
    requires Oldest(d.rows, server, id)
    ensures Run(d, [Claimed(server, id)], SetStatus(d, id, Assigned))
    ensures Run(d, [Claimed(server, id), Abandoned(id, message)], GivenUp(SetStatus(d, id, Assigned), id, message))
  {
    var d1 := SetStatus(d, id, Assigned);
    assert Enabled(d1, Abandoned(id, message));
    assert [Claimed(server, id), Abandoned(id, message)][1..] == [Abandoned(id, message)];
    assert [Abandoned(id, message)][1..] == [] && [Claimed(server, id)][1..] == [];
  }

  /** The jobs of an expiry sweep. */
  function SweepEvents(rows: seq<string>, ids: nat -> string, at: nat): seq<Event> {
    if rows == [] then []
    else SweepEvents(rows[..|rows| - 1], ids, at) + [NewTeardown(ids(|rows| - 1), rows[|rows| - 1], at)]
  }

  lemma {:induction false} RunAppend(d: Data, es: seq<Event>, d': Data, e: Event)
    requires Run(d, es, d') && Enabled(d', e)
    ensures Run(d, es + [e], Next(d', e))
    decreases es
  {
    if es == [] {
      assert [e][1..] == [] && es + [e] == [e];
    } else {
      RunAppend(Next(d, es[0]), es[1..], d', e);
      assert (es + [e])[1..] == es[1..] + [e] && (es + [e])[0] == es[0];
    }
  }

  lemma {:induction false} RunConcat(d: Data, es: seq<Event>, mid: Data, rest: seq<Event>, d': Data)
    requires Run(d, es, mid) && Run(mid, rest, d')
    ensures Run(d, es + rest, d')
    decreases es
  {
    if es == [] {
      assert es + rest == rest;
    } else {
      RunConcat(Next(d, es[0]), es[1..], mid, rest, d');
      assert (es + rest)[1..] == es[1..] + rest && (es + rest)[0] == es[0];
    }
  }

  lemma RunOfThree(d: Data, a: Event, b: Event, c: Event)
    requires Enabled(d, a) && Enabled(Next(d, a), b) && Enabled(Next(Next(d, a), b), c)
    ensures Run(d, [a, b, c], Next(Next(Next(d, a), b), c))
  {
    RunAppend(d, [], d, a);
    RunAppend(d, [] + [a], Next(d, a), b);
    RunAppend(d, [] + [a] + [b], Next(Next(d, a), b), c);
    assert [] + [a] + [b] + [c] == [a, b, c];
  }

  /** An expiry sweep is a run that enqueues a teardown for each row in turn. */
  lemma {:induction false} SweepIsARun(d: Data, rows: seq<string>, ids: nat -> string, at: nat)
    requires forall x | x in rows :: x in d.rows && d.rows[x].kind == Preview
    requires d.now <= at
    ensures Run(d, SweepEvents(rows, ids, at), JobsFor(d, rows, ids, at))
    ensures JobsFor(d, rows, ids, at).rows == d.rows && JobsFor(d, rows, ids, at).now <= at
  {
    if rows != [] {
      var n := |rows| - 1;
      SweepIsARun(d, rows[..n], ids, at);
      RunAppend(d, SweepEvents(rows[..n], ids, at), JobsFor(d, rows[..n], ids, at), NewTeardown(ids(n), rows[n], at));
    }
  }

  /** Rows of the same tables with other statuses and reported values are as well kept. */
  predicate SameOwners(before: map<string, Row>, after: map<string, Row>) {
    after.Keys == before.Keys && forall x | x in after :: SameOwner(before[x], after[x])
  }

  predicate SameOwner(a: Row, b: Row) {
    a.service == b.service && a.routeKey == b.routeKey && a.kind == b.kind && a.created == b.created
  }

  lemma SameOwnersKept(d: Data, d': Data)
    requires WellKept(d) && SameOwners(d.rows, d'.rows) && d'.jobs == d.jobs && d'.now == d.now
    ensures WellKept(d')
  {
  }

  lemma ReportKeepsOwners(d: Data, server: string, id: string, u: Update)
    requires id in d.rows
    ensures SameOwners(d.rows, AfterReport(d, server, id, u).rows)
  {
    var rows := d.rows[id := Updated(d.rows[id], u)];
    assert SameOwners(d.rows, rows);
    assert SameOwners(d.rows, SupersedePreviousRunning(rows, KeyOf(d.rows[id]), server, id));
  }

  lemma RowEventKeepsKeys(d: Data, e: Event)
    requires WellKept(d) && Enabled(d, e) && (e.Claimed? || e.Abandoned? || e.RowReport?)
    ensures WellKept(Next(d, e)) && Next(d, e).now == d.now
  {
    if e.RowReport? && Reported(d, e.server, e.report).Ok? {
      ReportKeepsOwners(d, e.server, e.report.deployment, e.report.update);
    }
    SameOwnersKept(d, Next(d, e));
  }

  lemma JobStatusKeepsKeys(d: Data, id: string, status: JobStatus, message: string, error: string)
    requires WellKept(d) && id in d.jobs
    ensures WellKept(SetJobStatus(d, id, status, message, error))
  {
  }

  lemma JobReportKeepsKeys(d: Data, e: Event)
    requires WellKept(d) && Enabled(d, e) && e.JobReport?
    ensures WellKept(Next(d, e)) && Next(d, e).now == d.now
  {
    if JobReported(d, e.server, e.id, e.status, e.message, e.error).Ok? {
      var d1 := SetJobStatus(d, e.id, e.status, e.message, e.error);
      JobStatusKeepsKeys(d, e.id, e.status, e.message, e.error);
      assert SameOwners(d1.rows, MarkPreviewTornDown(d1.rows, d.jobs[e.id].routeKey, e.server));
      SameOwnersKept(d1, Next(d, e));
    }
  }

  lemma InsertKeepsKeys(d: Data, e: Event)
    requires WellKept(d) && Enabled(d, e) && (e.NewRow? || e.NewTeardown?)
    ensures WellKept(Next(d, e)) && d.now <= Next(d, e).now
  {
  }

  lemma StepKeepsKeys(d: Data, e: Event)
    requires WellKept(d) && Enabled(d, e)
    ensures WellKept(Next(d, e))
    ensures d.now <= Next(d, e).now
  {
    match e
    case NewRow(_, _) => InsertKeepsKeys(d, e);
    case NewTeardown(_, _, _) => InsertKeepsKeys(d, e);
    case JobClaimed(_, id) => JobStatusKeepsKeys(d, id, JobAssigned, "", "");
    case JobReport(_, _, _, _, _) => JobReportKeepsKeys(d, e);
    case _ => RowEventKeepsKeys(d, e);
  }

  lemma {:induction false} RunKeepsKeys(d: Data, es: seq<Event>, d': Data)
    requires WellKept(d) && Run(d, es, d')
    ensures WellKept(d')
    decreases es
  {
    if es != [] {
      StepKeepsKeys(d, es[0]);
      RunKeepsKeys(Next(d, es[0]), es[1..], d');
    }
  }

  // ---- Isolation ----

  /** The one routing key an event may write rows of. */
  function Touched(d: Data, e: Event): Option<string> {
    match e
    case NewRow(_, row) => Some(row.routeKey)
    case Claimed(_, id) => if id in d.rows then Some(d.rows[id].routeKey) else None
    case Abandoned(id, _) => if id in d.rows then Some(d.rows[id].routeKey) else None
    case RowReport(_, r) => if r.deployment in d.rows then Some(d.rows[r.deployment].routeKey) else None
    case NewTeardown(_, _, _) => None
    case JobClaimed(_, _) => None
    case JobReport(_, id, _, _, _) => if id in d.jobs then Some(d.jobs[id].routeKey) else None
  }

  /** Events of a preview: its creation, claim and reports, and every event about teardown jobs. */
  predicate OfPreview(d: Data, e: Event) {
    match e
    case NewRow(_, row) => row.kind == Preview
    case Claimed(_, id) => id in d.rows && d.rows[id].kind == Preview
    case Abandoned(id, _) => id in d.rows && d.rows[id].kind == Preview
    case RowReport(_, r) => r.deployment in d.rows ==> d.rows[r.deployment].kind == Preview
    case NewTeardown(_, _, _) => true
    case JobClaimed(_, _) => true
    case JobReport(_, _, _, _, _) => true
  }

  /** An event changes rows of one routing key only. */
  lemma TouchesOneKey(d: Data, e: Event, x: string)
    requires WellKept(d) && Enabled(d, e) && x in d.rows && Some(d.rows[x].routeKey) != Touched(d, e)
    ensures x in Next(d, e).rows && Next(d, e).rows[x] == d.rows[x]
  {
  }

  /** A preview's key is no production row's key. */
  lemma PreviewTouches(d: Data, e: Event, x: string)
    requires WellKept(d) && Enabled(d, e) && OfPreview(d, e) && x in d.rows && d.rows[x].kind == Production
    ensures Some(d.rows[x].routeKey) != Touched(d, e)
    ensures Next(d, e).urls == d.urls
  {
  }

  predicate AllOfPreviews(d: Data, es: seq<Event>, d': Data)
    requires Run(d, es, d')
    decreases es
  {
    es == [] || (OfPreview(d, es[0]) && AllOfPreviews(Next(d, es[0]), es[1..], d'))
  }

  /** Over any run of preview events, no production row changes and no service's cached address does. */
  lemma {:induction false} PreviewsLeaveProduction(d: Data, es: seq<Event>, d': Data, x: string)
    requires WellKept(d) && Run(d, es, d') && AllOfPreviews(d, es, d')
    ensures x in d.rows && d.rows[x].kind == Production ==> x in d'.rows && d'.rows[x] == d.rows[x]
    ensures d'.urls == d.urls
    decreases es
  {
    if es != [] {
      var next := Next(d, es[0]);
      StepKeepsKeys(d, es[0]);
      UrlsKept(d, es[0]);
      if x in d.rows && d.rows[x].kind == Production {
        PreviewTouches(d, es[0], x);
        TouchesOneKey(d, es[0], x);
      }
      PreviewsLeaveProduction(next, es[1..], d', x);
    }
  }

  lemma UrlsKept(d: Data, e: Event)
    requires Enabled(d, e) && OfPreview(d, e)
    ensures Next(d, e).urls == d.urls
  {
  }

  predicate NeverTouches(d: Data, es: seq<Event>, d': Data, key: string)
    requires Run(d, es, d')
    decreases es
  {
    es == [] || (Touched(d, es[0]) != Some(key) && NeverTouches(Next(d, es[0]), es[1..], d', key))
  }

  /** Over any run that never touches a key, production's or a preview's, its rows stay as they are. */
  lemma {:induction false} OtherKeysLeft(d: Data, es: seq<Event>, d': Data, x: string)
    requires WellKept(d) && Run(d, es, d') && x in d.rows && NeverTouches(d, es, d', d.rows[x].routeKey)
    ensures x in d'.rows && d'.rows[x] == d.rows[x]
    decreases es
  {
    if es != [] {
      StepKeepsKeys(d, es[0]);
      TouchesOneKey(d, es[0], x);
      OtherKeysLeft(Next(d, es[0]), es[1..], d', x);
    }
  }

  // ---- At most one running row ----

  predicate Rival(rows: map<string, Row>, x: string, y: string) {
    x in rows && y in rows && x != y && rows[x].routeKey == rows[y].routeKey && rows[x].server == rows[y].server
  }

  /** At most one row of a key runs on a server. */
  ghost predicate OneRunning(rows: map<string, Row>) {
    forall x, y | Rival(rows, x, y) :: !(rows[x].status == Running && rows[y].status == Running)
  }

  /** The report makes a row run without a port, while another row of its key runs. */
  predicate Doubles(d: Data, r: Report) {
    && r.update.status == Running && r.update.hostPort <= 0
    && r.deployment in d.rows && d.rows[r.deployment].status != Running
    && exists y | y in d.rows :: Rival(d.rows, r.deployment, y) && d.rows[y].status == Running
  }

  lemma DoublingReport(d: Data, server: string, r: Report)
    requires WellKept(d) && Reported(d, server, r).Ok? && Doubles(d, r)
    ensures !OneRunning(Reported(d, server, r).value.rows)
  {
    var rows, id := Reported(d, server, r).value.rows, r.deployment;
    var y :| y in d.rows && Rival(d.rows, id, y) && d.rows[y].status == Running;
    assert Rival(rows, id, y);
  }

  lemma OtherReport(d: Data, server: string, r: Report)
    requires WellKept(d) && OneRunning(d.rows) && Reported(d, server, r).Ok? && !Doubles(d, r)
    ensures OneRunning(Reported(d, server, r).value.rows)
  {
    var rows, id := Reported(d, server, r).value.rows, r.deployment;
    assert KeyOf(d.rows[id]) == d.rows[id].routeKey;
    forall x, y | Rival(rows, x, y) ensures !(rows[x].status == Running && rows[y].status == Running) {
      assert Rival(d.rows, x, y) && Rival(d.rows, y, x);
    }
  }

  /** An accepted report keeps at most one running row per key and server exactly when it is not a
      portless "running" for a row that is not running while another one is. A private service reports no
      port, so redeploying it leaves two running rows. */
  lemma ReportKeepsOneRunningExactly(d: Data, server: string, r: Report)
    requires WellKept(d) && OneRunning(d.rows) && Reported(d, server, r).Ok?
    ensures OneRunning(Reported(d, server, r).value.rows) <==> !Doubles(d, r)
  {
    if Doubles(d, r) { DoublingReport(d, server, r); } else { OtherReport(d, server, r); }
  }

  predicate Tame(d: Data, e: Event) { e.RowReport? && Reported(d, e.server, e.report).Ok? ==> !Doubles(d, e.report) }

  lemma StepKeepsOneRunning(d: Data, e: Event)
    requires WellKept(d) && OneRunning(d.rows) && Enabled(d, e) && Tame(d, e)
    ensures OneRunning(Next(d, e).rows)
  {
    if e.RowReport? && Reported(d, e.server, e.report).Ok? {
      ReportKeepsOneRunningExactly(d, e.server, e.report);
    } else {
      var rows := Next(d, e).rows;
      forall x, y | Rival(rows, x, y) ensures !(rows[x].status == Running && rows[y].status == Running) {
        if rows[x].status == Running && rows[y].status == Running {
          NoNewRunning(d, e, x);
          NoNewRunning(d, e, y);
          assert Rival(d.rows, x, y);
        }
      }
    }
  }

  /** Only a report makes a row run. */
  lemma NoNewRunning(d: Data, e: Event, x: string)
    requires Enabled(d, e) && !(e.RowReport? && Reported(d, e.server, e.report).Ok?)
    requires x in Next(d, e).rows && Next(d, e).rows[x].status == Running
    ensures x in d.rows && d.rows[x] == Next(d, e).rows[x]
  {
  }

  predicate AllTame(d: Data, es: seq<Event>, d': Data)
    requires Run(d, es, d')
    decreases es
  {
    es == [] || (Tame(d, es[0]) && AllTame(Next(d, es[0]), es[1..], d'))
  }

  lemma {:induction false} RunKeepsOneRunning(d: Data, es: seq<Event>, d': Data)
    requires WellKept(d) && OneRunning(d.rows) && Run(d, es, d') && AllTame(d, es, d')
    ensures OneRunning(d'.rows)
    decreases es
  {
    if es != [] {
      StepKeepsKeys(d, es[0]);
      StepKeepsOneRunning(d, es[0]);
      RunKeepsOneRunning(Next(d, es[0]), es[1..], d');
    }
  }

  // ---- How two rows come to run ----

  const EMPTY := Data(map[], map[], map[], 0)

  /** A row is inserted, claimed by its server and reported on. */
  function Lived(id: string, row: Row, u: Update): seq<Event> {
    [NewRow(id, row), Claimed(row.server, id), RowReport(row.server, Report(id, u))]
  }

  function AfterLived(d: Data, id: string, row: Row, u: Update): Data {
    AfterReport(SetStatus(InsertRow(d, id, row), id, Assigned), row.server, id, u)
  }

  lemma LivedIsARun(d: Data, id: string, row: Row, u: Update)
    requires PreviewNames.IsUuid(id) && id !in d.rows && RowOk(row) && row.status == Queued && d.now <= row.created
    requires NoneQueued(d.rows, row.server) && Reportable(u.status)
    ensures Run(d, Lived(id, row, u), AfterLived(d, id, row, u))
  {
    var d1 := InsertRow(d, id, row);
    assert Oldest(d1.rows, row.server, id);
    var d2 := SetStatus(d1, id, Assigned);
    assert Next(d1, Claimed(row.server, id)) == d2;
    assert d2.rows[id].server == row.server;
    RunOfThree(d, NewRow(id, row), Claimed(row.server, id), RowReport(row.server, Report(id, u)));
  }

  lemma LivedRows(d: Data, id: string, row: Row, u: Update)
    requires row.routeKey != "" && row.status == Queued
    ensures var d' := AfterLived(d, id, row, u);
            && d'.jobs == d.jobs && d'.now == row.created && d'.rows.Keys == d.rows.Keys + {id}
            && d'.rows[id] == Updated(row.(status := Assigned), u)
            && forall x | x in d.rows && x != id && d.rows[x].status != Running :: d'.rows[x] == d.rows[x]
  {
  }

  /** A private service deployed twice: its container publishes no port, so neither report has one, and both
      rows end up running. */
  lemma PrivateRedeployDoubles(a: string, b: string, service: string, svc: Service, server: string, at: nat)
    returns (es: seq<Event>, d: Data)
    requires PreviewNames.IsUuid(a) && PreviewNames.IsUuid(b) && a != b && PreviewNames.IsUuid(service)
    requires !svc.public && ProductionRow(service, svc, server, 0, "", at).Ok?
    ensures Run(EMPTY, es, d) && WellKept(EMPTY) && OneRunning(EMPTY.rows)
    ensures a in d.rows && b in d.rows && d.rows[a].status == Running && d.rows[b].status == Running
    ensures !OneRunning(d.rows)
  {
    var row, up := ProductionRow(service, svc, server, 0, "", at).value, Update(Running, "", 0, "c", "", "", "");
    var mid := AfterLived(EMPTY, a, row, up);
    d := AfterLived(mid, b, row, up);
    LivedIsARun(EMPTY, a, row, up);
    LivedRows(EMPTY, a, row, up);
    LivedIsARun(mid, b, row, up);
    es := Lived(a, row, up) + Lived(b, row, up);
    RunConcat(EMPTY, Lived(a, row, up), mid, Lived(b, row, up), d);
    assert Rival(d.rows, a, b);
  }

  // ---- Handing out ----

  /** The rows claimed in a run, in order. */
  function Handed(es: seq<Event>): seq<string> {
    if es == [] then [] else (if es[0].Claimed? then [es[0].id] else []) + Handed(es[1..])
  }

  /** Nothing goes back to the queue, and a row keeps its server and its time. */
  lemma NeverRequeued(d: Data, e: Event, x: string)
    requires Enabled(d, e) && x in d.rows
    ensures x in Next(d, e).rows && Next(d, e).rows[x].server == d.rows[x].server
              && Next(d, e).rows[x].created == d.rows[x].created
    ensures d.rows[x].status != Queued ==> Next(d, e).rows[x].status != Queued
  {
  }

  /** A row that has left the queue is not handed out again. */
  lemma {:induction false} HandedOnce(d: Data, es: seq<Event>, d': Data, x: string)
    requires Run(d, es, d') && x in d.rows && d.rows[x].status != Queued
    ensures x !in Handed(es)
    ensures x in d'.rows && d'.rows[x].status != Queued
    decreases es
  {
    if es != [] {
      NeverRequeued(d, es[0], x);
      HandedOnce(Next(d, es[0]), es[1..], d', x);
    }
  }

  /** A claimed row of a service that exists is withheld from the agent with an error exactly when it is a
      production row and one of the service's secrets cannot be opened. It is never handed out again; a
      preview's row never ends up so. */
  lemma StuckForGood(sha: string -> string, services: map<string, Service>, config: seq<ConfigEnv.Entry>,
          token: TokenReply, d: Data, id: string, es: seq<Event>, d': Data)
    requires PreviewNames.IsHexDigest(sha) && id in d.rows && d.rows[id].service in services
    ensures var claimed := SetStatus(d, id, Assigned);
            Handover(sha, services, config, token, d, id) == (Err(Internal), claimed) <==>
            d.rows[id].kind == Production && exists e | e in config :: ConfigEnv.Sealed(e)
    ensures Run(SetStatus(d, id, Assigned), es, d') ==> id !in Handed(es)
  {
    ConfigEnv.EnvFailsExactly(config, d.rows[id].kind != Preview);
    if Run(SetStatus(d, id, Assigned), es, d') { HandedOnce(SetStatus(d, id, Assigned), es, d', id); }
  }

  /** The first deployment of a service with one secret that cannot be opened. */
  lemma SealedSecretSticks(sha: string -> string, service: string, svc: Service, server: string, at: nat, id: string,
          key: string, token: TokenReply)
    requires PreviewNames.IsHexDigest(sha) && ProductionRow(service, svc, server, 0, "", at).Ok?
    ensures var d := InsertRow(EMPTY, id, ProductionRow(service, svc, server, 0, "", at).value);
            Handover(sha, map[service := svc], [ConfigEnv.Entry(ConfigEnv.Own, true, key, None)], token, d, id) ==
              (Err(Internal), SetStatus(d, id, Assigned))
  {
    var config := [ConfigEnv.Entry(ConfigEnv.Own, true, key, None)];
    assert config[0] in config && ConfigEnv.Sealed(config[0]);
    ConfigEnv.EnvFailsExactly(config, true);
  }

  /** In every run each row is handed out at most once. */
  lemma {:induction false} HandedDistinct(d: Data, es: seq<Event>, d': Data)
    requires Run(d, es, d')
    ensures forall i, j | 0 <= i < j < |Handed(es)| :: Handed(es)[i] != Handed(es)[j]
    decreases es
  {
    if es != [] {
      var next, rest := Next(d, es[0]), Handed(es[1..]);
      HandedDistinct(next, es[1..], d');
      if es[0].Claimed? {
        HandedOnce(next, es[1..], d', es[0].id);
        assert Handed(es) == [es[0].id] + rest;
        forall j | 0 <= j < |rest| ensures rest[j] != es[0].id { assert rest[j] in rest; }
      }
    }
  }

  /** Every queued row of the server is at least as young as t. */
  predicate QueueAfter(d: Data, server: string, t: nat) {
    t <= d.now && forall x | x in d.rows && d.rows[x].server == server && d.rows[x].status == Queued ::
      t <= d.rows[x].created
  }

  /** From then on, whatever that server is handed is at least as young. */
  lemma {:induction false} HandedAfter(d: Data, es: seq<Event>, d': Data, server: string, t: nat)
    requires WellKept(d) && Run(d, es, d') && QueueAfter(d, server, t)
    ensures forall x | x in Handed(es) :: x in d'.rows && (d'.rows[x].server == server ==> t <= d'.rows[x].created)
    decreases es
  {
    if es != [] {
      var next := Next(d, es[0]);
      StepKeepsKeys(d, es[0]);
      QueueStaysAfter(d, es[0], server, t);
      HandedAfter(next, es[1..], d', server, t);
      if es[0].Claimed? {
        NeverRequeued(d, es[0], es[0].id);
        RowsStay(next, es[1..], d', es[0].id);
      }
    }
  }

  lemma QueueStaysAfter(d: Data, e: Event, server: string, t: nat)
    requires WellKept(d) && Enabled(d, e) && QueueAfter(d, server, t)
    ensures QueueAfter(Next(d, e), server, t)
  {
    StepKeepsKeys(d, e);
    var next := Next(d, e);
    forall x | x in next.rows && next.rows[x].server == server && next.rows[x].status == Queued
      ensures t <= next.rows[x].created
    {
      if x in d.rows { NeverRequeued(d, e, x); }
    }
  }

  lemma {:induction false} RowsStay(d: Data, es: seq<Event>, d': Data, x: string)
    requires Run(d, es, d') && x in d.rows
    ensures x in d'.rows && d'.rows[x].server == d.rows[x].server && d'.rows[x].created == d.rows[x].created
    decreases es
  {
    if es != [] {
      NeverRequeued(d, es[0], x);
      RowsStay(Next(d, es[0]), es[1..], d', x);
    }
  }

  /** In every run each server is handed its rows oldest first. */
  lemma {:induction false} HandedOldestFirst(d: Data, es: seq<Event>, d': Data, i: nat, j: nat)
    requires WellKept(d) && Run(d, es, d') && i < j < |Handed(es)|
    ensures var x, y := Handed(es)[i], Handed(es)[j];
            && x in d'.rows && y in d'.rows
            && (d'.rows[x].server == d'.rows[y].server ==> d'.rows[x].created <= d'.rows[y].created)
    decreases es
  {
    var next, rest := Next(d, es[0]), Handed(es[1..]);
    StepKeepsKeys(d, es[0]);
    if es[0].Claimed? {
      assert Handed(es) == [es[0].id] + rest;
      if i == 0 {
        var id := es[0].id;
        NeverRequeued(d, es[0], id);
        assert QueueAfter(next, es[0].server, d.rows[id].created);
        HandedAfter(next, es[1..], d', es[0].server, d.rows[id].created);
        RowsStay(next, es[1..], d', id);
        assert rest[j - 1] in rest;
      } else {
        HandedOldestFirst(next, es[1..], d', i - 1, j - 1);
      }
    } else {
      assert Handed(es) == rest;
      HandedOldestFirst(next, es[1..], d', i, j);
    }
  }

  // ---- Workspaces ----

  predicate AllHoused(services: map<string, Service>, servers: map<string, string>, rows: map<string, Row>) {
    forall x | x in rows :: Housed(services, servers, rows[x])
  }

  /** Every row the run inserts is for a server of its service's workspace. */
  predicate InsertsHoused(services: map<string, Service>, servers: map<string, string>, es: seq<Event>) {
    forall i | 0 <= i < |es| && es[i].NewRow? :: Housed(services, servers, es[i].row)
  }

  lemma ServiceKept(d: Data, e: Event, x: string)
    requires Enabled(d, e) && x in d.rows
    ensures x in Next(d, e).rows && Next(d, e).rows[x].service == d.rows[x].service
  {
  }

  /** Over every run an agent is only ever handed rows of services of its server's workspace. */
  lemma {:induction false} WorkStaysInItsWorkspace(services: map<string, Service>, servers: map<string, string>,
          d: Data, es: seq<Event>, d': Data, server: string, id: string)
    requires Run(d, es, d') && AllHoused(services, servers, d.rows) && InsertsHoused(services, servers, es)
    requires Oldest(d'.rows, server, id) && d'.rows[id].service in services
    ensures server in servers && servers[server] == services[d'.rows[id].service].workspace
    decreases es
  {
    if es != [] {
      var next := Next(d, es[0]);
      assert es[0].NewRow? ==> Housed(services, servers, es[0].row);
      forall x | x in next.rows ensures Housed(services, servers, next.rows[x]) {
        if x in d.rows {
          NeverRequeued(d, es[0], x);
          ServiceKept(d, es[0], x);
        }
      }
      WorkStaysInItsWorkspace(services, servers, next, es[1..], d', server, id);
    }
  }

  // ---- Torn down ----

  /** The agent of this server reports a status on the row. */
  predicate Speaks(e: Event, x: string, server: string) {
    && e.RowReport? && e.report.deployment == x && e.server == server
    && PreviewNames.IsUuid(x) && Reportable(e.report.update.status)
  }

  /** A torn-down row stays torn down exactly until its own server reports on it: the status is not terminal. */
  lemma TornDownExactly(d: Data, e: Event, x: string)
    requires Enabled(d, e) && x in d.rows && d.rows[x].status == TornDown
    ensures x in Next(d, e).rows
    ensures Next(d, e).rows[x].status == TornDown <==> !Speaks(e, x, d.rows[x].server)
  {
  }

  /** Over any run without such a report it stays so. */
  lemma {:induction false} TornDownStays(d: Data, es: seq<Event>, d': Data, x: string)
    requires Run(d, es, d') && x in d.rows && d.rows[x].status == TornDown
    requires forall i | 0 <= i < |es| :: !Speaks(es[i], x, d.rows[x].server)
    ensures x in d'.rows && d'.rows[x].status == TornDown
    decreases es
  {
    if es != [] {
      assert !Speaks(es[0], x, d.rows[x].server);
      TornDownExactly(d, es[0], x);
      NeverRequeued(d, es[0], x);
      forall i | 0 <= i < |es[1..]| ensures !Speaks(es[1..][i], x, d.rows[x].server) { assert es[1..][i] == es[i + 1]; }
      TornDownStays(Next(d, es[0]), es[1..], d', x);
    }
  }

  /** No row of the key on the server is left to retire. */
  predicate Marked(rows: map<string, Row>, key: string, server: string) {
    forall x | x in rows && rows[x].routeKey == key && rows[x].server == server :: !Retirable(rows[x].status)
  }

  /** After a teardown that succeeded, the key's rows are retired and no sweep finds them. */
  lemma TeardownMarks(d: Data, server: string, id: string, message: string, error: string, cutoff: int)
    requires JobReported(d, server, id, Succeeded, message, error).Ok?
    ensures var d' := JobReported(d, server, id, Succeeded, message, error).value;
            && Marked(d'.rows, d.jobs[id].routeKey, server)
            && forall x | x in d'.rows && d'.rows[x].routeKey == d.jobs[id].routeKey && d'.rows[x].server == server ::
                 !Expired(d'.rows[x], cutoff)
  {
  }

  /** Jobs about one key on one server. */
  predicate TeardownOf(d: Data, e: Event, key: string, server: string) {
    match e
    case NewTeardown(_, x, _) => x in d.rows && KeyOf(d.rows[x]) == key
    case JobClaimed(_, _) => true
    case JobReport(s, id, _, _, _) => id in d.jobs ==> d.jobs[id].routeKey == key && s == server
    case _ => false
  }

  predicate AllTeardownsOf(d: Data, es: seq<Event>, d': Data, key: string, server: string)
    requires Run(d, es, d')
    decreases es
  {
    es == [] || (TeardownOf(d, es[0], key, server) && AllTeardownsOf(Next(d, es[0]), es[1..], d', key, server))
  }

  lemma MarkedStays(d: Data, e: Event, key: string, server: string)
    requires Enabled(d, e) && Marked(d.rows, key, server) && TeardownOf(d, e, key, server)
    ensures Next(d, e).rows == d.rows
  {
  }

  /** Any number of duplicate teardowns of a key, enqueued by whomever and reported in any way, leave every
      deployment row as the first successful one left it. */
  lemma {:induction false} DuplicateTeardownsKeepRows(d: Data, es: seq<Event>, d': Data, key: string, server: string)
    requires Run(d, es, d') && Marked(d.rows, key, server) && AllTeardownsOf(d, es, d', key, server)
    ensures d'.rows == d.rows
    decreases es
  {
    if es != [] {
      MarkedStays(d, es[0], key, server);
      DuplicateTeardownsKeepRows(Next(d, es[0]), es[1..], d', key, server);
    }
  }

  /** A redelivered close finds nothing to tear down exactly when, at the time the teardown succeeded, the
      key had no preview row that had failed or been superseded, or that lives on another server. */
  lemma RedeliveredCloseExactly(rows: map<string, Row>, service: string, key: string, server: string)
    ensures var after := MarkPreviewTornDown(rows, key, server);
            (exists x | x in after :: Active(after[x], service, key)) <==>
            exists x | x in rows :: Active(rows[x], service, key)
              && (rows[x].status in {Status.Failed, Superseded} || rows[x].server != server)
  {
    var after := MarkPreviewTornDown(rows, key, server);
    if x :|
      && x in rows && Active(rows[x], service, key)
      && (rows[x].status in {Status.Failed, Superseded} || rows[x].server != server)
    {
      assert x in after && Active(after[x], service, key);
    }
    if x :| x in after && Active(after[x], service, key) {
      assert x in rows && Active(rows[x], service, key);
    }
  }

  /** A job for a row is inserted, claimed and reported as done. */
  function Removed(job: string, id: string, server: string, at: nat): seq<Event> {
    [NewTeardown(job, id, at), JobClaimed(server, job), JobReport(server, job, Succeeded, "", "")]
  }

  lemma RemovedIsARun(d: Data, job: string, id: string, at: nat) returns (d': Data)
    requires PreviewNames.IsUuid(job) && d.jobs == map[] && id in d.rows && d.rows[id].kind == Preview && d.now <= at
    requires d.rows[id].routeKey != ""
    ensures Run(d, Removed(job, id, d.rows[id].server, at), d')
    ensures d'.rows == MarkPreviewTornDown(d.rows, d.rows[id].routeKey, d.rows[id].server)
  {
    var server := d.rows[id].server;
    var e1, e2, e3 := NewTeardown(job, id, at), JobClaimed(server, job), JobReport(server, job, Succeeded, "", "");
    var d1 := Next(d, e1);
    assert OldestJob(d1.jobs, server, job);
    var d2 := Next(d1, e2);
    d' := Next(d2, e3);
    RunOfThree(d, e1, e2, e3);
  }

  const DOWN := Update(Status.Failed, "", 0, "", "", "", "")

  const UP := Update(Running, "", 8001, "c", "", "", "")

  /** The tables once one row has failed and another one has come up. */
  function FailedAndUp(row: Row, a: string, b: string): Data {
    AfterLived(AfterLived(EMPTY, a, row, DOWN), b, row, UP)
  }

  lemma FailedAndUpRows(row: Row, a: string, b: string)
    requires row.routeKey != "" && row.status == Queued && a != b
    ensures var d := FailedAndUp(row, a, b);
            && d.jobs == map[] && d.now == row.created && d.rows.Keys == {a, b}
            && SameOwner(row, d.rows[a]) && d.rows[a].status == Status.Failed
            && SameOwner(row, d.rows[b]) && d.rows[b].status == Running && d.rows[b].server == row.server
  {
    LivedRows(EMPTY, a, row, DOWN);
    LivedRows(AfterLived(EMPTY, a, row, DOWN), b, row, UP);
  }

  /** One row of a preview fails and the next one comes up. */
  lemma FailedThenUp(row: Row, a: string, b: string)
    requires RowOk(row) && row.status == Queued
    requires PreviewNames.IsUuid(a) && PreviewNames.IsUuid(b) && a != b
    ensures Run(EMPTY, Lived(a, row, DOWN) + Lived(b, row, UP), FailedAndUp(row, a, b))
  {
    var failed := AfterLived(EMPTY, a, row, DOWN);
    LivedIsARun(EMPTY, a, row, DOWN);
    LivedRows(EMPTY, a, row, DOWN);
    LivedIsARun(failed, b, row, UP);
    RunConcat(EMPTY, Lived(a, row, DOWN), failed, Lived(b, row, UP), FailedAndUp(row, a, b));
  }

  /** Then the preview is torn down. */
  lemma FailedThenRemoved(row: Row, a: string, b: string, job: string) returns (es: seq<Event>, d: Data)
    requires RowOk(row) && row.kind == Preview && row.status == Queued
    requires PreviewNames.IsUuid(a) && PreviewNames.IsUuid(b) && PreviewNames.IsUuid(job) && a != b
    ensures Run(EMPTY, es, d) && a in d.rows && b in d.rows
    ensures d.rows[b].status == TornDown && d.rows[b].server == row.server
    ensures SameOwner(row, d.rows[a]) && d.rows[a].status == Status.Failed
  {
    var lived, running := Lived(a, row, DOWN) + Lived(b, row, UP), FailedAndUp(row, a, b);
    FailedThenUp(row, a, b);
    FailedAndUpRows(row, a, b);
    d := RemovedIsARun(running, job, b, row.created);
    es := lived + Removed(job, b, running.rows[b].server, row.created);
    RunConcat(EMPTY, lived, running, Removed(job, b, running.rows[b].server, row.created), d);
  }

  /** A preview that was torn down is running again once its agent reports so. */
  lemma TornDownRevives(row: Row, a: string, b: string, job: string) returns (es: seq<Event>, d: Data, d': Data)
    requires RowOk(row) && row.kind == Preview && row.status == Queued
    requires PreviewNames.IsUuid(a) && PreviewNames.IsUuid(b) && PreviewNames.IsUuid(job) && a != b
    ensures Run(EMPTY, es, d) && b in d.rows && d.rows[b].status == TornDown
    ensures Run(EMPTY, es + [RowReport(row.server, Report(b, UP))], d') && b in d'.rows && d'.rows[b].status == Running
  {
    es, d := FailedThenRemoved(row, a, b, job);
    var e := RowReport(row.server, Report(b, UP));
    d' := Next(d, e);
    RunAppend(EMPTY, es, d, e);
  }

  /** A pull request whose first deploy failed and whose second one came up is closed, and the teardown
      succeeds: the failed row is still there to be found by a redelivered close, which enqueues one more job. */
  lemma FailedRowOutlivesTheClose(sha: string -> string, svc: Service, o: PreviewOrder, head: Result<string, Problem>,
          at: nat, a: string, b: string, job: string) returns (es: seq<Event>, d: Data)
    requires PreviewNames.IsHexDigest(sha) && PreviewNames.IsUuid(o.service) && 0 < o.pr <= PreviewNames.MAX_INT32
    requires PreviewRow(sha, svc, o, head, at).Ok?
    requires PreviewNames.IsUuid(a) && PreviewNames.IsUuid(b) && PreviewNames.IsUuid(job) && a != b
    ensures Run(EMPTY, es, d) && b in d.rows && d.rows[b].status == TornDown
    ensures a in d.rows && Active(d.rows[a], o.service, PreviewNames.RouteKey(sha, o.service, o.pr, ""))
  {
    var row := PreviewRow(sha, svc, o, head, at).value;
    PreviewRowOk(sha, svc, o, head, at);
    CloseFindsOpen(sha, svc, o, head, at);
    es, d := FailedThenRemoved(row, a, b, job);
  }

  /** Opening and closing a pull request agree on the key, so the close finds the open's row. */
  lemma CloseFindsOpen(sha: string -> string, svc: Service, o: PreviewOrder, head: Result<string, Problem>, at: nat)
    requires PreviewNames.IsHexDigest(sha) && PreviewNames.IsUuid(o.service) && 0 < o.pr <= PreviewNames.MAX_INT32
    requires PreviewRow(sha, svc, o, head, at).Ok?
    ensures Active(PreviewRow(sha, svc, o, head, at).value, o.service, PreviewNames.RouteKey(sha, o.service, o.pr, ""))
  {
    PreviewNames.PullRequestKeys(sha, o.service, o.pr, head.value, o.pr, head.value);
  }
}
