/** The deployment exchange: the runner's durable `{sequence, pending, assigned, known}`
    record, the bodies it builds from the task journal, and the Control endpoint that
    applies them. This module defines both ends as functions on values; the whole-run
    results are in `ExchangeRuns` and the runner's mutable form in `Runner`. */
module Exchange {
  import opened Records
  import Texts

  // ---------- What travels ----------

  datatype Report = Report(task: TaskId, version: nat, status: Status, stage: string,
                           errorCode: Option<string>, artifact: Option<Artifact>, upgrade: Option<Outcome>)

  /** `public_report`. */
  function PublicReport(r: Record): Report {
    Report(r.id, r.version, r.status, r.stage, r.errorCode, r.artifact, r.upgrade)
  }

  datatype Body = Body(sequence: nat, profileDigest: Digest, preview: Option<string>, reports: seq<Report>)

  datatype Intent = Intent(id: TaskId, runnerId: string, previewDigest: Digest, operation: Option<bool>)

  /** An assignment; `native` is the operation, true for `native_upgrade`. */
  datatype Task = Task(id: TaskId, runnerId: string, profileDigest: Digest, native: bool, status: Status,
                       intent: Intent, generation: nat)

  datatype Response = Response(sequence: nat, task: Option<Task>)

  // ---------- The runner ----------

  datatype Known = Known(reported: nat, started: bool)

  datatype RunnerState = RunnerState(sequence: nat, pending: Option<Body>, task: Option<Task>,
                                     known: map<TaskId, Known>)

  /** The registered identity of one runner: who it is, its profile and its one operation. */
  datatype Config = Config(runnerId: string, profileDigest: Digest, native: bool)

  const BATCH := 16

  predicate Outstanding(id: TaskId, known: map<TaskId, Known>, j: Journal) {
    id in known && id in j && j[id].version > known[id].reported
  }

  /** Every report the iteration order `order` would produce without the batch limit. */
  function Due(order: seq<TaskId>, known: map<TaskId, Known>, j: Journal): seq<Report> {
    if order == [] then []
    else
      var rest := Due(order[..|order| - 1], known, j);
      var last := order[|order| - 1];
      if Outstanding(last, known, j) then rest + [PublicReport(j[last])] else rest
  }

  function Batch(reports: seq<Report>): seq<Report> {
    if |reports| <= BATCH then reports else reports[..BATCH]
  }

  /** `next_body`. */
  function NextBody(cfg: Config, s: RunnerState, order: seq<TaskId>, j: Journal, preview: Option<string>): Body {
    Body(s.sequence + 1, cfg.profileDigest, preview, Batch(Due(order, s.known, j)))
  }

  /** The checks `accept_response` makes before it believes an assignment. */
  predicate Acceptable(cfg: Config, t: Task) {
    && t.runnerId == cfg.runnerId && t.profileDigest == cfg.profileDigest && t.native == cfg.native
    && Unfinished(t.status)
    && t.intent.operation == (if cfg.native then Some(true) else None)
    && t.intent.id == t.id && t.intent.runnerId == cfg.runnerId && Texts.IsDigest(t.intent.previewDigest)
  }

  /** The acknowledgement loop: each report's version becomes its task's `reported`. */
  function Ack(known: map<TaskId, Known>, reports: seq<Report>): (r: map<TaskId, Known>)
    requires forall q :: q in reports ==> q.task in known
    ensures r.Keys == known.Keys
    decreases |reports|
  {
    if reports == [] then known
    else
      var last := reports[|reports| - 1];
      assert last in reports;
      var k := Ack(known, reports[..|reports| - 1]);
      k[last.task := k[last.task].(reported := last.version)]
  }

  /** `state["known"].setdefault(...)`. */
  function WithTask(known: map<TaskId, Known>, task: Option<Task>): map<TaskId, Known> {
    if task.Some? && task.value.id !in known then known[task.value.id := Known(0, false)] else known
  }

  predicate ResponseOk(cfg: Config, s: RunnerState, a: Response) {
    && s.pending.Some?
    && a.sequence == s.pending.value.sequence
    && (a.task.Some? ==> Acceptable(cfg, a.task.value))
  }

  /** `accept_response`, once its checks pass. */
  function Accepted(s: RunnerState, a: Response): RunnerState
    requires s.pending.Some?
    requires forall q :: q in s.pending.value.reports ==> q.task in s.known
  {
    RunnerState(s.pending.value.sequence, None, a.task, Ack(WithTask(s.known, a.task), s.pending.value.reports))
  }

  // ---------- Control's side ----------

  /** `queued`, one of the four statuses a runner can report, or `cancelled`. */
  datatype RowStatus = Queued | Live(status: Status) | Cancelled

  datatype Row = Row(status: RowStatus, localVersion: nat, report: Option<Report>, generation: nat,
                     profileDigest: Digest, native: bool, intent: Intent)

  datatype Refusal = Invalid | SequenceReplayed | TaskNotFound | ReportReplayed | TaskTerminal

  datatype Verdict<T> = Done(value: T) | Refused(reason: Refusal)

  datatype Server = Server(cursor: nat, bodyDigest: Option<Digest>, answer: Option<Response>, rows: map<TaskId, Row>)

  /** The endpoint's checks of its own: how it digests a body, which previews and reports it
      finds well formed, and which reports fit the operation and the approved preview of a
      task (`validate_deployment_preview`, `validate_deployment_report` and
      `validate_native_upgrade_report`). */
  datatype Endpoint = Endpoint(hash: Body -> Digest, shape: Body -> bool, fits: (Row, Report) -> bool)

  predicate Open(row: Row) {
    row.status.Live? && Unfinished(row.status.status)
  }

  function ApplyReport(srv: Endpoint, rows: map<TaskId, Row>, r: Report): Verdict<map<TaskId, Row>> {
    if r.task !in rows then Refused(TaskNotFound)
    else if !srv.fits(rows[r.task], r) then Refused(Invalid)
    else
      var row := rows[r.task];
      if r.version <= row.localVersion then
        if r.version == row.localVersion && row.report == Some(r) then Done(rows) else Refused(ReportReplayed)
      else if !Open(row) then Refused(TaskTerminal)
      else Done(rows[r.task := row.(status := Live(r.status), localVersion := r.version, report := Some(r))])
  }

  function ApplyReports(srv: Endpoint, rows: map<TaskId, Row>, reports: seq<Report>): Verdict<map<TaskId, Row>> {
    if reports == [] then Done(rows)
    else
      match ApplyReports(srv, rows, reports[..|reports| - 1])
      case Refused(why) => Refused(why)
      case Done(rs) => ApplyReport(srv, rs, reports[|reports| - 1])
  }

  /** What the endpoint does after the reports: continue the open task, hand out or
      expire a queued one, or assign nothing. */
  datatype Choice = Continue(id: TaskId) | AssignQueued(id: TaskId) | ExpireQueued(id: TaskId) | Nothing

  predicate Offered(rows: map<TaskId, Row>, c: Choice) {
    match c
    case Continue(id) => id in rows && Open(rows[id])
    case AssignQueued(id) => id in rows && rows[id].status == Queued && NoneOpen(rows)
    case ExpireQueued(id) => id in rows && rows[id].status == Queued && NoneOpen(rows)
    case Nothing => NoneOpen(rows) && forall t :: t in rows ==> rows[t].status != Queued
  }

  predicate NoneOpen(rows: map<TaskId, Row>) {
    forall t :: t in rows ==> !Open(rows[t])
  }

  function RowsAfter(rows: map<TaskId, Row>, c: Choice): map<TaskId, Row>
    requires Offered(rows, c)
  {
    match c
    case AssignQueued(id) => rows[id := rows[id].(status := Live(Running))]
    case ExpireQueued(id) => rows[id := rows[id].(status := Live(Failed))]
    case _ => rows
  }

  function Assignment(runnerId: string, rows: map<TaskId, Row>, c: Choice): Option<Task>
    requires Offered(rows, c)
  {
    match c
    case Continue(id) => Some(TaskOf(runnerId, id, rows[id]))
    case AssignQueued(id) => Some(TaskOf(runnerId, id, rows[id].(status := Live(Running))))
    case _ => None
  }

  function TaskOf(runnerId: string, id: TaskId, row: Row): Task
    requires row.status.Live?
  {
    Task(id, runnerId, row.profileDigest, row.native, row.status.status, row.intent, row.generation)
  }

  predicate DistinctTasks(reports: seq<Report>) {
    forall i, k :: 0 <= i < k < |reports| ==> reports[i].task != reports[k].task
  }

  /** `deployment_exchange`: replay the stored answer for the same body at the cursor,
      refuse anything older or different, apply anything newer. */
  function Exchanged(srv: Endpoint, runnerId: string, s: Server, b: Body, c: Choice): Verdict<(Server, Response)> {
    if b.sequence == 0 || |b.reports| > BATCH || !DistinctTasks(b.reports) || !srv.shape(b) then Refused(Invalid)
    else if b.sequence <= s.cursor then
      if b.sequence == s.cursor && s.bodyDigest == Some(srv.hash(b)) && s.answer.Some? then Done((s, s.answer.value))
      else Refused(SequenceReplayed)
    else
      match ApplyReports(srv, s.rows, b.reports)
      case Refused(why) => Refused(why)
      case Done(rows) =>
        if !Offered(rows, c) then Refused(Invalid)
        else
          var answer := Response(b.sequence, Assignment(runnerId, rows, c));
          Done((Server(b.sequence, Some(srv.hash(b)), Some(answer), RowsAfter(rows, c)), answer))
  }

  // ---------- Facts about the two folds ----------

  lemma {:induction false} AckPointwise(known: map<TaskId, Known>, reports: seq<Report>)
    requires forall q :: q in reports ==> q.task in known
    requires DistinctTasks(reports)
    ensures forall q :: q in reports ==> Ack(known, reports)[q.task] == known[q.task].(reported := q.version)
    ensures forall t :: t in known && (forall q :: q in reports ==> q.task != t) ==> Ack(known, reports)[t] == known[t]
    decreases |reports|
  {
    if reports != [] {
      var n := |reports| - 1;
      var front, last := reports[..n], reports[n];
      assert reports == front + [last];
      AckPointwise(known, front);
      assert forall p :: p in front ==> p.task != last.task;
    }
  }

  predicate Applicable(rows: map<TaskId, Row>, q: Report) {
    q.task in rows && Open(rows[q.task]) && q.version > rows[q.task].localVersion
  }

  function Applied(row: Row, q: Report): Row {
    row.(status := Live(q.status), localVersion := q.version, report := Some(q))
  }

  predicate AllFit(srv: Endpoint, rows: map<TaskId, Row>, reports: seq<Report>) {
    forall q :: q in reports && q.task in rows ==> srv.fits(rows[q.task], q)
  }

  /** Exactly the reported rows were changed, each by its report. */
  predicate AppliedTo(rows: map<TaskId, Row>, reports: seq<Report>, rs: map<TaskId, Row>) {
    && rs.Keys == rows.Keys
    && (forall q :: q in reports && q.task in rows ==> rs[q.task] == Applied(rows[q.task], q))
    && (forall t :: t in rows && (forall q :: q in reports ==> q.task != t) ==> rs[t] == rows[t])
  }

  lemma {:induction false} AppliedNext(rows: map<TaskId, Row>, front: seq<Report>, last: Report, rs: map<TaskId, Row>)
    requires AppliedTo(rows, front, rs) && last.task in rows && forall p :: p in front ==> p.task != last.task
    ensures rs[last.task] == rows[last.task]
    ensures AppliedTo(rows, front + [last], rs[last.task := Applied(rows[last.task], last)])
  {
  }

  /** Reports for distinct open rows, each newer than what the row holds, are all applied,
      exactly when they fit their tasks; otherwise the batch is invalid. */
  lemma {:induction false} ApplyPointwise(srv: Endpoint, rows: map<TaskId, Row>, reports: seq<Report>)
    requires DistinctTasks(reports)
    requires forall q :: q in reports ==> Applicable(rows, q)
    ensures ApplyReports(srv, rows, reports).Done? <==> AllFit(srv, rows, reports)
    ensures ApplyReports(srv, rows, reports).Refused? ==> ApplyReports(srv, rows, reports).reason == Invalid
    ensures ApplyReports(srv, rows, reports).Done? ==> AppliedTo(rows, reports, ApplyReports(srv, rows, reports).value)
    decreases |reports|
  {
    if reports != [] {
      var n := |reports| - 1;
      var front, last := reports[..n], reports[n];
      assert reports == front + [last] && Applicable(rows, last);
      ApplyPointwise(srv, rows, front);
      if ApplyReports(srv, rows, front).Done? {
        AppliedNext(rows, front, last, ApplyReports(srv, rows, front).value);
      }
    }
  }

  /** Every due report names a known task at its current, unreported version, once. */
  lemma {:induction false} DueReports(order: seq<TaskId>, known: map<TaskId, Known>, j: Journal)
    requires forall i, k :: 0 <= i < k < |order| ==> order[i] != order[k]
    requires forall t :: t in j ==> j[t].id == t
    ensures forall q :: q in Due(order, known, j) ==>
              q.task in order && Outstanding(q.task, known, j) && q == PublicReport(j[q.task])
    ensures DistinctTasks(Due(order, known, j))
    decreases |order|
  {
    if order != [] {
      var n := |order| - 1;
      DueReports(order[..n], known, j);
      assert forall t :: t in order[..n] ==> t != order[n] && t in order;
    }
  }

  /** The choice opens at most the one task it answers with, and touches only queued rows. */
  lemma {:induction false} ChoicePointwise(runnerId: string, rows: map<TaskId, Row>, c: Choice)
    requires Offered(rows, c)
    ensures RowsAfter(rows, c).Keys == rows.Keys
    ensures forall t :: t in rows && rows[t].status != Queued ==> RowsAfter(rows, c)[t] == rows[t]
    ensures forall t :: t in rows ==> RowsAfter(rows, c)[t].localVersion == rows[t].localVersion
    ensures forall t :: t in rows && Open(RowsAfter(rows, c)[t]) && !Open(rows[t]) ==>
              Assignment(runnerId, rows, c).Some? && Assignment(runnerId, rows, c).value.id == t
    ensures Assignment(runnerId, rows, c).Some? ==>
              var t := Assignment(runnerId, rows, c).value.id;
              t in rows && Open(RowsAfter(rows, c)[t]) && (Open(rows[t]) || rows[t].status == Queued)
  {
  }
}
