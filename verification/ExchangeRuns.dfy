/** Every run of the deployment exchange: one runner that may crash anywhere, a network
    that may lose, delay, repeat or reorder bodies and answers, a task journal that moves
    on by itself, and the Control endpoint with its console. */
module ExchangeRuns {
  import opened Records
  import opened Exchange
  import JournalDiscipline

  /** What the process has changed in memory and not yet written back. */
  datatype Edit = Clean | Built | Received(answer: Response) | Executed

  datatype Sys = Sys(
    disk: RunnerState,             // the durable runner record
    mem: Option<RunnerState>,      // the process's copy; None while it is down
    edit: Edit,
    journal: Journal,
    server: Server,
    sent: set<Body>,               // every body ever put on the wire
    answers: set<Response>,        // every answer Control ever gave
    applied: seq<Body>)            // the bodies Control applied, in order

  function Initial(journal: Journal, rows: map<TaskId, Row>): Sys {
    var empty := RunnerState(0, None, None, map[]);
    Sys(empty, None, Clean, journal, Server(0, None, None, rows), {}, {}, [])
  }

  predicate InitialOk(s: Sys) {
    && s == Initial(s.journal, s.server.rows)
    && (forall t :: t in s.journal ==> s.journal[t].id == t)
    && (forall t :: t in s.server.rows ==> !s.server.rows[t].status.Live? && s.server.rows[t].localVersion == 0)
  }

  datatype Event =
    | Crash
    | Boot
    | Build(order: seq<TaskId>, preview: Option<string>)
    | Persist
    | Send
    | Deliver(body: Body, choice: Choice)
    | Receive(answer: Response)
    | Execute(task: Option<Task>, known: map<TaskId, Known>)
    | JournalMoves(journal: Journal)
    | ConsoleMoves(rows: map<TaskId, Row>)

  predicate Distinct(order: seq<TaskId>) {
    forall i, k :: 0 <= i < k < |order| ==> order[i] != order[k]
  }

  predicate Grown(r: Record, r': Record) {
    JournalDiscipline.Succeeds(r, r') && (r.version == r'.version ==> r == r')
  }

  /** How the journal may change between two looks at it; `JournalDiscipline` proves it. */
  ghost predicate Grows(j: Journal, j': Journal) {
    && (forall t :: t in j ==> t in j' && Grown(j[t], j'[t]))
    && (forall t :: t in j' ==> j'[t].id == t)
  }

  /** Console actions: queue a task, cancel a queued one, request another recovery. */
  predicate RowMoves(row: Row, row': Row) {
    || row' == row
    || (row.status == Queued && row' == row.(status := Cancelled))
    || (row.status == Live(RecoveryRequired) && row' == row.(status := Live(Running), generation := row.generation + 1))
  }

  predicate RowsMove(rows: map<TaskId, Row>, rows': map<TaskId, Row>) {
    && (forall t :: t in rows ==> t in rows' && RowMoves(rows[t], rows'[t]))
    && (forall t :: t in rows' && t !in rows ==> rows'[t].status == Queued && rows'[t].localVersion == 0)
  }

  /** `execute_assigned` touches only the assignment and `started` flags. */
  predicate ExecuteMoves(m: RunnerState, task: Option<Task>, known: map<TaskId, Known>) {
    && (task == m.task || task == None)
    && known.Keys == m.known.Keys
    && forall t :: t in known ==> known[t].reported == m.known[t].reported
  }

  ghost predicate Enabled(cfg: Config, srv: Endpoint, s: Sys, e: Event) {
    match e
    case Crash => true
    case Boot => s.mem.None?
    case Build(order, preview) => s.mem.Some? && s.edit.Clean? && s.mem.value.pending.None? && Distinct(order)
    case Persist => s.mem.Some?
    case Send => s.mem.Some? && s.edit.Clean? && s.mem.value.pending.Some?
    case Deliver(body, choice) => body in s.sent && Exchanged(srv, cfg.runnerId, s.server, body, choice).Done?
    case Receive(answer) =>
      && s.mem.Some? && s.edit.Clean? && answer in s.answers && ResponseOk(cfg, s.mem.value, answer)
      && (forall q :: q in s.mem.value.pending.value.reports ==> q.task in s.mem.value.known)
    case Execute(task, known) => s.mem.Some? && s.edit.Clean? && ExecuteMoves(s.mem.value, task, known)
    case JournalMoves(journal) => Grows(s.journal, journal)
    case ConsoleMoves(rows) => RowsMove(s.server.rows, rows)
  }

  ghost function After(cfg: Config, srv: Endpoint, s: Sys, e: Event): Sys
    requires Enabled(cfg, srv, s, e)
  {
    match e
    case Crash => s.(mem := None, edit := Clean)
    case Boot => s.(mem := Some(s.disk), edit := Clean)
    case Build(order, preview) =>
      s.(mem := Some(s.mem.value.(pending := Some(NextBody(cfg, s.mem.value, order, s.journal, preview)))),
         edit := Built)
    case Persist => s.(disk := s.mem.value, edit := Clean)
    case Send => s.(sent := s.sent + {s.mem.value.pending.value})
    case Deliver(body, choice) =>
      var done := Exchanged(srv, cfg.runnerId, s.server, body, choice).value;
      s.(server := done.0, answers := s.answers + {done.1},
         applied := if body.sequence > s.server.cursor then s.applied + [body] else s.applied)
    case Receive(answer) => s.(mem := Some(Accepted(s.mem.value, answer)), edit := Received(answer))
    case Execute(task, known) => s.(mem := Some(s.mem.value.(task := task, known := known)), edit := Executed)
    case JournalMoves(journal) => s.(journal := journal)
    case ConsoleMoves(rows) => s.(server := s.server.(rows := rows))
  }

  /** The journal discipline delivers exactly the growth the exchange relies on. */
  lemma {:induction false} JournalRunsGrow(run: seq<JournalDiscipline.State>, i: nat, k: nat)
    requires JournalDiscipline.Run(run) && i <= k < |run|
    ensures Grows(run[i].journal, run[k].journal)
  {
    JournalDiscipline.TerminalIsAbsorbing(run, i, k);
    JournalDiscipline.RunInv(run, k);
    forall t | t in run[i].journal
      ensures t in run[k].journal && Grown(run[i].journal[t], run[k].journal[t])
    {
      if run[i].journal[t].version == run[k].journal[t].version {
        JournalDiscipline.VersionsIdentifyContents(run, i, k, t);
      }
    }
  }

  // ---------- What holds on the wire ----------

  predicate Sent(s: Sys, b: Body) {
    && b.sequence >= 1
    && (if b.sequence <= |s.applied| then b == s.applied[b.sequence - 1] else s.disk.pending == Some(b))
  }

  predicate Cursor(s: Sys) {
    && s.server.cursor == |s.applied|
    && s.disk.sequence <= s.server.cursor <= s.disk.sequence + 1
    && (forall i :: 0 <= i < |s.applied| ==> s.applied[i].sequence == i + 1)
    && (s.disk.pending.Some? ==> s.disk.pending.value.sequence == s.disk.sequence + 1)
    && (s.server.cursor == s.disk.sequence + 1 ==> s.disk.pending == Some(s.applied[s.disk.sequence]))
  }

  predicate Answered(srv: Endpoint, s: Sys) {
    && (|s.applied| > 0 ==>
          && s.server.bodyDigest == Some(srv.hash(s.applied[|s.applied| - 1])) && srv.shape(s.applied[|s.applied| - 1])
          && s.server.answer.Some? && s.server.answer.value.sequence == s.server.cursor)
    && (s.server.answer.Some? ==> s.server.answer.value in s.answers)
    && (forall a :: a in s.answers ==>
          1 <= a.sequence <= s.server.cursor && (a.sequence == s.server.cursor ==> s.server.answer == Some(a)))
  }

  /** The memory copy differs from the durable record only by the edit in progress. */
  predicate Edited(s: Sys) {
    s.mem.Some? ==>
      var m := s.mem.value;
      match s.edit
      case Clean => m == s.disk
      case Built => m.pending.Some? && m == s.disk.(pending := m.pending) && s.disk.pending.None?
                    && m.pending.value.sequence == s.disk.sequence + 1
      case Received(a) => s.disk.pending.Some? && a in s.answers && a.sequence == s.disk.pending.value.sequence
                          && (forall q :: q in s.disk.pending.value.reports ==> q.task in s.disk.known)
                          && m == Accepted(s.disk, a)
      case Executed => ExecuteMoves(s.disk, m.task, m.known) && m == s.disk.(task := m.task, known := m.known)
  }

  ghost predicate Wire(srv: Endpoint, s: Sys) {
    Cursor(s) && Answered(srv, s) && Edited(s) && forall b :: b in s.sent ==> Sent(s, b)
  }

  lemma {:induction false} DeliverKeepsWire(cfg: Config, srv: Endpoint, s: Sys, e: Event)
    requires Wire(srv, s) && e.Deliver? && Enabled(cfg, srv, s, e)
    ensures Wire(srv, After(cfg, srv, s, e))
  {
    assert Sent(s, e.body);
  }

  lemma {:induction false} PersistKeepsWire(cfg: Config, srv: Endpoint, s: Sys, e: Event)
    requires Wire(srv, s) && e.Persist? && Enabled(cfg, srv, s, e)
    ensures Wire(srv, After(cfg, srv, s, e))
  {
  }

  lemma {:induction false} StepKeepsWire(cfg: Config, srv: Endpoint, s: Sys, e: Event)
    requires Wire(srv, s) && Enabled(cfg, srv, s, e)
    ensures Wire(srv, After(cfg, srv, s, e))
  {
    match e {
      case Deliver(_, _) => DeliverKeepsWire(cfg, srv, s, e);
      case Persist => PersistKeepsWire(cfg, srv, s, e);
      case _ =>
        var s' := After(cfg, srv, s, e);
        forall b | b in s'.sent
          ensures Sent(s', b)
        {
          assert b in s.sent ==> Sent(s, b);
        }
    }
  }

  // ---------- What the reports say ----------

  predicate Keyed(j: Journal) {
    forall t :: t in j ==> j[t].id == t
  }

  /** A report of `r`'s task that `r` has not contradicted since. */
  predicate Reports(q: Report, r: Record) {
    && q.task == r.id
    && q.version <= r.version
    && ((q.version == r.version || !Unfinished(q.status)) ==> q == PublicReport(r))
  }

  predicate BodyOk(known: map<TaskId, Known>, j: Journal, b: Body) {
    && |b.reports| <= BATCH
    && DistinctTasks(b.reports)
    && forall q :: q in b.reports ==>
         q.task in known && q.task in j && q.version > known[q.task].reported && Reports(q, j[q.task])
  }

  predicate Pending(s: Sys) {
    && (s.disk.pending.Some? ==> BodyOk(s.disk.known, s.journal, s.disk.pending.value))
    && (s.mem.Some? && s.edit.Built? ==>
          s.mem.value.pending.Some? && BodyOk(s.disk.known, s.journal, s.mem.value.pending.value))
  }

  /** The task has been handed to the runner, whether or not it has noticed yet. */
  ghost predicate Handed(s: Sys, t: TaskId) {
    t in s.disk.known || exists a :: a in s.answers && a.task.Some? && a.task.value.id == t
  }

  /** What `reported` will be once the runner learns of everything Control applied. */
  function Effective(s: Sys, t: TaskId): nat
    requires s.disk.pending.Some? ==> forall q :: q in s.disk.pending.value.reports ==> q.task in s.disk.known
  {
    if t !in s.disk.known then 0
    else if s.disk.pending.Some? && s.server.cursor == s.disk.sequence + 1 then
      Ack(s.disk.known, s.disk.pending.value.reports)[t].reported
    else s.disk.known[t].reported
  }

  /** Control's row agrees with the journal: a terminal row is a terminal record. */
  predicate RowOk(j: Journal, t: TaskId, row: Row) {
    && row.status.Live?
    && (row.localVersion > 0 ==> t in j && row.localVersion <= j[t].version)
    && (!Unfinished(row.status.status) ==>
          t in j && !Unfinished(j[t].status) && j[t].version == row.localVersion)
  }

  ghost predicate Rows(s: Sys) {
    && Pending(s)
    && Keyed(s.journal)
    && forall t :: Handed(s, t) ==>
         t in s.server.rows && RowOk(s.journal, t, s.server.rows[t])
         && s.server.rows[t].localVersion == Effective(s, t)
  }

  /** A row nobody was handed has never been reported on. */
  ghost predicate Untouched(s: Sys) {
    forall t :: t in s.server.rows && !Handed(s, t) ==>
      s.server.rows[t].localVersion == 0 && !Open(s.server.rows[t])
  }

  lemma {:induction false} JournalKeepsRows(cfg: Config, srv: Endpoint, s: Sys, e: Event)
    requires Rows(s) && e.JournalMoves? && Enabled(cfg, srv, s, e)
    ensures Rows(After(cfg, srv, s, e))
  {
  }

  lemma {:induction false} BuildKeepsRows(cfg: Config, srv: Endpoint, s: Sys, e: Event)
    requires Wire(srv, s) && Rows(s) && e.Build? && Enabled(cfg, srv, s, e)
    ensures Rows(After(cfg, srv, s, e))
  {
    var s' := After(cfg, srv, s, e);
    DueReports(e.order, s.disk.known, s.journal);
    var due := Due(e.order, s.disk.known, s.journal);
    assert forall q :: q in Batch(due) ==> q in due;
    assert BodyOk(s.disk.known, s.journal, s'.mem.value.pending.value);
    assert forall t :: Handed(s', t) ==> Handed(s, t);
  }

  /** The body Control has not applied yet names open rows with newer versions, so it is
      applied exactly when its reports fit their tasks. */
  lemma {:induction false} PendingApplies(srv: Endpoint, s: Sys)
    requires Wire(srv, s) && Rows(s)
    requires s.disk.pending.Some? && s.server.cursor == s.disk.sequence
    ensures forall q :: q in s.disk.pending.value.reports ==> Applicable(s.server.rows, q)
    ensures ApplyReports(srv, s.server.rows, s.disk.pending.value.reports).Done? <==>
              AllFit(srv, s.server.rows, s.disk.pending.value.reports)
    ensures ApplyReports(srv, s.server.rows, s.disk.pending.value.reports).Refused? ==>
              ApplyReports(srv, s.server.rows, s.disk.pending.value.reports).reason == Invalid
  {
    var reports := s.disk.pending.value.reports;
    forall q | q in reports
      ensures Applicable(s.server.rows, q)
    {
      assert Handed(s, q.task);
    }
    ApplyPointwise(srv, s.server.rows, reports);
  }

  /** Delivering an already applied body again changes nothing at all. */
  lemma {:induction false} ReplayChangesNothing(cfg: Config, srv: Endpoint, s: Sys, e: Event)
    requires Wire(srv, s) && e.Deliver? && Enabled(cfg, srv, s, e)
    requires e.body.sequence <= s.server.cursor
    ensures After(cfg, srv, s, e) == s
  {
  }

  /** What applying the pending body does to the table of tasks. */
  lemma {:induction false} AppliedRows(cfg: Config, srv: Endpoint, s: Sys, e: Event)
    requires Wire(srv, s) && Rows(s) && e.Deliver? && Enabled(cfg, srv, s, e)
    requires e.body.sequence > s.server.cursor
    ensures s.disk.pending == Some(e.body) && s.server.cursor == s.disk.sequence
    ensures BodyOk(s.disk.known, s.journal, e.body)
    ensures var s' := After(cfg, srv, s, e); var applied := ApplyReports(srv, s.server.rows, e.body.reports);
      && applied.Done? && Offered(applied.value, e.choice)
      && s'.server.cursor == e.body.sequence
      && s'.server.rows == RowsAfter(applied.value, e.choice)
      && s'.server.answer == Some(Response(e.body.sequence, Assignment(cfg.runnerId, applied.value, e.choice)))
      && s'.answers == s.answers + {s'.server.answer.value}
  {
    assert Sent(s, e.body);
    PendingApplies(srv, s);
  }

  /** What applying a body does to one handed row. */
  lemma {:induction false} AppliedRow(srv: Endpoint, rows: map<TaskId, Row>, known: map<TaskId, Known>, j: Journal,
                                      b: Body, runnerId: string, c: Choice, t: TaskId)
    requires BodyOk(known, j, b) && forall q :: q in b.reports ==> Applicable(rows, q)
    requires ApplyReports(srv, rows, b.reports).Done? && Offered(ApplyReports(srv, rows, b.reports).value, c)
    requires t in rows && RowOk(j, t, rows[t]) && rows[t].localVersion == if t in known then known[t].reported else 0
    ensures var after := RowsAfter(ApplyReports(srv, rows, b.reports).value, c);
            && t in after && RowOk(j, t, after[t])
            && after[t].localVersion == if t in known then Ack(known, b.reports)[t].reported else 0
  {
    ApplyPointwise(srv, rows, b.reports);
    ChoicePointwise(runnerId, ApplyReports(srv, rows, b.reports).value, c);
    AckPointwise(known, b.reports);
    if q :| q in b.reports && q.task == t {
      assert Reports(q, j[t]);
    }
  }

  /** A row Control had handed out before the exchange. */
  lemma {:induction false} DeliverKeepsOldRow(cfg: Config, srv: Endpoint, s: Sys, e: Event, t: TaskId)
    requires Wire(srv, s) && Rows(s) && Untouched(s) && e.Deliver? && Enabled(cfg, srv, s, e)
    requires e.body.sequence > s.server.cursor
    requires Handed(s, t) && Pending(After(cfg, srv, s, e))
    ensures var s' := After(cfg, srv, s, e);
            && t in s'.server.rows && RowOk(s'.journal, t, s'.server.rows[t])
            && s'.server.rows[t].localVersion == Effective(s', t)
  {
    AppliedRows(cfg, srv, s, e);
    PendingApplies(srv, s);
    AppliedRow(srv, s.server.rows, s.disk.known, s.journal, e.body, cfg.runnerId, e.choice, t);
  }

  /** A row this exchange hands out. */
  lemma {:induction false} DeliverKeepsNewRow(cfg: Config, srv: Endpoint, s: Sys, e: Event, t: TaskId)
    requires Wire(srv, s) && Rows(s) && Untouched(s) && e.Deliver? && Enabled(cfg, srv, s, e)
    requires e.body.sequence > s.server.cursor
    requires !Handed(s, t) && Handed(After(cfg, srv, s, e), t) && Pending(After(cfg, srv, s, e))
    ensures var s' := After(cfg, srv, s, e);
            && t in s'.server.rows && RowOk(s'.journal, t, s'.server.rows[t])
            && s'.server.rows[t].localVersion == Effective(s', t)
  {
    var s' := After(cfg, srv, s, e);
    AppliedRows(cfg, srv, s, e);
    PendingApplies(srv, s);
    ApplyPointwise(srv, s.server.rows, e.body.reports);
    ChoicePointwise(cfg.runnerId, ApplyReports(srv, s.server.rows, e.body.reports).value, e.choice);
    var a :| a in s'.answers && a.task.Some? && a.task.value.id == t;
    assert a == s'.server.answer.value;
  }

  lemma {:induction false} DeliverKeepsHanded(cfg: Config, srv: Endpoint, s: Sys, e: Event)
    requires Wire(srv, s) && Rows(s) && Untouched(s) && e.Deliver? && Enabled(cfg, srv, s, e)
    requires e.body.sequence > s.server.cursor
    ensures Rows(After(cfg, srv, s, e))
  {
    var s' := After(cfg, srv, s, e);
    forall t | Handed(s', t)
      ensures t in s'.server.rows && RowOk(s'.journal, t, s'.server.rows[t])
              && s'.server.rows[t].localVersion == Effective(s', t)
    {
      if Handed(s, t) { DeliverKeepsOldRow(cfg, srv, s, e, t); } else { DeliverKeepsNewRow(cfg, srv, s, e, t); }
    }
  }

  lemma {:induction false} DeliverKeepsUntouched(cfg: Config, srv: Endpoint, s: Sys, e: Event)
    requires Wire(srv, s) && Rows(s) && Untouched(s) && e.Deliver? && Enabled(cfg, srv, s, e)
    requires e.body.sequence > s.server.cursor
    ensures Untouched(After(cfg, srv, s, e))
  {
    var s' := After(cfg, srv, s, e);
    AppliedRows(cfg, srv, s, e);
    PendingApplies(srv, s);
    ApplyPointwise(srv, s.server.rows, e.body.reports);
    ChoicePointwise(cfg.runnerId, ApplyReports(srv, s.server.rows, e.body.reports).value, e.choice);
    forall t | t in s'.server.rows && !Handed(s', t)
      ensures s'.server.rows[t].localVersion == 0 && !Open(s'.server.rows[t])
    {
      assert !Handed(s, t);
      assert s'.server.answer.value in s'.answers;
    }
  }

  lemma {:induction false} DeliverKeepsRows(cfg: Config, srv: Endpoint, s: Sys, e: Event)
    requires Wire(srv, s) && Rows(s) && Untouched(s) && e.Deliver? && Enabled(cfg, srv, s, e)
    requires e.body.sequence > s.server.cursor
    ensures Rows(After(cfg, srv, s, e)) && Untouched(After(cfg, srv, s, e))
  {
    DeliverKeepsHanded(cfg, srv, s, e);
    DeliverKeepsUntouched(cfg, srv, s, e);
  }

  lemma {:induction false} PersistKeepsRows(cfg: Config, srv: Endpoint, s: Sys, e: Event)
    requires Wire(srv, s) && Rows(s) && Untouched(s) && e.Persist? && Enabled(cfg, srv, s, e)
    ensures Rows(After(cfg, srv, s, e)) && Untouched(After(cfg, srv, s, e))
  {
    var s' := After(cfg, srv, s, e);
    if s.edit.Received? {
      var known := WithTask(s.disk.known, s.edit.answer.task);
      forall t | t in known && t !in s.disk.known
        ensures Ack(known, s.disk.pending.value.reports)[t].reported == 0
      {
        AckIsLastReport(known, s.disk.pending.value.reports, t);
        UnreportedStays(s.disk.pending.value.reports, t, 0);
      }
    }
    forall t
      ensures Handed(s', t) <==> Handed(s, t)
    {
    }
    forall t | Handed(s', t)
      ensures Effective(s', t) == Effective(s, t)
    {
      if s.disk.pending.Some? && t in s.disk.known {
        AckIsLastReport(s.disk.known, s.disk.pending.value.reports, t);
        if s.edit.Received? {
          AckIsLastReport(WithTask(s.disk.known, s.edit.answer.task), s.disk.pending.value.reports, t);
        } else if s.edit.Executed? {
          AckIsLastReport(s'.disk.known, s.disk.pending.value.reports, t);
        }
      }
    }
  }

  lemma {:induction false} ConsoleKeepsRows(cfg: Config, srv: Endpoint, s: Sys, e: Event)
    requires Rows(s) && Untouched(s) && e.ConsoleMoves? && Enabled(cfg, srv, s, e)
    ensures Rows(After(cfg, srv, s, e)) && Untouched(After(cfg, srv, s, e))
  {
    var s' := After(cfg, srv, s, e);
    forall t
      ensures Handed(s', t) <==> Handed(s, t)
    {
    }
    forall t | Handed(s', t)
      ensures RowOk(s'.journal, t, s'.server.rows[t]) && s'.server.rows[t].localVersion == Effective(s', t)
    {
      assert RowMoves(s.server.rows[t], e.rows[t]);
    }
    forall t | t in s'.server.rows && !Handed(s', t)
      ensures s'.server.rows[t].localVersion == 0 && !Open(s'.server.rows[t])
    {
      assert t in s.server.rows ==> RowMoves(s.server.rows[t], e.rows[t]);
    }
  }

  lemma {:induction false} StepKeepsRows(cfg: Config, srv: Endpoint, s: Sys, e: Event)
    requires Wire(srv, s) && Rows(s) && Untouched(s) && Enabled(cfg, srv, s, e)
    ensures Rows(After(cfg, srv, s, e)) && Untouched(After(cfg, srv, s, e))
  {
    var s' := After(cfg, srv, s, e);
    match e {
      case Deliver(body, _) =>
        if body.sequence <= s.server.cursor {
          ReplayChangesNothing(cfg, srv, s, e);
        } else {
          DeliverKeepsRows(cfg, srv, s, e);
        }
      case Persist => PersistKeepsRows(cfg, srv, s, e);
      case ConsoleMoves(_) => ConsoleKeepsRows(cfg, srv, s, e);
      case JournalMoves(_) =>
        JournalKeepsRows(cfg, srv, s, e);
        assert forall t :: Handed(s', t) <==> Handed(s, t);
      case Build(_, _) =>
        BuildKeepsRows(cfg, srv, s, e);
        assert forall t :: Handed(s', t) <==> Handed(s, t);
      case _ =>
        assert forall t :: Handed(s', t) <==> Handed(s, t);
        assert forall t :: Handed(s', t) ==> Effective(s', t) == Effective(s, t);
    }
  }

  // ---------- The ledger: what `reported` means ----------

  /** The last version a batch reports for `t`, or `default`. */
  function LastReport(reports: seq<Report>, t: TaskId, default: nat): nat {
    if reports == [] then default
    else if reports[|reports| - 1].task == t then reports[|reports| - 1].version
    else LastReport(reports[..|reports| - 1], t, default)
  }

  /** The last version of `t` that Control applied, over a whole log of bodies. */
  function Ledger(log: seq<Body>, t: TaskId): nat {
    if log == [] then 0
    else LastReport(log[|log| - 1].reports, t, Ledger(log[..|log| - 1], t))
  }

  lemma {:induction false} AckIsLastReport(known: map<TaskId, Known>, reports: seq<Report>, t: TaskId)
    requires forall q :: q in reports ==> q.task in known
    requires t in known
    ensures Ack(known, reports)[t].reported == LastReport(reports, t, known[t].reported)
    decreases |reports|
  {
    if reports != [] {
      assert reports[|reports| - 1] in reports;
      AckIsLastReport(known, reports[..|reports| - 1], t);
    }
  }

  lemma {:induction false} UnreportedStays(reports: seq<Report>, t: TaskId, default: nat)
    requires forall q :: q in reports ==> q.task != t
    ensures LastReport(reports, t, default) == default
    decreases |reports|
  {
    if reports != [] {
      assert reports[|reports| - 1] in reports;
      UnreportedStays(reports[..|reports| - 1], t, default);
    }
  }

  predicate LogKnown(log: seq<Body>, known: map<TaskId, Known>) {
    forall b, q :: b in log && q in b.reports ==> q.task in known
  }

  lemma {:induction false} UnknownLedger(log: seq<Body>, known: map<TaskId, Known>, t: TaskId)
    requires LogKnown(log, known) && t !in known
    ensures Ledger(log, t) == 0
    decreases |log|
  {
    if log != [] {
      var n := |log| - 1;
      assert log[n] in log;
      assert LogKnown(log[..n], known);
      UnknownLedger(log[..n], known, t);
      UnreportedStays(log[n].reports, t, Ledger(log[..n], t));
    }
  }

  /** `reported` is a function of what Control applied, and of nothing else. */
  predicate Booked(s: Sys) {
    && s.disk.sequence <= |s.applied|
    && LogKnown(s.applied, s.disk.known)
    && forall t :: t in s.disk.known ==>
         s.disk.known[t].reported == Ledger(s.applied[..s.disk.sequence], t)
  }

  lemma {:induction false} PersistKeepsBooked(cfg: Config, srv: Endpoint, s: Sys, e: Event)
    requires Wire(srv, s) && Booked(s) && e.Persist? && Enabled(cfg, srv, s, e)
    ensures Booked(After(cfg, srv, s, e))
  {
    var s' := After(cfg, srv, s, e);
    if s.edit.Received? {
      var body := s.disk.pending.value;
      var known := WithTask(s.disk.known, s.edit.answer.task);
      var n := s.disk.sequence;
      assert s.applied[..n + 1] == s.applied[..n] + [body];
      assert s.applied[..n + 1][..n] == s.applied[..n];
      forall t | t in s'.disk.known
        ensures s'.disk.known[t].reported == Ledger(s'.applied[..s'.disk.sequence], t)
      {
        AckIsLastReport(known, body.reports, t);
        if t !in s.disk.known {
          assert LogKnown(s.applied[..n], s.disk.known);
          UnknownLedger(s.applied[..n], s.disk.known, t);
        }
      }
    }
  }

  lemma {:induction false} DeliverKeepsBooked(cfg: Config, srv: Endpoint, s: Sys, e: Event)
    requires Wire(srv, s) && Rows(s) && Booked(s) && e.Deliver? && Enabled(cfg, srv, s, e)
    ensures Booked(After(cfg, srv, s, e))
  {
    var s' := After(cfg, srv, s, e);
    assert Sent(s, e.body);
    assert s'.applied[..s.disk.sequence] == s.applied[..s.disk.sequence];
    if e.body.sequence > s.server.cursor {
      assert BodyOk(s.disk.known, s.journal, e.body);
    }
  }

  lemma {:induction false} StepKeepsBooked(cfg: Config, srv: Endpoint, s: Sys, e: Event)
    requires Wire(srv, s) && Rows(s) && Booked(s) && Enabled(cfg, srv, s, e)
    ensures Booked(After(cfg, srv, s, e))
  {
    match e {
      case Deliver(_, _) => DeliverKeepsBooked(cfg, srv, s, e);
      case Persist => PersistKeepsBooked(cfg, srv, s, e);
      case _ =>
    }
  }

  // ---------- Runs ----------

  ghost predicate Inv(srv: Endpoint, s: Sys) {
    Wire(srv, s) && Rows(s) && Untouched(s) && Booked(s)
  }

  ghost predicate Run(cfg: Config, srv: Endpoint, run: seq<Sys>, events: seq<Event>) {
    && |run| == |events| + 1
    && InitialOk(run[0])
    && forall i: nat :: i < |events| ==> Happens(cfg, srv, run, events, i)
  }

  ghost predicate Happens(cfg: Config, srv: Endpoint, run: seq<Sys>, events: seq<Event>, i: nat)
    requires |run| == |events| + 1 && i < |events|
  {
    Enabled(cfg, srv, run[i], events[i]) && run[i + 1] == After(cfg, srv, run[i], events[i])
  }

  lemma {:induction false} RunInv(cfg: Config, srv: Endpoint, run: seq<Sys>, events: seq<Event>, i: nat)
    requires Run(cfg, srv, run, events) && i < |run|
    ensures Inv(srv, run[i])
  {
    if i > 0 {
      RunInv(cfg, srv, run, events, i - 1);
      assert Happens(cfg, srv, run, events, i - 1);
      var s, e := run[i - 1], events[i - 1];
      StepKeepsWire(cfg, srv, s, e);
      StepKeepsRows(cfg, srv, s, e);
      StepKeepsBooked(cfg, srv, s, e);
    }
  }

  /** All bodies ever sent under one sequence number are the same body, and Control's
      cursor is the runner's durable sequence or one ahead of it, in which case the
      durable pending body is exactly the one applied last. */
  lemma {:induction false} OneBodyPerSequence(cfg: Config, srv: Endpoint, run: seq<Sys>, events: seq<Event>, i: nat)
    requires Run(cfg, srv, run, events) && i < |run|
    ensures forall b, c :: b in run[i].sent && c in run[i].sent && b.sequence == c.sequence ==> b == c
    ensures run[i].server.cursor == run[i].disk.sequence || run[i].server.cursor == run[i].disk.sequence + 1
    ensures run[i].server.cursor == run[i].disk.sequence + 1 ==>
              |run[i].applied| > 0 && run[i].disk.pending == Some(run[i].applied[|run[i].applied| - 1])
  {
    RunInv(cfg, srv, run, events, i);
    forall b, c | b in run[i].sent && c in run[i].sent && b.sequence == c.sequence
      ensures b == c
    {
      assert Sent(run[i], b) && Sent(run[i], c);
    }
  }

  /** Control applies the bodies 1, 2, 3, ... once each; what the runner believes was
      reported is exactly the last version in the applied bodies it knows of. */
  lemma {:induction false} NoBatchLostOrRepeated(cfg: Config, srv: Endpoint, run: seq<Sys>, events: seq<Event>, i: nat)
    requires Run(cfg, srv, run, events) && i < |run|
    ensures forall k :: 0 <= k < |run[i].applied| ==> run[i].applied[k].sequence == k + 1
    ensures run[i].disk.sequence <= |run[i].applied|
    ensures forall t :: t in run[i].disk.known ==>
              run[i].disk.known[t].reported == Ledger(run[i].applied[..run[i].disk.sequence], t)
  {
    RunInv(cfg, srv, run, events, i);
  }

  lemma {:induction false} SomeChoice(rows: map<TaskId, Row>) returns (c: Choice)
    ensures Offered(rows, c)
  {
    if t :| t in rows && Open(rows[t]) {
      c := Continue(t);
    } else if t :| t in rows && rows[t].status == Queued {
      c := AssignQueued(t);
    } else {
      c := Nothing;
    }
  }

  /** Control refuses the runner's pending body only for its shape: an applied one is answered
      with the stored answer, an unapplied one is accepted, with some assignment decision,
      exactly when it is well formed and its reports fit their tasks. It is never refused as
      replayed, unknown or terminal. */
  lemma {:induction false} PendingIsRefusedOnlyForShape(cfg: Config, srv: Endpoint, run: seq<Sys>, events: seq<Event>,
                                                        i: nat)
    returns (choice: Choice)
    requires Run(cfg, srv, run, events) && i < |run|
    requires run[i].disk.pending.Some?
    ensures var b, server := run[i].disk.pending.value, run[i].server;
            && (Exchanged(srv, cfg.runnerId, server, b, choice).Done? <==>
                  server.cursor > run[i].disk.sequence || (srv.shape(b) && AllFit(srv, server.rows, b.reports)))
            && (forall q :: q in b.reports && server.cursor == run[i].disk.sequence ==> Applicable(server.rows, q))
            && (forall c :: Exchanged(srv, cfg.runnerId, server, b, c).Refused? ==>
                  Exchanged(srv, cfg.runnerId, server, b, c).reason == Invalid)
  {
    RunInv(cfg, srv, run, events, i);
    var s := run[i];
    assert BodyOk(s.disk.known, s.journal, s.disk.pending.value);
    choice := Nothing;
    if s.server.cursor == s.disk.sequence {
      PendingApplies(srv, s);
      if ApplyReports(srv, s.server.rows, s.disk.pending.value.reports).Done? {
        choice := SomeChoice(ApplyReports(srv, s.server.rows, s.disk.pending.value.reports).value);
      }
    }
  }

  /** No report ever runs ahead of the record it describes, and a task Control holds as
      terminal is terminal, at that very version, in the local journal. */
  lemma {:induction false} ReportsFollowTheJournal(cfg: Config, srv: Endpoint, run: seq<Sys>, events: seq<Event>,
                                                   i: nat, t: TaskId)
    requires Run(cfg, srv, run, events) && i < |run|
    requires t in run[i].disk.known
    ensures run[i].disk.known[t].reported > 0 ==>
              t in run[i].journal && run[i].disk.known[t].reported <= run[i].journal[t].version
    ensures t in run[i].server.rows && run[i].server.rows[t].status.Live?
    ensures !Open(run[i].server.rows[t]) ==>
              && t in run[i].journal && !Unfinished(run[i].journal[t].status)
              && run[i].journal[t].version == run[i].server.rows[t].localVersion
  {
    RunInv(cfg, srv, run, events, i);
    var s := run[i];
    assert Handed(s, t);
    if s.disk.pending.Some? {
      AckPointwise(s.disk.known, s.disk.pending.value.reports);
      if q :| q in s.disk.pending.value.reports && q.task == t {
      }
    }
  }
}
