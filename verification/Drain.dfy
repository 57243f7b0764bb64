/** How outstanding reports drain. Once the task records stop changing, every exchange the
    runner completes acknowledges sixteen more of them, in every run of the exchange: with
    crashes, resends, assignments and the writes of `execute_assigned` in between. */
module ReportDrain {
  import opened Records
  import opened Exchange
  import opened ExchangeRuns

  // ---------- One batch ----------

  function Unreported(known: map<TaskId, Known>, j: Journal): set<TaskId> {
    set t | t in known && Outstanding(t, known, j)
  }

  function TasksOf(reports: seq<Report>): set<TaskId> {
    set q | q in reports :: q.task
  }

  lemma {:induction false} TasksOfSize(reports: seq<Report>)
    requires DistinctTasks(reports)
    ensures |TasksOf(reports)| == |reports|
    decreases |reports|
  {
    if reports != [] {
      var n := |reports| - 1;
      TasksOfSize(reports[..n]);
      assert reports == reports[..n] + [reports[n]];
      assert TasksOf(reports) == TasksOf(reports[..n]) + {reports[n].task};
    }
  }

  lemma {:induction false} DueCoversOrder(order: seq<TaskId>, known: map<TaskId, Known>, j: Journal, t: TaskId)
    requires t in order && Outstanding(t, known, j)
    ensures PublicReport(j[t]) in Due(order, known, j)
    decreases |order|
  {
    var n := |order| - 1;
    if t != order[n] {
      assert order == order[..n] + [order[n]];
      DueCoversOrder(order[..n], known, j, t);
    }
  }

  /** `order` is one iteration of the `known` dictionary. */
  ghost predicate Iterates(order: seq<TaskId>, known: map<TaskId, Known>) {
    && Distinct(order)
    && forall t :: t in order <==> t in known
  }

  lemma {:induction false} DueIsUnreported(order: seq<TaskId>, known: map<TaskId, Known>, j: Journal)
    requires Keyed(j) && Iterates(order, known)
    ensures TasksOf(Due(order, known, j)) == Unreported(known, j)
    ensures |Due(order, known, j)| == |Unreported(known, j)|
  {
    DueReports(order, known, j);
    forall t | t in Unreported(known, j)
      ensures t in TasksOf(Due(order, known, j))
    {
      DueCoversOrder(order, known, j, t);
      assert PublicReport(j[t]).task == t;
    }
    TasksOfSize(Due(order, known, j));
  }

  /** Acknowledging reports of current versions removes exactly their tasks. */
  lemma {:induction false} AckRemoves(known: map<TaskId, Known>, j: Journal, reports: seq<Report>)
    requires DistinctTasks(reports)
    requires forall q :: q in reports ==>
               q.task in known && Outstanding(q.task, known, j) && q.version == j[q.task].version
    ensures Unreported(Ack(known, reports), j) == Unreported(known, j) - TasksOf(reports)
    ensures |Unreported(Ack(known, reports), j)| == |Unreported(known, j)| - |reports|
  {
    AckPointwise(known, reports);
    var known' := Ack(known, reports);
    forall t
      ensures t in Unreported(known', j) <==> t in Unreported(known, j) - TasksOf(reports)
    {
      if t in TasksOf(reports) {
        var q :| q in reports && q.task == t;
      } else {
        assert forall q :: q in reports ==> q.task != t;
      }
    }
    assert TasksOf(reports) <= Unreported(known, j);
    TasksOfSize(reports);
  }

  /** A batch of current reports, as large as it can be. */
  predicate FullBatch(known: map<TaskId, Known>, j: Journal, reports: seq<Report>) {
    && DistinctTasks(reports)
    && (forall q :: q in reports ==> Outstanding(q.task, known, j) && q.version == j[q.task].version)
    && |reports| == if |Unreported(known, j)| <= BATCH then |Unreported(known, j)| else BATCH
  }

  /** `next_body` reports min(16, k) of the k outstanding records, whatever the iteration order. */
  lemma {:induction false} NextBodyIsFull(cfg: Config, s: RunnerState, order: seq<TaskId>, j: Journal,
                                          preview: Option<string>)
    requires Keyed(j) && Iterates(order, s.known)
    ensures FullBatch(s.known, j, NextBody(cfg, s, order, j, preview).reports)
  {
    DueReports(order, s.known, j);
    DueIsUnreported(order, s.known, j);
    var due := Due(order, s.known, j);
    assert forall q :: q in Batch(due) ==> q in due;
  }

  /** A newly assigned task adds nothing to report unless it already has a record. */
  predicate NothingToAdd(known: map<TaskId, Known>, j: Journal, a: Response) {
    a.task.Some? ==> a.task.value.id in known || a.task.value.id !in j
  }

  /** One accepted exchange acknowledges min(16, k) of the k outstanding records and no others. */
  lemma {:induction false} ExchangeDrains(s: RunnerState, j: Journal, a: Response)
    requires s.pending.Some? && FullBatch(s.known, j, s.pending.value.reports) && NothingToAdd(s.known, j, a)
    ensures forall q :: q in s.pending.value.reports ==> q.task in s.known
    ensures Unreported(Accepted(s, a).known, j) == Unreported(s.known, j) - TasksOf(s.pending.value.reports)
    ensures |Unreported(Accepted(s, a).known, j)| == Less16(|Unreported(s.known, j)|)
  {
    var known := WithTask(s.known, a.task);
    assert Unreported(known, j) == Unreported(s.known, j);
    AckRemoves(known, j, s.pending.value.reports);
  }

  function Less16(k: nat): nat {
    if k <= BATCH then 0 else k - BATCH
  }

  /** What `execute_assigned` writes leaves the outstanding reports alone. */
  lemma {:induction false} ExecuteKeepsUnreported(s: RunnerState, task: Option<Task>, known: map<TaskId, Known>,
                                                  j: Journal)
    requires ExecuteMoves(s, task, known)
    ensures Unreported(known, j) == Unreported(s.known, j)
    ensures forall t :: Outstanding(t, known, j) <==> Outstanding(t, s.known, j)
  {
  }

  // ---------- Runs with the records at rest ----------

  /** The step does not touch the records, a body is built from one iteration of the known
      tasks, and no task with a record is assigned that the runner did not know. */
  ghost predicate Rests(s: Sys, e: Event, j: Journal) {
    && s.journal == j
    && (e.JournalMoves? ==> e.journal == j)
    && (e.Build? && s.mem.Some? ==> Iterates(e.order, s.mem.value.known))
    && (e.Receive? ==> NothingToAdd(s.disk.known, j, e.answer))
  }

  ghost predicate AtRest(run: seq<Sys>, events: seq<Event>, j: Journal, first: nat, last: nat)
    requires |run| == |events| + 1 && first <= last < |run|
  {
    && run[last].journal == j
    && forall i :: first <= i < last ==> Rests(run[i], events[i], j)
  }

  /** The durable write that completes an exchange. */
  predicate Completes(s: Sys, e: Event) {
    e.Persist? && s.mem.Some? && s.edit.Received?
  }

  function Completed(run: seq<Sys>, events: seq<Event>, first: nat, last: nat): nat
    requires |run| == |events| + 1 && first <= last < |run|
    decreases last
  {
    if last == first then 0
    else Completed(run, events, first, last - 1) + if Completes(run[last - 1], events[last - 1]) then 1 else 0
  }

  /** What holds while draining, with `m` records outstanding. */
  ghost predicate Draining(s: Sys, j: Journal, m: nat) {
    && s.journal == j && Keyed(j)
    && |Unreported(s.disk.known, j)| == m
    && (s.disk.pending.Some? ==> FullBatch(s.disk.known, j, s.disk.pending.value.reports))
    && (s.mem.Some? && s.edit.Built? && s.mem.value.pending.Some? ==>
          FullBatch(s.disk.known, j, s.mem.value.pending.value.reports))
    && (s.mem.Some? && s.edit.Received? ==> NothingToAdd(s.disk.known, j, s.edit.answer))
  }

  lemma {:induction false} PersistDrains(cfg: Config, srv: Endpoint, s: Sys, e: Event, j: Journal, m: nat)
    requires Wire(srv, s) && Enabled(cfg, srv, s, e) && e.Persist? && Draining(s, j, m)
    ensures Draining(After(cfg, srv, s, e), j, if Completes(s, e) then Less16(m) else m)
  {
    match s.edit {
      case Received(a) => ExchangeDrains(s.disk, j, a);
      case Executed => ExecuteKeepsUnreported(s.disk, s.mem.value.task, s.mem.value.known, j);
      case _ =>
    }
  }

  lemma {:induction false} BuildDrains(cfg: Config, srv: Endpoint, s: Sys, e: Event, j: Journal, m: nat)
    requires Wire(srv, s) && Enabled(cfg, srv, s, e) && e.Build? && Rests(s, e, j) && Draining(s, j, m)
    ensures Draining(After(cfg, srv, s, e), j, m)
  {
    NextBodyIsFull(cfg, s.mem.value, e.order, j, e.preview);
  }

  lemma {:induction false} StepDrains(cfg: Config, srv: Endpoint, s: Sys, e: Event, j: Journal, m: nat)
    requires Wire(srv, s) && Enabled(cfg, srv, s, e) && Rests(s, e, j) && Draining(s, j, m)
    ensures Draining(After(cfg, srv, s, e), j, if Completes(s, e) then Less16(m) else m)
  {
    if e.Persist? {
      PersistDrains(cfg, srv, s, e, j, m);
    } else if e.Build? {
      BuildDrains(cfg, srv, s, e, j, m);
    }
  }

  /** No body is on its way and none is being built. */
  predicate NothingPending(s: Sys) {
    s.disk.pending.None? && (s.mem.Some? ==> !s.edit.Built?)
  }

  function Remaining(k: nat, n: nat): nat {
    if k <= BATCH * n then 0 else k - BATCH * n
  }

  /** In every run whose records are at rest from a moment without a pending exchange, n
      completed exchanges leave max(0, k - 16 n) of the k outstanding records. */
  lemma {:induction false} DrainCount(cfg: Config, srv: Endpoint, run: seq<Sys>, events: seq<Event>, j: Journal,
                                      first: nat, last: nat)
    requires Run(cfg, srv, run, events) && first <= last < |run| && AtRest(run, events, j, first, last)
    requires NothingPending(run[first])
    ensures Draining(run[last], j, Remaining(|Unreported(run[first].disk.known, j)|,
                                             Completed(run, events, first, last)))
    decreases last
  {
    if last == first {
      RunInv(cfg, srv, run, events, first);
    } else {
      assert Rests(run[last - 1], events[last - 1], j);
      DrainCount(cfg, srv, run, events, j, first, last - 1);
      RunInv(cfg, srv, run, events, last - 1);
      assert Happens(cfg, srv, run, events, last - 1);
      StepDrains(cfg, srv, run[last - 1], events[last - 1], j,
                 Remaining(|Unreported(run[first].disk.known, j)|, Completed(run, events, first, last - 1)));
    }
  }

  function Ceil16(k: nat): nat {
    (k + BATCH - 1) / BATCH
  }

  /** With the records at rest, k outstanding ones are all acknowledged after exactly
      ceil(k / 16) completed exchanges: not one earlier, and never outstanding again. */
  lemma {:induction false} DrainsInCeilSixteenths(cfg: Config, srv: Endpoint, run: seq<Sys>, events: seq<Event>,
                                                  j: Journal, first: nat, last: nat)
    requires Run(cfg, srv, run, events) && first <= last < |run| && AtRest(run, events, j, first, last)
    requires NothingPending(run[first])
    ensures Unreported(run[last].disk.known, j) == {} <==>
              Completed(run, events, first, last) >= Ceil16(|Unreported(run[first].disk.known, j)|)
  {
    DrainCount(cfg, srv, run, events, j, first, last);
    assert Unreported(run[last].disk.known, j) == {} <==> |Unreported(run[last].disk.known, j)| == 0;
  }
}
