/** The runner's record as the source keeps it: one object whose fields `next_body`,
    `accept_response` and `execute_assigned` read and change in place, with every
    durable write recorded. Each method is proved against the value-level functions of
    `Exchange`; the drain of outstanding reports is proved on those. */
module RunnerProcess {
  import opened Records
  import opened Exchange
  import ExchangeRuns

  /** How `backend(profile).execute` and the refusal record that may follow it end. */
  datatype ExecuteOutcome = Entered | LockRefused | RefusedRecorded | RefusedUnrecorded

  /** What `execute_assigned` finds: a local journal entry, or none. */
  datatype Situation =
    | JournalPresent(bound: bool, recovered: bool)
    | JournalAbsent(outcome: ExecuteOutcome)

  function WithStarted(s: RunnerState, id: TaskId, started: bool): RunnerState
    requires id in s.known
  {
    s.(known := s.known[id := s.known[id].(started := started)])
  }

  /** Every durable record `execute_assigned` leaves behind, in order. */
  function ExecuteWrites(s: RunnerState, sit: Situation): seq<RunnerState>
    requires s.task.Some? ==> s.task.value.id in s.known
  {
    if s.task.None? then []
    else
      var id := s.task.value.id;
      match sit
      case JournalPresent(bound, recovered) => if bound && recovered then [s.(task := None)] else []
      case JournalAbsent(outcome) =>
        if s.known[id].started then []
        else
          var marked := WithStarted(s, id, true);
          [marked] + match outcome {
            case Entered => [marked.(task := None)]
            case RefusedRecorded => [marked.(task := None)]
            case LockRefused => [WithStarted(marked, id, false)]
            case RefusedUnrecorded => []
          }
  }

  class Runner {
    var sequence: nat
    var pending: Option<Body>
    var task: Option<Task>
    var known: map<TaskId, Known>
    ghost var writes: seq<RunnerState>

    ghost function State(): RunnerState
      reads this
    {
      RunnerState(sequence, pending, task, known)
    }

    /** `serve` on a fresh workspace: the empty record is durable before anything else. */
    constructor ()
      ensures State() == RunnerState(0, None, None, map[])
      ensures writes == [State()]
    {
      sequence, pending, task, known := 0, None, None, map[];
      writes := [RunnerState(0, None, None, map[])];
    }

    /** `write_json(state_path, state, replace=True)`. */
    method Write()
      modifies this`writes
      ensures writes == old(writes) + [State()]
    {
      writes := writes + [State()];
    }

    method NextReports(order: seq<TaskId>, j: Journal) returns (reports: seq<Report>)
      requires forall t :: t in order ==> t in known
      ensures reports == Batch(Due(order, known, j))
    {
      reports := [];
      var i := 0;
      while i < |order|
        invariant 0 <= i <= |order|
        invariant reports == Due(order[..i], known, j)
        invariant |reports| < BATCH
      {
        var id := order[i];
        assert id in order;
        assert order[..i + 1][..i] == order[..i];
        if id in j && j[id].version > known[id].reported {
          reports := reports + [PublicReport(j[id])];
        }
        i := i + 1;
        if |reports| == BATCH {
          DuePrefix(order, known, j, i);
          return;
        }
      }
      assert order[..i] == order;
    }

    /** The `pending is None` branch of `serve`. */
    method BuildPending(cfg: Config, order: seq<TaskId>, j: Journal, preview: Option<string>)
      requires forall t :: t in order ==> t in known
      requires pending.None?
      modifies this`pending, this`writes
      ensures State() == old(State()).(pending := Some(NextBody(cfg, old(State()), order, j, preview)))
      ensures writes == old(writes) + [State()]
    {
      var reports := NextReports(order, j);
      pending := Some(Body(sequence + 1, cfg.profileDigest, preview, reports));
      Write();
    }

    /** The acknowledgement loop of `accept_response`. */
    method Acknowledge(reports: seq<Report>)
      requires forall q :: q in reports ==> q.task in known
      modifies this`known
      ensures known == Ack(old(known), reports)
    {
      for i := 0 to |reports|
        invariant known == Ack(old(known), reports[..i])
      {
        assert reports[i] in reports;
        assert reports[..i + 1][..i] == reports[..i];
        known := known[reports[i].task := known[reports[i].task].(reported := reports[i].version)];
      }
      assert reports[..|reports|] == reports;
    }

    /** `accept_response` and the write that follows it; a mismatched answer changes nothing. */
    method AcceptResponse(cfg: Config, answer: Response) returns (ok: bool)
      requires pending.Some?
      requires forall q :: q in pending.value.reports ==> q.task in known
      modifies this
      ensures ok <==> ResponseOk(cfg, old(State()), answer)
      ensures ok ==> State() == Accepted(old(State()), answer) && writes == old(writes) + [State()]
      ensures !ok ==> State() == old(State()) && writes == old(writes)
    {
      if answer.sequence != pending.value.sequence { return false; }
      if answer.task.Some? {
        if !Acceptable(cfg, answer.task.value) { return false; }
        if answer.task.value.id !in known {
          known := known[answer.task.value.id := Known(0, false)];
        }
      }
      Acknowledge(pending.value.reports);
      sequence, pending, task := pending.value.sequence, None, answer.task;
      Write();
      return true;
    }

    /** `execute_assigned`; `raised` is an ArchiveError leaving the function. */
    method ExecuteAssigned(sit: Situation) returns (raised: bool)
      requires task.Some? ==> task.value.id in known
      modifies this`task, this`known, this`writes
      ensures writes == old(writes) + ExecuteWrites(old(State()), sit)
      ensures State() == (if ExecuteWrites(old(State()), sit) == [] then old(State())
                          else ExecuteWrites(old(State()), sit)[|ExecuteWrites(old(State()), sit)| - 1])
      ensures raised <==>
                && old(task).Some?
                && (match sit
                    case JournalPresent(bound, recovered) => !(bound && recovered)
                    case JournalAbsent(outcome) => old(known)[old(task).value.id].started || outcome.RefusedUnrecorded?)
    {
      if task.None? { return false; }
      var id := task.value.id;
      if sit.JournalPresent? {
        if !sit.bound || !sit.recovered { return true; }
        task := None;
        Write();
        return false;
      }
      if known[id].started { return true; }
      known := known[id := known[id].(started := true)];
      Write();
      match sit.outcome {
        case LockRefused =>
          known := known[id := known[id].(started := false)];
          Write();
          return false;
        case RefusedUnrecorded =>
          return true;
        case Entered =>
        case RefusedRecorded =>
      }
      task := None;
      Write();
      return false;
    }
  }

  /** Every write of `execute_assigned` is an `Execute` event of the exchange system, `started`
      is durable before the outcome is known, and only a refused lock takes it back. */
  lemma {:induction false} ExecuteWritesAreMoves(s: RunnerState, sit: Situation)
    requires s.task.Some? ==> s.task.value.id in s.known
    ensures var w := [s] + ExecuteWrites(s, sit);
            forall k :: 0 <= k < |w| - 1 ==>
              ExchangeRuns.ExecuteMoves(w[k], w[k + 1].task, w[k + 1].known)
              && w[k + 1] == w[k].(task := w[k + 1].task, known := w[k + 1].known)
    ensures sit.JournalAbsent? && ExecuteWrites(s, sit) != [] ==>
              && ExecuteWrites(s, sit)[0].known[s.task.value.id].started
              && (ExecuteWrites(s, sit)[|ExecuteWrites(s, sit)| - 1].known[s.task.value.id].started <==>
                    !sit.outcome.LockRefused?)
    ensures sit == JournalAbsent(LockRefused) && ExecuteWrites(s, sit) != [] ==>
              ExecuteWrites(s, sit)[1] == s
  {
  }

  lemma {:induction false} DuePrefix(order: seq<TaskId>, known: map<TaskId, Known>, j: Journal, n: nat)
    requires n <= |order|
    ensures Due(order[..n], known, j) <= Due(order, known, j)
    decreases |order|
  {
    if n < |order| {
      var m := |order| - 1;
      DuePrefix(order[..m], known, j, n);
      assert order[..m][..n] == order[..n];
    } else {
      assert order[..n] == order;
    }
  }
}
