/** Who may enter the effectful body of `execute`, and how often. The runner, which may
    crash at any point, competes with local operators for one operation lock; the task
    journal may even lose a record. Steps over-approximate the source where it can only
    refuse (stale previews, expired start windows, other unfinished tasks). */
module TaskEntry {
  import opened Records

  /** The runner inside `execute_assigned`. */
  datatype Pc =
    | Down
    | Idle
    | Marked(id: TaskId)      // `started` is durable, the lock not yet asked for
    | Turned(id: TaskId)      // the lock was refused
    | Locked(id: TaskId)      // in `execute`, before `begin`
    | Inside(id: TaskId)      // past `begin`: effects happen here
    | Refused(id: TaskId)     // an ArchiveError left `execute`
    | Recording(id: TaskId)   // writing the refusal record under the lock
    | Done(id: TaskId)        // about to clear the assignment

  datatype Lock = Free | Mine | Operator(id: TaskId, inside: bool)

  datatype Sys = Sys(
    assignment: Option<TaskId>,        // durable
    started: set<TaskId>,              // durable `started` flags
    pc: Pc,
    lock: Lock,
    journal: set<TaskId>,              // tasks with a record
    mine: map<TaskId, nat>,            // entries made by the runner
    theirs: map<TaskId, nat>,          // entries made by operators
    lost: map<TaskId, nat>)            // records lost so far

  function Count(m: map<TaskId, nat>, id: TaskId): nat {
    if id in m then m[id] else 0
  }

  function Add(m: map<TaskId, nat>, id: TaskId): map<TaskId, nat> {
    m[id := Count(m, id) + 1]
  }

  function Initial(journal: set<TaskId>): Sys {
    Sys(None, {}, Down, Free, journal, map[], map[], map[])
  }

  datatype Event =
    | Crash | Boot
    | Assign(task: TaskId)          // an accepted response, first or repeated
    | Adopt                         // a record exists: recover it and clear the assignment
    | Mark | Ask | TakeBack | Expire
    | Present | Refuse | Enter | Leave
    | AskToRecord | Record | GiveUp | Clear
    | OperatorLocks(task: TaskId) | OperatorEnters | OperatorLeaves
    | Lose(task: TaskId)

  predicate Enabled(s: Sys, e: Event) {
    match e
    case Crash => true
    case Boot => s.pc.Down?
    case Assign(_) => s.pc.Idle?
    case Adopt => s.pc.Idle? && s.assignment.Some? && s.assignment.value in s.journal
    case Mark => s.pc.Idle? && s.assignment.Some? && s.assignment.value !in s.journal
      && s.assignment.value !in s.started
    case Ask => s.pc.Marked?
    case TakeBack => s.pc.Turned?
    case Expire => s.pc.Marked?
    case Present => s.pc.Locked? && s.pc.id in s.journal
    case Refuse => s.pc.Locked?
    case Enter => s.pc.Locked? && s.pc.id !in s.journal
    case Leave => s.pc.Inside?
    case AskToRecord => s.pc.Refused?
    case Record => s.pc.Recording?
    case GiveUp => s.pc.Recording? && s.pc.id !in s.journal
    case Clear => s.pc.Done?
    case OperatorLocks(_) => s.lock.Free?
    case OperatorEnters => s.lock.Operator? && !s.lock.inside && s.lock.id !in s.journal
    case OperatorLeaves => s.lock.Operator?
    case Lose(t) => t in s.journal
  }

  function After(s: Sys, e: Event): Sys
    requires Enabled(s, e)
  {
    match e
    case Crash => s.(pc := Down, lock := if s.lock.Mine? then Free else s.lock)
    case Boot => s.(pc := Idle)
    case Assign(t) => s.(assignment := Some(t))
    case Adopt => s.(assignment := None)
    case Mark => s.(started := s.started + {s.assignment.value}, pc := Marked(s.assignment.value))
    case Ask => if s.lock.Free? then s.(lock := Mine, pc := Locked(s.pc.id)) else s.(pc := Turned(s.pc.id))
    case TakeBack => s.(started := s.started - {s.pc.id}, pc := Idle)
    case Expire => s.(pc := Refused(s.pc.id))
    case Present => s.(lock := Free, pc := Done(s.pc.id))
    case Refuse => s.(lock := Free, pc := Refused(s.pc.id))
    case Enter => s.(journal := s.journal + {s.pc.id}, mine := Add(s.mine, s.pc.id), pc := Inside(s.pc.id))
    case Leave => s.(lock := Free, pc := Done(s.pc.id))
    case AskToRecord => if s.lock.Free? then s.(lock := Mine, pc := Recording(s.pc.id)) else s.(pc := Idle)
    case Record => s.(journal := s.journal + {s.pc.id}, lock := Free, pc := Done(s.pc.id))
    case GiveUp => s.(lock := Free, pc := Idle)
    case Clear => s.(assignment := None, pc := Idle)
    case OperatorLocks(t) => s.(lock := Operator(t, false))
    case OperatorEnters =>
      s.(lock := Operator(s.lock.id, true), journal := s.journal + {s.lock.id}, theirs := Add(s.theirs, s.lock.id))
    case OperatorLeaves => s.(lock := Free)
    case Lose(t) => s.(journal := s.journal - {t}, lost := Add(s.lost, t))
  }

  // ---------- What every step keeps ----------

  /** The runner holds the lock exactly while it is between taking and releasing it. */
  predicate Exclusion(s: Sys) {
    s.lock.Mine? <==> s.pc.Locked? || s.pc.Inside? || s.pc.Recording?
  }

  /** `started` is durable before entry, and is never taken back after one. */
  ghost predicate Fenced(s: Sys) {
    && (forall t :: Count(s.mine, t) > 0 ==> t in s.started)
    && (s.pc.Marked? || s.pc.Turned? || s.pc.Locked? || s.pc.Inside? ==> s.pc.id in s.started)
    && (s.pc.Marked? || s.pc.Turned? || s.pc.Locked? ==> Count(s.mine, s.pc.id) == 0)
    && (forall t :: Count(s.mine, t) <= 1)
  }

  /** Each entry left a record, so entries are bounded by records present and lost. */
  ghost predicate Accounted(s: Sys) {
    forall t :: Count(s.mine, t) + Count(s.theirs, t) <= Count(s.lost, t) + (if t in s.journal then 1 else 0)
  }

  ghost predicate Inv(s: Sys) {
    Exclusion(s) && Fenced(s) && Accounted(s)
  }

  lemma {:induction false} StepKeepsFenced(s: Sys, e: Event)
    requires Fenced(s) && Enabled(s, e)
    ensures Fenced(After(s, e))
  {
  }

  lemma {:induction false} StepKeepsAccounted(s: Sys, e: Event)
    requires Accounted(s) && Enabled(s, e)
    ensures Accounted(After(s, e))
  {
  }

  ghost predicate Run(run: seq<Sys>, events: seq<Event>) {
    && |run| == |events| + 1
    && run[0] == Initial(run[0].journal)
    && forall i: nat :: i < |events| ==> Happens(run, events, i)
  }

  ghost predicate Happens(run: seq<Sys>, events: seq<Event>, i: nat)
    requires |run| == |events| + 1 && i < |events|
  {
    Enabled(run[i], events[i]) && run[i + 1] == After(run[i], events[i])
  }

  lemma {:induction false} RunInv(run: seq<Sys>, events: seq<Event>, i: nat)
    requires Run(run, events) && i < |run|
    ensures Inv(run[i])
  {
    if i > 0 {
      RunInv(run, events, i - 1);
      assert Happens(run, events, i - 1);
      StepKeepsFenced(run[i - 1], events[i - 1]);
      StepKeepsAccounted(run[i - 1], events[i - 1]);
    }
  }

  /** Over every crash, redelivery and interleaving with operators, the runner enters a
      task at most once, even if its record is lost; and while records are not lost,
      nobody enters a task twice. */
  lemma {:induction false} EnteredAtMostOnce(run: seq<Sys>, events: seq<Event>, i: nat, t: TaskId)
    requires Run(run, events) && i < |run|
    ensures Count(run[i].mine, t) <= 1
    ensures Count(run[i].mine, t) == 1 ==> t in run[i].started
    ensures Count(run[i].mine, t) + Count(run[i].theirs, t) <= 1 + Count(run[i].lost, t)
    ensures Count(run[i].lost, t) == 0 && Count(run[i].mine, t) + Count(run[i].theirs, t) == 1 ==> t in run[i].journal
  {
    RunInv(run, events, i);
  }

  /** At most one process is past `begin` at any moment. */
  lemma {:induction false} BodiesExclude(run: seq<Sys>, events: seq<Event>, i: nat)
    requires Run(run, events) && i < |run|
    ensures !(run[i].pc.Inside? && run[i].lock.Operator?)
  {
    RunInv(run, events, i);
  }

  /** `started` goes away in exactly one kind of step, the one that follows a refused
      lock, and then no entry had happened. */
  lemma {:induction false} OnlyARefusedLockUnmarks(run: seq<Sys>, events: seq<Event>, i: nat, t: TaskId)
    requires Run(run, events) && i < |events|
    requires t in run[i].started && t !in run[i + 1].started
    ensures events[i].TakeBack? && run[i].pc == Turned(t) && Count(run[i].mine, t) == 0
  {
    RunInv(run, events, i);
    assert Happens(run, events, i);
  }
}
