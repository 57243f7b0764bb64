/** Every run of native upgrade tasks and their repairs: each read, each durable write and
    each updater invocation is a separate step, a crash may fall between any two of them,
    and the updater (or anyone using it) may change its journals and binaries at any time. */
module NativeRuns {
  import opened Records
  import opened Native
  import J = JournalDiscipline

  /** The one process holding the operation lock, and what it has read so far; times are
      indices into the history of updater states. */
  datatype Proc =
    | Idle
    | Checked(id: TaskId, p: Profile, preview: Digest, at: nat, pred: Option<Supersedes>)
    | Begun(id: TaskId, p: Profile, at: nat, pred: Option<Supersedes>)
    | Applying(id: TaskId, p: Profile, executing: bool)
    | Testing(id: TaskId, p: Profile, executing: bool)            // observe, before the updater lock test
    | Reading(id: TaskId, p: Profile, executing: bool)            // the lock was free
    | NotOwned(id: TaskId, p: Profile, executing: bool, at: nat)
    | Owned(id: TaskId, p: Profile, executing: bool, at: nat)
    | Approved(id: TaskId, p: Profile, executing: bool, at: nat, retained: nat)
    | Settled(id: TaskId, p: Profile, executing: bool, at: nat)   // reconcile returned
    | Measured(id: TaskId, p: Profile, executing: bool, at: nat, measured: nat)
    | Deciding(id: TaskId, p: Profile, force: bool)
    | Claiming(id: TaskId, p: Profile)                            // recovery wanted, updater lock free
    | Claimed(id: TaskId, p: Profile, force: bool)
    | Invoked(id: TaskId, p: Profile)
    | Elsewhere(id: TaskId)                                       // backup, restore or a refusal record

  /** Why a record may say what it says. */
  datatype Evidence = NoEvidence | Seen(p: Profile, at: nat, measured: nat)
  datatype Approval = NotApproved | Approval(repair: TaskId, p: Profile, owned: nat, retained: nat)
  datatype Note = Note(born: nat, evidence: Evidence, approval: Approval,
                       raises: nat, invocations: nat, crashes: nat, forced: nat)

  datatype Sys = Sys(j: J.State, past: seq<Updater>, proc: Proc, notes: map<TaskId, Note>)
  {
    function Now(): nat { if |past| > 0 then |past| - 1 else 0 }
    predicate Has(id: TaskId) { id in j.journal && id in notes && id in j.contents }
  }

  function U(s: Sys): Updater
    requires |s.past| > 0
  {
    s.past[|s.past| - 1]
  }

  // ---------- Durable writes ----------

  datatype Write = NoWrite | Save(r: Record) | Create(r: Record, admission: J.Admission)

  function ObservationWrite(r: Record, o: Observation): Write {
    if SaveObservation(r, o) == r then NoWrite else Save(SaveObservation(r, o))
  }

  function AdmissionOf(s: Sys, pred: Option<Supersedes>): J.Admission
    requires pred.Some? ==> pred.value.id in s.j.journal
  {
    if pred.None? then J.Plain else J.Repair(s.j.journal[pred.value.id])
  }

  function Written(j: J.State, w: Write): J.State
    requires w.Save? ==> w.r.id in j.contents
  {
    match w
    case NoWrite => j
    case Save(r) => j.(journal := j.journal[r.id := r], contents := j.contents[r.id := j.contents[r.id] + [r]])
    case Create(r, a) =>
      J.State(j.journal[r.id := r], j.births + [r.id], j.admissions[r.id := a], j.contents[r.id := [r]])
  }

  // ---------- Events ----------

  datatype Event =
    | Crash
    | UpdaterMoves(u: Updater)
    | Check(id: TaskId, p: Profile, preview: Digest, pred: Option<Supersedes>)
    | Begin | Refuse | Start | Apply
    | Test | Read | WriteForeign
    | NoPredecessor | ReadRetained | Supersede | Measure | WriteOwn
    | Raise
    | Recover(id: TaskId, p: Profile, force: bool, generation: nat)
    | Decide | Claim | Invoke | Complete
    | OtherBegin(r: Record) | OtherResume(id: TaskId) | OtherSave(r: Record) | OtherLeave

  /** The record the process reads and rewrites is there. */
  predicate Filed(s: Sys, id: TaskId) {
    s.Has(id) && s.j.journal[id].id == id
  }

  /** The record `recover` goes on with: this profile's, native and unfinished. */
  predicate Holding(s: Sys, id: TaskId, p: Profile) {
    && Filed(s, id)
    && Unfinished(s.j.journal[id].status)
    && s.j.journal[id].request.NativeUpgrade?
    && s.j.journal[id].profileDigest == p.digest
  }

  predicate Raising(proc: Proc) {
    proc.Applying? || proc.Testing? || proc.Reading? || proc.NotOwned? || proc.Owned? || proc.Approved?
      || proc.Settled? || proc.Measured?
  }

  /** Other operations leave the native fields alone; a native refusal record only ever fails. */
  predicate OtherRewrites(was: Record, r: Record) {
    && J.Rewrites(was, r)
    && r.beforeJournal == was.beforeJournal && r.nativeRole == was.nativeRole && r.supersedes == was.supersedes
    && r.supersededBy == was.supersededBy
    && r.requestedRecovery == was.requestedRecovery && r.completedRecovery == was.completedRecovery
    && (was.request.NativeUpgrade? ==> r.status == Failed && r.errorCode == Some("local_preflight_failed"))
  }

  predicate Enabled(h: Hashes, s: Sys, e: Event)
    requires |s.past| > 0
  {
    match e
    case Crash => true
    case UpdaterMoves(_) => true
    case Check(id, p, preview, pred) =>
      s.proc.Idle? && id !in s.j.journal && h.profile(p.digest) == p
      && IsPredecessor(h, p, s.j.journal, CliTransaction(U(s), p.role), pred)
    case Begin => s.proc.Checked? && (s.proc.pred.Some? ==> s.proc.pred.value.id in s.j.journal)
                  && J.MayBegin(s.j.journal, s.proc.id, AdmissionOf(s, s.proc.pred))
    case Refuse => s.proc.Checked? || s.proc.Claiming?
    case Start => s.proc.Begun? && Filed(s, s.proc.id) && s.proc.at < |s.past|
    case Apply => s.proc.Applying?
    case Test => s.proc.Testing? && Filed(s, s.proc.id)
    case Read => s.proc.Reading? && Filed(s, s.proc.id)
    case WriteForeign => s.proc.NotOwned? && Filed(s, s.proc.id) && s.proc.at < |s.past|
    case NoPredecessor => s.proc.Owned? && Filed(s, s.proc.id) && s.j.journal[s.proc.id].supersedes.None?
    case ReadRetained => s.proc.Owned? && Filed(s, s.proc.id) && s.j.journal[s.proc.id].supersedes.Some?
                         && s.proc.p.role in U(s).retained
                         && h.transaction(Some(U(s).retained[s.proc.p.role])) ==
                              s.j.journal[s.proc.id].supersedes.value.journalDigest
    case Supersede =>
      && s.proc.Approved? && Filed(s, s.proc.id) && s.j.journal[s.proc.id].supersedes.Some?
      && (var failed := s.j.journal[s.proc.id].supersedes.value.id;
          && s.Has(failed) && s.j.journal[failed].id == failed
          && (Superseded(s, failed, s.proc.id)
              || MaySupersede(h, s.j.journal[s.proc.id].supersedes.value, s.j.journal[failed])))
    case Measure => s.proc.Settled? && Filed(s, s.proc.id) && s.proc.at < |s.past|
                    && s.proc.p.role in s.past[s.proc.at].current
                    && SelectedVersion(s.past[s.proc.at].current[s.proc.p.role]) in U(s).versions
    case WriteOwn => s.proc.Measured? && Filed(s, s.proc.id)
                     && s.proc.at < |s.past| && s.proc.measured < |s.past|
                     && s.proc.p.role in s.past[s.proc.at].current
                     && SelectedVersion(s.past[s.proc.at].current[s.proc.p.role]) in s.past[s.proc.measured].versions
    case Raise => Raising(s.proc) && (s.proc.executing ==> Filed(s, s.proc.id))
    case Recover(id, p, force, generation) => s.proc.Idle? && Holding(s, id, p) && h.profile(p.digest) == p
    case Decide => s.proc.Deciding? && Filed(s, s.proc.id)
    case Claim => s.proc.Claiming? && Filed(s, s.proc.id)
                  && Owns(s.proc.p, s.j.journal[s.proc.id], CliTransaction(U(s), s.proc.p.role))
    case Invoke => s.proc.Claimed? && Filed(s, s.proc.id)
    case Complete => s.proc.Invoked? && Filed(s, s.proc.id)
    case OtherBegin(r) => s.proc.Idle? && J.MayBegin(s.j.journal, r.id, J.Plain)
      && r == Fresh(r.id, r.request, r.profileDigest)
    case OtherResume(id) => s.proc.Idle? && s.Has(id) && !s.j.journal[id].request.NativeUpgrade?
    case OtherSave(r) => s.proc.Elsewhere? && r.id == s.proc.id && s.Has(r.id) && OtherRewrites(s.j.journal[r.id], r)
    case OtherLeave => s.proc.Elsewhere?
  }

  predicate Superseded(s: Sys, t: TaskId, repair: TaskId)
    requires t in s.j.journal
  {
    s.j.journal[t].supersededBy == Some(repair) && s.j.journal[t].status == Failed
  }

  /** The record the process is working on. */
  function Mine(s: Sys): Record
    requires !s.proc.Idle? && s.proc.id in s.j.journal
  {
    s.j.journal[s.proc.id]
  }

  /** The one durable write of a step. */
  function WriteOf(h: Hashes, s: Sys, e: Event): Write
    requires |s.past| > 0 && Enabled(h, s, e)
  {
    var pr := s.proc;
    match e
    case Begin => Create(Fresh(pr.id, NativeUpgrade(pr.preview), pr.p.digest), AdmissionOf(s, pr.pred))
    case Start =>
      Save(Bump(Mine(s).(stage := "native_starting", nativeRole := Some(pr.p.role), supersedes := pr.pred,
                         beforeJournal := Some(h.transaction(CliTransaction(s.past[pr.at], pr.p.role))))))
    case Test => if U(s).running then ObservationWrite(Mine(s), Busy()) else NoWrite
    case WriteForeign => ObservationWrite(Mine(s), Foreign(h, Mine(s), CliTransaction(s.past[pr.at], pr.p.role)))
    case Supersede =>
      var failed := Mine(s).supersedes.value.id;
      if Superseded(s, failed, pr.id) then NoWrite else Save(SupersededRecord(s.j.journal[failed], pr.id))
    case WriteOwn =>
      var tx := s.past[pr.at].current[pr.p.role];
      ObservationWrite(Mine(s), Own(pr.p, tx, s.past[pr.measured].versions[SelectedVersion(tx)]))
    case Raise => if pr.executing then ObservationWrite(Mine(s), Unknown()) else NoWrite
    case Recover(id, p, force, generation) =>
      var r := s.j.journal[id];
      if generation > r.requestedRecovery then
        Save(Bump(r.(requestedRecovery := generation, status := Running, stage := "native_recovery_requested",
                     upgrade := None, errorCode := None)))
      else NoWrite
    case Decide => if Wants(s) && U(s).running then ObservationWrite(Mine(s), Busy()) else NoWrite
    case Complete => Save(Bump(Mine(s).(completedRecovery := Mine(s).requestedRecovery)))
    case OtherBegin(r) => Create(r, J.Plain)
    case OtherSave(r) => Save(r)
    case _ => NoWrite
  }

  predicate Requested(r: Record) {
    r.requestedRecovery > r.completedRecovery
  }

  /** `execute or requested > completed`. */
  predicate Wants(s: Sys)
    requires s.proc.Deciding? && s.proc.id in s.j.journal
  {
    s.proc.force || Requested(Mine(s))
  }

  function NextProc(h: Hashes, s: Sys, e: Event): Proc
    requires |s.past| > 0 && Enabled(h, s, e)
  {
    var pr := s.proc;
    match e
    case Crash => Idle
    case UpdaterMoves(_) => pr
    case Check(id, p, preview, pred) => Checked(id, p, preview, s.Now(), pred)
    case Begin => Begun(pr.id, pr.p, pr.at, pr.pred)
    case Refuse => Idle
    case Start => Applying(pr.id, pr.p, true)
    case Apply => Testing(pr.id, pr.p, true)
    case Test => if U(s).running then Idle else Reading(pr.id, pr.p, pr.executing)
    case Read =>
      if Owns(pr.p, Mine(s), CliTransaction(U(s), pr.p.role)) then Owned(pr.id, pr.p, pr.executing, s.Now())
      else NotOwned(pr.id, pr.p, pr.executing, s.Now())
    case WriteForeign => Idle
    case NoPredecessor => Settled(pr.id, pr.p, pr.executing, pr.at)
    case ReadRetained => Approved(pr.id, pr.p, pr.executing, pr.at, s.Now())
    case Supersede => Settled(pr.id, pr.p, pr.executing, pr.at)
    case Measure => Measured(pr.id, pr.p, pr.executing, pr.at, s.Now())
    case WriteOwn => Idle
    case Raise => Idle
    case Recover(id, p, force, _) => Deciding(id, p, force)
    case Decide =>
      if !Wants(s) then Testing(pr.id, pr.p, false)
      else if U(s).running then Idle
      else Claiming(pr.id, pr.p)
    case Claim => Claimed(pr.id, pr.p, !Requested(Mine(s)))
    case Invoke => Invoked(pr.id, pr.p)
    case Complete => Testing(pr.id, pr.p, false)
    case OtherBegin(r) => Elsewhere(r.id)
    case OtherResume(id) => Elsewhere(id)
    case OtherSave(_) => pr
    case OtherLeave => Idle
  }

  function FreshNote(at: nat): Note {
    Note(at, NoEvidence, NotApproved, 0, 0, 0, 0)
  }

  function NextNotes(h: Hashes, s: Sys, e: Event): map<TaskId, Note>
    requires |s.past| > 0 && Enabled(h, s, e)
  {
    var pr := s.proc;
    match e
    case Crash =>
      if pr.Invoked? && pr.id in s.notes then
        s.notes[pr.id := s.notes[pr.id].(crashes := s.notes[pr.id].crashes + 1)]
      else s.notes
    case Begin => s.notes[pr.id := FreshNote(pr.at)]
    case OtherBegin(r) => s.notes[r.id := FreshNote(s.Now())]
    case WriteForeign => s.notes[pr.id := s.notes[pr.id].(evidence := Seen(pr.p, pr.at, pr.at))]
    case WriteOwn => s.notes[pr.id := s.notes[pr.id].(evidence := Seen(pr.p, pr.at, pr.measured))]
    case Supersede =>
      var failed := Mine(s).supersedes.value.id;
      if Superseded(s, failed, pr.id) then s.notes
      else s.notes[failed := s.notes[failed].(approval := Approval(pr.id, pr.p, pr.at, pr.retained))]
    case Recover(id, _, _, generation) =>
      if generation > s.j.journal[id].requestedRecovery then
        s.notes[id := s.notes[id].(raises := s.notes[id].raises + 1)]
      else s.notes
    case Invoke =>
      var n := s.notes[pr.id];
      s.notes[pr.id := n.(invocations := n.invocations + 1, forced := if pr.force then n.forced + 1 else n.forced)]
    case _ => s.notes
  }

  lemma {:induction false} WriteHasRecord(h: Hashes, s: Sys, e: Event)
    requires |s.past| > 0 && Enabled(h, s, e)
    ensures WriteOf(h, s, e).Save? ==> s.Has(WriteOf(h, s, e).r.id)
  {
  }

  function After(h: Hashes, s: Sys, e: Event): Sys
    requires |s.past| > 0 && Enabled(h, s, e)
  {
    WriteHasRecord(h, s, e);
    Sys(Written(s.j, WriteOf(h, s, e)), if e.UpdaterMoves? then s.past + [e.u] else s.past,
        NextProc(h, s, e), NextNotes(h, s, e))
  }

  // ---------- Native tasks follow the journal discipline ----------

  predicate Working(proc: Proc) {
    !proc.Idle? && !proc.Checked? && !proc.Elsewhere?
  }

  predicate Observing(proc: Proc) {
    proc.NotOwned? || proc.Owned? || proc.Approved? || proc.Settled? || proc.Measured?
  }

  predicate OwnedAt(s: Sys, id: TaskId, p: Profile, at: nat)
    requires id in s.j.journal
  {
    at < |s.past| && Owns(p, s.j.journal[id], CliTransaction(s.past[at], p.role))
  }

  /** What the process knows about the record it is working on. */
  predicate ProcOk(h: Hashes, s: Sys) {
    var pr := s.proc;
    && |s.past| > 0
    && (pr.Checked? ==>
          && pr.id !in s.j.journal && pr.at < |s.past|
          && IsPredecessor(h, pr.p, s.j.journal, CliTransaction(s.past[pr.at], pr.p.role), pr.pred))
    && (pr.Checked? || Working(pr) ==> h.profile(pr.p.digest) == pr.p)
    && (Working(pr) ==> Holding(s, pr.id, pr.p))
    && (pr.Begun? ==>
          && pr.at < |s.past| && s.notes[pr.id].born == pr.at && pr.id in s.j.admissions
          && s.j.journal[pr.id] == Fresh(pr.id, s.j.journal[pr.id].request, pr.p.digest)
          && (pr.pred.Some? ==>
                && pr.pred.value.id in s.j.journal && pr.pred.value.id != pr.id
                && s.j.admissions[pr.id].Repair? && s.j.admissions[pr.id].predecessor.id == pr.pred.value.id
                && pr.pred.value.journalDigest == h.transaction(CliTransaction(s.past[pr.at], pr.p.role))))
    && (Observing(pr) ==> s.notes[pr.id].born <= pr.at < |s.past|)
    && (Observing(pr) && !pr.NotOwned? ==> OwnedAt(s, pr.id, pr.p, pr.at))
    && (pr.Approved? ==>
          && pr.at <= pr.retained < |s.past| && pr.p.role in s.past[pr.retained].retained
          && s.j.journal[pr.id].supersedes.Some?
          && h.transaction(Some(s.past[pr.retained].retained[pr.p.role])) ==
               s.j.journal[pr.id].supersedes.value.journalDigest)
    && (pr.Measured? ==> pr.at <= pr.measured < |s.past|)
    && (pr.Claimed? ==> pr.force == !(s.j.journal[pr.id].requestedRecovery > s.j.journal[pr.id].completedRecovery))
    && (pr.Elsewhere? ==> s.Has(pr.id))
  }

  predicate Born(s: Sys) {
    forall t :: t in s.notes ==> s.notes[t].born < |s.past|
  }

  ghost predicate Filing(s: Sys) {
    && J.Inv(s.j)
    && s.notes.Keys == s.j.journal.Keys
    && Born(s)
  }

  /** Every write is one the journal discipline allows. */
  lemma {:induction false} ObservationIsLegal(h: Hashes, s: Sys, e: Event)
    requires ProcOk(h, s) && Enabled(h, s, e) && WriteOf(h, s, e).Save?
    requires e.Test? || e.WriteForeign? || e.WriteOwn? || e.Raise? || e.Decide?
    ensures WriteOf(h, s, e).r.id in s.j.journal && J.Rewrites(s.j.journal[WriteOf(h, s, e).r.id], WriteOf(h, s, e).r)
  {
  }

  lemma {:induction false} OwnSaveIsLegal(h: Hashes, s: Sys, e: Event)
    requires ProcOk(h, s) && Enabled(h, s, e) && WriteOf(h, s, e).Save? && (e.Start? || e.Recover? || e.Complete?)
    ensures WriteOf(h, s, e).r.id in s.j.journal && J.Rewrites(s.j.journal[WriteOf(h, s, e).r.id], WriteOf(h, s, e).r)
  {
  }

  lemma {:induction false} OtherSaveIsLegal(h: Hashes, s: Sys, e: Event)
    requires |s.past| > 0 && Enabled(h, s, e) && WriteOf(h, s, e).Save? && (e.Supersede? || e.OtherSave?)
    ensures WriteOf(h, s, e).r.id in s.j.journal && J.Rewrites(s.j.journal[WriteOf(h, s, e).r.id], WriteOf(h, s, e).r)
  {
  }

  /** And every new record is admitted by it. */
  lemma {:induction false} WriteIsLegal(h: Hashes, s: Sys, e: Event)
    requires J.Keyed(s.j) && ProcOk(h, s) && Enabled(h, s, e)
    ensures WriteOf(h, s, e).Save? ==>
              WriteOf(h, s, e).r.id in s.j.journal && J.Rewrites(s.j.journal[WriteOf(h, s, e).r.id], WriteOf(h, s, e).r)
    ensures WriteOf(h, s, e).Create? ==>
              var w := WriteOf(h, s, e);
              && J.MayBegin(s.j.journal, w.r.id, w.admission) && w.r == Fresh(w.r.id, w.r.request, w.r.profileDigest)
              && (w.admission.Repair? ==> w.r.request.NativeUpgrade?)
  {
    if WriteOf(h, s, e).Save? {
      if e.Supersede? || e.OtherSave? { OtherSaveIsLegal(h, s, e); }
      else if e.Start? || e.Recover? || e.Complete? { OwnSaveIsLegal(h, s, e); }
      else { ObservationIsLegal(h, s, e); }
    }
  }

  /** Every step is a step of the journal discipline, so its results hold here. */
  lemma {:induction false} StepIsJournalStep(h: Hashes, s: Sys, e: Event)
    requires J.Keyed(s.j) && ProcOk(h, s) && Enabled(h, s, e)
    ensures J.Step(s.j, After(h, s, e).j)
  {
    WriteIsLegal(h, s, e);
    WriteHasRecord(h, s, e);
    var w := WriteOf(h, s, e);
    if w.Save? {
      assert J.SaveStep(s.j, Written(s.j, w), w.r);
    } else if w.Create? {
      assert J.BeginStep(s.j, Written(s.j, w), w.r, w.admission);
    }
  }

  /** The journal `begin` sees is the one `predecessor` reviewed, so a checked task is let in. */
  lemma {:induction false} CheckedMayBegin(h: Hashes, s: Sys)
    requires Filing(s) && ProcOk(h, s) && s.proc.Checked?
    ensures Enabled(h, s, Begin)
  {
    var j := s.j.journal;
    forall t | t in j && Unfinished(j[t].status)
      ensures s.proc.pred.Some? && t == s.proc.pred.value.id
    {
      assert t in J.Active(j);
    }
    if s.proc.pred.Some? {
      assert s.proc.pred.value.id in J.Active(j);
    }
  }

  lemma {:induction false} BeginKeepsBirths(h: Hashes, s: Sys, e: Event)
    requires |s.past| > 0 && (s.proc.Checked? ==> s.proc.at < |s.past|) && Enabled(h, s, e) && Born(s)
    requires e.Begin? || e.OtherBegin?
    ensures forall t :: t in NextNotes(h, s, e) ==> NextNotes(h, s, e)[t].born < |s.past|
    ensures WriteOf(h, s, e).Create? && NextNotes(h, s, e).Keys == s.notes.Keys + {WriteOf(h, s, e).r.id}
  {
  }

  predicate CountsOnly(e: Event) {
    e.Crash? || e.Invoke? || e.Recover?
  }

  lemma {:induction false} CountingKeepsBirths(h: Hashes, s: Sys, e: Event)
    requires |s.past| > 0 && Enabled(h, s, e) && CountsOnly(e)
    ensures NextNotes(h, s, e).Keys == s.notes.Keys
    ensures forall t :: t in s.notes ==> NextNotes(h, s, e)[t].born == s.notes[t].born
  {
  }

  lemma {:induction false} EvidenceKeepsBirths(h: Hashes, s: Sys, e: Event)
    requires |s.past| > 0 && Enabled(h, s, e) && !CountsOnly(e) && !e.Begin? && !e.OtherBegin?
    ensures NextNotes(h, s, e).Keys == s.notes.Keys
    ensures forall t :: t in s.notes ==> NextNotes(h, s, e)[t].born == s.notes[t].born
  {
  }

  lemma {:induction false} OthersCreateNothing(h: Hashes, s: Sys, e: Event)
    requires |s.past| > 0 && Enabled(h, s, e) && !e.Begin? && !e.OtherBegin?
    ensures !WriteOf(h, s, e).Create?
  {
  }

  /** Other steps change the note of at most one task, and never its birth. */
  lemma {:induction false} OthersKeepBirths(h: Hashes, s: Sys, e: Event)
    requires |s.past| > 0 && Enabled(h, s, e) && !e.Begin? && !e.OtherBegin?
    ensures !WriteOf(h, s, e).Create? && NextNotes(h, s, e).Keys == s.notes.Keys
    ensures forall t :: t in s.notes ==> NextNotes(h, s, e)[t].born == s.notes[t].born
  {
    OthersCreateNothing(h, s, e);
    if CountsOnly(e) { CountingKeepsBirths(h, s, e); } else { EvidenceKeepsBirths(h, s, e); }
  }

  lemma {:induction false} NotesKeepBirths(h: Hashes, s: Sys, e: Event)
    requires |s.past| > 0 && (s.proc.Checked? ==> s.proc.at < |s.past|) && Enabled(h, s, e) && Born(s)
    ensures forall t :: t in NextNotes(h, s, e) ==> NextNotes(h, s, e)[t].born < |s.past|
    ensures NextNotes(h, s, e).Keys == s.notes.Keys + (if WriteOf(h, s, e).Create? then {WriteOf(h, s, e).r.id} else {})
  {
    if e.Begin? || e.OtherBegin? { BeginKeepsBirths(h, s, e); } else { OthersKeepBirths(h, s, e); }
  }

  lemma {:induction false} WrittenKeys(j: J.State, w: Write)
    requires w.Save? ==> w.r.id in j.contents && w.r.id in j.journal
    ensures Written(j, w).journal.Keys == j.journal.Keys + (if w.Create? then {w.r.id} else {})
  {
  }

  lemma {:induction false} StepKeepsFiling(h: Hashes, s: Sys, e: Event)
    requires Filing(s) && ProcOk(h, s) && Enabled(h, s, e)
    ensures Filing(After(h, s, e))
  {
    StepIsJournalStep(h, s, e);
    J.StepKeepsInv(s.j, After(h, s, e).j);
    WriteIsLegal(h, s, e);
    NotesKeepBirths(h, s, e);
    WrittenKeys(s.j, WriteOf(h, s, e));
  }

  lemma {:induction false} BeginKeepsProc(h: Hashes, s: Sys, e: Event)
    requires ProcOk(h, s) && Enabled(h, s, e) && e.Begin?
    ensures ProcOk(h, After(h, s, e))
  {
  }

  lemma {:induction false} StartKeepsProc(h: Hashes, s: Sys, e: Event)
    requires ProcOk(h, s) && Enabled(h, s, e) && (e.Check? || e.Start? || e.Apply?)
    ensures ProcOk(h, After(h, s, e))
  {
  }

  lemma {:induction false} ObserveKeepsProc(h: Hashes, s: Sys, e: Event)
    requires Born(s) && ProcOk(h, s) && Enabled(h, s, e)
            && (e.Test? || e.Read? || e.NoPredecessor? || e.ReadRetained? || e.Measure?)
    ensures ProcOk(h, After(h, s, e))
  {
  }

  lemma {:induction false} SupersedeKeepsProc(h: Hashes, s: Sys, e: Event)
    requires ProcOk(h, s) && Enabled(h, s, e) && e.Supersede?
    requires Mine(s).supersedes.value.id != s.proc.id
    ensures ProcOk(h, After(h, s, e))
  {
  }

  lemma {:induction false} DecideKeepsProc(h: Hashes, s: Sys, e: Event)
    requires ProcOk(h, s) && Enabled(h, s, e) && (e.Recover? || e.Decide?)
    ensures ProcOk(h, After(h, s, e))
  {
  }

  lemma {:induction false} RecoverKeepsProc(h: Hashes, s: Sys, e: Event)
    requires ProcOk(h, s) && Enabled(h, s, e) && (e.Claim? || e.Invoke? || e.Complete?)
    ensures ProcOk(h, After(h, s, e))
  {
  }

  lemma {:induction false} OthersKeepProc(h: Hashes, s: Sys, e: Event)
    requires ProcOk(h, s) && Enabled(h, s, e) && (e.OtherBegin? || e.OtherResume? || e.OtherSave?)
    ensures ProcOk(h, After(h, s, e))
  {
  }

  lemma {:induction false} UpdaterKeepsProc(h: Hashes, s: Sys, e: Event)
    requires ProcOk(h, s) && Enabled(h, s, e) && e.UpdaterMoves?
    ensures ProcOk(h, After(h, s, e))
  {
  }

  lemma {:induction false} LeavingKeepsProc(h: Hashes, s: Sys, e: Event)
    requires ProcOk(h, s) && Enabled(h, s, e) && !e.UpdaterMoves? && NextProc(h, s, e).Idle?
    ensures ProcOk(h, After(h, s, e))
  {
  }

  lemma {:induction false} StepKeepsProc(h: Hashes, s: Sys, e: Event)
    requires Born(s) && ProcOk(h, s) && Enabled(h, s, e)
    requires e.Supersede? ==> Mine(s).supersedes.value.id != s.proc.id
    ensures ProcOk(h, After(h, s, e))
  {
    if e.UpdaterMoves? { UpdaterKeepsProc(h, s, e); }
    else if e.OtherBegin? || e.OtherResume? || e.OtherSave? { OthersKeepProc(h, s, e); }
    else if NextProc(h, s, e).Idle? { LeavingKeepsProc(h, s, e); }
    else if e.Begin? { BeginKeepsProc(h, s, e); }
    else if e.Check? || e.Start? || e.Apply? { StartKeepsProc(h, s, e); }
    else if e.Test? || e.Read? || e.NoPredecessor? || e.ReadRetained? || e.Measure? { ObserveKeepsProc(h, s, e); }
    else if e.Supersede? { SupersedeKeepsProc(h, s, e); }
    else if e.Recover? || e.Decide? { DecideKeepsProc(h, s, e); }
    else { RecoverKeepsProc(h, s, e); }
  }

  // ---------- What a record may claim ----------

  /** The updater journal belonged to the task and said it was installed, and after that the
      installed binary had exactly the staged digest and size. */
  predicate SuccessSeen(past: seq<Updater>, n: Note, r: Record) {
    && n.evidence.Seen?
    && n.born <= n.evidence.at <= n.evidence.measured < |past|
    && (var p := n.evidence.p;
        var tx := CliTransaction(past[n.evidence.at], p.role);
        && p.digest == r.profileDigest
        && Owns(p, r, tx) && tx.value.stage.Installed?
        && SelectedVersion(tx.value) in past[n.evidence.measured].versions
        && past[n.evidence.measured].versions[SelectedVersion(tx.value)] == Binary(p.artifactSha, p.artifactBytes)
        && r.artifact == Some(Artifact(p.artifactSha, p.artifactBytes, 1))
        && r.errorCode == None)
  }

  /** The updater journal read after the task began has the digest it had just before. */
  predicate NothingHappened(h: Hashes, past: seq<Updater>, n: Note, r: Record) {
    && n.evidence.Seen? && r.nativeRole == Some(n.evidence.p.role)
    && n.born <= n.evidence.at < |past|
    && h.transaction(CliTransaction(past[n.evidence.at], n.evidence.p.role)) ==
       h.transaction(CliTransaction(past[n.born], n.evidence.p.role))
  }

  predicate Justified(h: Hashes, past: seq<Updater>, n: Note, r: Record) {
    && n.born < |past|
    && (r.beforeJournal.Some? ==>
          && r.nativeRole.Some?
          && r.beforeJournal.value == h.transaction(CliTransaction(past[n.born], r.nativeRole.value)))
    && (r.nativeRole.Some? ==> r.nativeRole.value == h.profile(r.profileDigest).role)
    && (r.supersedes.Some? ==>
          r.beforeJournal.Some? && r.supersedes.value.journalDigest == r.beforeJournal.value)
    && (r.request.NativeUpgrade? && r.status == Succeeded ==> SuccessSeen(past, n, r))
    && (r.request.NativeUpgrade? && r.status == Failed && r.errorCode == Some(PREFLIGHT_FAILED) ==>
          NothingHappened(h, past, n, r))
    && (r.supersededBy.Some? ==> r.status == Failed)
  }

  ghost predicate AllJustified(h: Hashes, s: Sys) {
    forall t :: t in s.j.journal && t in s.notes ==> Justified(h, s.past, s.notes[t], s.j.journal[t])
  }

  /** A repair names the task it was admitted for. */
  predicate Links(s: Sys) {
    forall t :: t in s.j.journal && s.j.journal[t].supersedes.Some? ==>
      && s.j.journal[t].supersedes.value.id != t
      && t in s.j.admissions && s.j.admissions[t].Repair?
      && s.j.admissions[t].predecessor.id == s.j.journal[t].supersedes.value.id
  }

  lemma {:induction false} JustifiedLater(h: Hashes, past: seq<Updater>, u: Updater, n: Note, r: Record)
    requires Justified(h, past, n, r)
    ensures Justified(h, past + [u], n, r)
  {
  }

  /** While a task is unfinished its evidence is not yet needed. */
  lemma {:induction false} UnfinishedNeedsNoEvidence(h: Hashes, past: seq<Updater>, n: Note, n': Note, r: Record)
    requires Justified(h, past, n, r) && n'.born == n.born
    requires Unfinished(r.status) || n'.evidence == n.evidence
    ensures Justified(h, past, n', r)
  {
  }

  lemma {:induction false} ObservationJustified(h: Hashes, past: seq<Updater>, n: Note, r: Record, o: Observation)
    requires Justified(h, past, n, r) && Unfinished(r.status)
    requires Unfinished(o.status)
    ensures Justified(h, past, n, SaveObservation(r, o))
  {
  }

  lemma {:induction false} ForeignJustified(h: Hashes, s: Sys)
    requires ProcOk(h, s) && Enabled(h, s, WriteForeign) && Justified(h, s.past, s.notes[s.proc.id], Mine(s))
    ensures Justified(h, s.past, NextNotes(h, s, WriteForeign)[s.proc.id],
                      SaveObservation(Mine(s), Foreign(h, Mine(s), CliTransaction(s.past[s.proc.at], s.proc.p.role))))
  {
  }

  lemma {:induction false} OwnJustified(h: Hashes, s: Sys)
    requires ProcOk(h, s) && Enabled(h, s, WriteOwn) && Justified(h, s.past, s.notes[s.proc.id], Mine(s))
    ensures var tx := s.past[s.proc.at].current[s.proc.p.role];
            Justified(h, s.past, NextNotes(h, s, WriteOwn)[s.proc.id],
                      SaveObservation(Mine(s),
                                      Own(s.proc.p, tx, s.past[s.proc.measured].versions[SelectedVersion(tx)])))
  {
  }

  /** The record a step writes is justified by the notes it leaves. */
  lemma {:induction false} WriteJustified(h: Hashes, s: Sys, e: Event)
    requires J.Keyed(s.j) && ProcOk(h, s) && AllJustified(h, s) && Enabled(h, s, e)
    ensures !WriteOf(h, s, e).NoWrite? ==>
              var r := WriteOf(h, s, e).r;
              r.id in NextNotes(h, s, e) && Justified(h, s.past, NextNotes(h, s, e)[r.id], r)
  {
    WriteHasRecord(h, s, e);
    if WriteOf(h, s, e).NoWrite? { }
    else if e.WriteForeign? { ForeignJustified(h, s); }
    else if e.WriteOwn? { OwnJustified(h, s); }
    else if e.Begin? || e.OtherBegin? { CreateJustified(h, s, e); }
    else if e.Start? || e.Recover? || e.Complete? { SaveJustified(h, s, e); }
    else if e.Supersede? || e.OtherSave? { TerminalJustified(h, s, e); }
    else if e.Test? || e.Decide? || e.Raise? { BusyJustified(h, s, e); }
  }

  lemma {:induction false} CreateJustified(h: Hashes, s: Sys, e: Event)
    requires ProcOk(h, s) && Enabled(h, s, e) && (e.Begin? || e.OtherBegin?)
    ensures var r := WriteOf(h, s, e).r;
            r.id in NextNotes(h, s, e) && Justified(h, s.past, NextNotes(h, s, e)[r.id], r)
  {
  }

  lemma {:induction false} SaveJustified(h: Hashes, s: Sys, e: Event)
    requires ProcOk(h, s) && Enabled(h, s, e) && (e.Start? || e.Recover? || e.Complete?) && WriteOf(h, s, e).Save?
    requires Justified(h, s.past, s.notes[WriteOf(h, s, e).r.id], s.j.journal[WriteOf(h, s, e).r.id])
    ensures var r := WriteOf(h, s, e).r;
            r.id in NextNotes(h, s, e) && Justified(h, s.past, NextNotes(h, s, e)[r.id], r)
  {
  }

  lemma {:induction false} TerminalJustified(h: Hashes, s: Sys, e: Event)
    requires ProcOk(h, s) && Enabled(h, s, e) && (e.Supersede? || e.OtherSave?) && WriteOf(h, s, e).Save?
    requires Justified(h, s.past, s.notes[WriteOf(h, s, e).r.id], s.j.journal[WriteOf(h, s, e).r.id])
    ensures var r := WriteOf(h, s, e).r;
            r.id in NextNotes(h, s, e) && Justified(h, s.past, NextNotes(h, s, e)[r.id], r)
  {
  }

  lemma {:induction false} BusyJustified(h: Hashes, s: Sys, e: Event)
    requires ProcOk(h, s) && Enabled(h, s, e) && (e.Test? || e.Decide? || e.Raise?) && WriteOf(h, s, e).Save?
    requires Justified(h, s.past, s.notes[WriteOf(h, s, e).r.id], s.j.journal[WriteOf(h, s, e).r.id])
    ensures var r := WriteOf(h, s, e).r;
            r.id in NextNotes(h, s, e) && Justified(h, s.past, NextNotes(h, s, e)[r.id], r)
  {
    ObservationJustified(h, s.past, s.notes[s.proc.id], Mine(s), if e.Raise? then Unknown() else Busy());
  }

  /** Notes of a record that was not written change at most in evidence nobody needs yet. */
  lemma {:induction false} NotesOfUnwritten(h: Hashes, s: Sys, e: Event, t: TaskId)
    requires ProcOk(h, s) && Enabled(h, s, e) && t in s.j.journal && t in s.notes
    requires WriteOf(h, s, e).NoWrite? || WriteOf(h, s, e).r.id != t
    ensures t in NextNotes(h, s, e) && NextNotes(h, s, e)[t].born == s.notes[t].born
    ensures Unfinished(s.j.journal[t].status) || NextNotes(h, s, e)[t].evidence == s.notes[t].evidence
    ensures NextNotes(h, s, e)[t].approval == s.notes[t].approval
  {
    BornStays(h, s, e, t);
    ApprovalStays(h, s, e, t);
    EvidenceStays(h, s, e, t);
  }

  lemma {:induction false} EvidenceStays(h: Hashes, s: Sys, e: Event, t: TaskId)
    requires ProcOk(h, s) && Enabled(h, s, e) && t in s.j.journal && t in s.notes && t in NextNotes(h, s, e)
    ensures Unfinished(s.j.journal[t].status) || NextNotes(h, s, e)[t].evidence == s.notes[t].evidence
  {
    if e.Begin? || e.OtherBegin? {
      CreateIsNew(h, s, e);
    } else if e.WriteForeign? || e.WriteOwn? {
      assert Holding(s, s.proc.id, s.proc.p);
    } else {
      OthersKeepEvidence(h, s, e, t);
    }
  }

  lemma {:induction false} OthersKeepEvidence(h: Hashes, s: Sys, e: Event, t: TaskId)
    requires |s.past| > 0 && Enabled(h, s, e) && t in s.notes && t in NextNotes(h, s, e)
    requires !e.Begin? && !e.OtherBegin? && !e.WriteForeign? && !e.WriteOwn?
    ensures NextNotes(h, s, e)[t].evidence == s.notes[t].evidence
  {
  }

  lemma {:induction false} JournalAfter(h: Hashes, s: Sys, e: Event, t: TaskId)
    requires |s.past| > 0 && Enabled(h, s, e) && t in After(h, s, e).j.journal
    ensures if !WriteOf(h, s, e).NoWrite? && WriteOf(h, s, e).r.id == t
            then After(h, s, e).j.journal[t] == WriteOf(h, s, e).r
            else t in s.j.journal && After(h, s, e).j.journal[t] == s.j.journal[t]
  {
    WriteHasRecord(h, s, e);
  }

  lemma {:induction false} StepKeepsJustified(h: Hashes, s: Sys, e: Event)
    requires Filing(s) && ProcOk(h, s) && AllJustified(h, s) && Enabled(h, s, e)
    ensures AllJustified(h, After(h, s, e))
  {
    var s' := After(h, s, e);
    var w := WriteOf(h, s, e);
    WriteHasRecord(h, s, e);
    WriteJustified(h, s, e);
    forall t | t in s'.j.journal && t in s'.notes
      ensures Justified(h, s'.past, s'.notes[t], s'.j.journal[t])
    {
      JournalAfter(h, s, e, t);
      if w.NoWrite? || w.r.id != t {
        NotesOfUnwritten(h, s, e, t);
        UnfinishedNeedsNoEvidence(h, s.past, s.notes[t], s'.notes[t], s.j.journal[t]);
      }
      if e.UpdaterMoves? {
        JustifiedLater(h, s.past, e.u, s'.notes[t], s'.j.journal[t]);
      }
    }
  }

  // ---------- Supersession ----------

  /** The repair owned the current updater journal, and afterwards the retained journal had the
      digest reviewed when the repair was admitted. */
  predicate ApprovalSeen(h: Hashes, past: seq<Updater>, a: Approval, n: Note, repair: Record) {
    && a.Approval? && a.repair == repair.id
    && n.born <= a.owned <= a.retained < |past|
    && Owns(a.p, repair, CliTransaction(past[a.owned], a.p.role))
    && a.p.role in past[a.retained].retained
    && repair.supersedes.Some?
    && h.transaction(Some(past[a.retained].retained[a.p.role])) == repair.supersedes.value.journalDigest
  }

  predicate SupersededOk(h: Hashes, s: Sys, t: TaskId)
    requires t in s.j.journal && t in s.notes
  {
    s.j.journal[t].supersededBy.Some? ==>
      var y := s.j.journal[t].supersededBy.value;
      && y in s.j.journal && y in s.notes
      && s.j.journal[y].supersedes.Some? && s.j.journal[y].supersedes.value.id == t
      && ApprovalSeen(h, s.past, s.notes[t].approval, s.notes[y], s.j.journal[y])
  }

  ghost predicate AllSuperseded(h: Hashes, s: Sys) {
    forall t :: t in s.j.journal && t in s.notes ==> SupersededOk(h, s, t)
  }

  /** Only `Start` sets what a task supersedes, and only `Supersede` who superseded it. */
  lemma {:induction false} WriteKeepsLinks(h: Hashes, s: Sys, e: Event)
    requires ProcOk(h, s) && Enabled(h, s, e) && WriteOf(h, s, e).Save?
    ensures var r := WriteOf(h, s, e).r;
            && r.id in s.j.journal && r.id == s.j.journal[r.id].id
            && r.request == s.j.journal[r.id].request
            && (e.Start? ==> s.j.journal[r.id].supersedes.None? && r.supersedes == s.proc.pred && r.id == s.proc.id)
            && (!e.Start? ==> r.supersedes == s.j.journal[r.id].supersedes)
            && (e.Supersede? ==> r.id == Mine(s).supersedes.value.id && r.supersededBy == Some(s.proc.id))
            && (!e.Supersede? ==> r.supersededBy == s.j.journal[r.id].supersededBy)
  {
    if e.Start? || e.Supersede? || e.OtherSave? { NamedWriteKeepsLinks(h, s, e); } else { OwnWriteKeepsLinks(h, s, e); }
  }

  lemma {:induction false} NamedWriteKeepsLinks(h: Hashes, s: Sys, e: Event)
    requires ProcOk(h, s) && Enabled(h, s, e) && WriteOf(h, s, e).Save? && (e.Start? || e.Supersede? || e.OtherSave?)
    ensures var r := WriteOf(h, s, e).r;
            && r.id in s.j.journal && r.id == s.j.journal[r.id].id && r.request == s.j.journal[r.id].request
            && (e.Start? ==> s.j.journal[r.id].supersedes.None? && r.supersedes == s.proc.pred && r.id == s.proc.id)
            && (!e.Start? ==> r.supersedes == s.j.journal[r.id].supersedes)
            && (e.Supersede? ==> r.id == Mine(s).supersedes.value.id && r.supersededBy == Some(s.proc.id))
            && (!e.Supersede? ==> r.supersededBy == s.j.journal[r.id].supersededBy)
  {
  }

  lemma {:induction false} OwnWriteKeepsLinks(h: Hashes, s: Sys, e: Event)
    requires ProcOk(h, s) && Enabled(h, s, e) && WriteOf(h, s, e).Save? && !e.Start? && !e.Supersede? && !e.OtherSave?
    ensures var r := WriteOf(h, s, e).r;
            && r.id in s.j.journal && r.id == s.j.journal[r.id].id && r.request == s.j.journal[r.id].request
            && r.supersedes == s.j.journal[r.id].supersedes && r.supersededBy == s.j.journal[r.id].supersededBy
  {
  }

  lemma {:induction false} StepKeepsLinks(h: Hashes, s: Sys, e: Event)
    requires J.Keyed(s.j) && ProcOk(h, s) && Links(s) && Enabled(h, s, e)
    ensures Links(After(h, s, e))
  {
    var s' := After(h, s, e);
    WriteIsLegal(h, s, e);
    if WriteOf(h, s, e).Save? { WriteKeepsLinks(h, s, e); }
    forall t | t in s'.j.journal && s'.j.journal[t].supersedes.Some?
      ensures && s'.j.journal[t].supersedes.value.id != t
              && t in s'.j.admissions && s'.j.admissions[t].Repair?
              && s'.j.admissions[t].predecessor.id == s'.j.journal[t].supersedes.value.id
    {
      JournalAfter(h, s, e, t);
    }
  }

  lemma {:induction false} ApprovalLater(h: Hashes, past: seq<Updater>, u: Updater, a: Approval, n: Note,
                                         repair: Record)
    requires ApprovalSeen(h, past, a, n, repair)
    ensures ApprovalSeen(h, past + [u], a, n, repair)
  {
  }

  /** The record of a repair keeps everything an approval depends on. */
  lemma {:induction false} RepairRecordKeeps(h: Hashes, s: Sys, e: Event, y: TaskId)
    requires ProcOk(h, s) && Enabled(h, s, e)
    requires y in s.j.journal && y in s.notes && s.j.journal[y].supersedes.Some?
    ensures var s' := After(h, s, e);
            && y in s'.j.journal && y in s'.notes && s'.notes[y].born == s.notes[y].born
            && s'.j.journal[y].supersedes == s.j.journal[y].supersedes
            && s'.j.journal[y].request == s.j.journal[y].request && s'.j.journal[y].id == s.j.journal[y].id
  {
    RecordKeeps(h, s, e, y);
    BornStays(h, s, e, y);
  }

  lemma {:induction false} RecordKeeps(h: Hashes, s: Sys, e: Event, y: TaskId)
    requires ProcOk(h, s) && Enabled(h, s, e)
    requires y in s.j.journal && s.j.journal[y].supersedes.Some?
    ensures var j := After(h, s, e).j.journal;
            && y in j && j[y].supersedes == s.j.journal[y].supersedes
            && j[y].request == s.j.journal[y].request && j[y].id == s.j.journal[y].id
  {
    WriteHasRecord(h, s, e);
    CreateIsNew(h, s, e);
    WrittenRecord(s.j, WriteOf(h, s, e), y);
    if WriteOf(h, s, e).Save? { WriteKeepsLinks(h, s, e); }
  }

  lemma {:induction false} CreateIsNew(h: Hashes, s: Sys, e: Event)
    requires |s.past| > 0 && Enabled(h, s, e)
    ensures WriteOf(h, s, e).Create? ==> WriteOf(h, s, e).r.id !in s.j.journal
  {
  }

  lemma {:induction false} BornStays(h: Hashes, s: Sys, e: Event, y: TaskId)
    requires ProcOk(h, s) && Enabled(h, s, e) && y in s.notes && y in s.j.journal
    ensures y in NextNotes(h, s, e) && NextNotes(h, s, e)[y].born == s.notes[y].born
  {
  }

  lemma {:induction false} ApprovalStays(h: Hashes, s: Sys, e: Event, t: TaskId)
    requires ProcOk(h, s) && Enabled(h, s, e) && t in s.notes && t in s.j.journal
    requires !(e.Supersede? && Mine(s).supersedes.value.id == t && WriteOf(h, s, e).Save?)
    ensures t in NextNotes(h, s, e) && NextNotes(h, s, e)[t].approval == s.notes[t].approval
  {
  }

  lemma {:induction false} SupersedeKeepsApproval(h: Hashes, s: Sys, t: TaskId)
    requires ProcOk(h, s) && Links(s) && Enabled(h, s, Supersede)
    requires t == Mine(s).supersedes.value.id && !Superseded(s, t, s.proc.id)
    ensures SupersededOk(h, After(h, s, Supersede), t)
  {
  }

  /** Nothing but `Supersede` says that a task is superseded. */
  lemma {:induction false} SupersededByStays(h: Hashes, s: Sys, e: Event, t: TaskId)
    requires ProcOk(h, s) && Enabled(h, s, e) && t in After(h, s, e).j.journal
    requires !(e.Supersede? && Mine(s).supersedes.value.id == t && WriteOf(h, s, e).Save?)
    requires After(h, s, e).j.journal[t].supersededBy.Some?
    ensures t in s.j.journal && s.j.journal[t].supersededBy == After(h, s, e).j.journal[t].supersededBy
  {
    JournalAfter(h, s, e, t);
    if WriteOf(h, s, e).Save? { WriteKeepsLinks(h, s, e); }
  }

  lemma {:induction false} StepKeepsSuperseded(h: Hashes, s: Sys, e: Event)
    requires s.notes.Keys == s.j.journal.Keys && ProcOk(h, s) && Links(s) && AllSuperseded(h, s) && Enabled(h, s, e)
    ensures AllSuperseded(h, After(h, s, e))
  {
    var s' := After(h, s, e);
    forall t | t in s'.j.journal && t in s'.notes
      ensures SupersededOk(h, s', t)
    {
      if e.Supersede? && Mine(s).supersedes.value.id == t && WriteOf(h, s, e).Save? {
        SupersedeKeepsApproval(h, s, t);
      } else if s'.j.journal[t].supersededBy.Some? {
        SupersededByStays(h, s, e, t);
        assert SupersededOk(h, s, t);
        ApprovalKept(h, s, e, t);
      }
    }
  }

  /** A step that does not itself supersede `t` leaves the approval of its repair standing. */
  lemma {:induction false} ApprovalKept(h: Hashes, s: Sys, e: Event, t: TaskId)
    requires ProcOk(h, s) && Enabled(h, s, e) && t in s.notes && t in s.j.journal
    requires !(e.Supersede? && Mine(s).supersedes.value.id == t && WriteOf(h, s, e).Save?)
    requires SupersededOk(h, s, t) && s.j.journal[t].supersededBy.Some?
    requires t in After(h, s, e).j.journal && t in After(h, s, e).notes
    requires After(h, s, e).j.journal[t].supersededBy == s.j.journal[t].supersededBy
    ensures SupersededOk(h, After(h, s, e), t)
  {
    var s' := After(h, s, e);
    var y := s.j.journal[t].supersededBy.value;
    ApprovalStays(h, s, e, t);
    RepairRecordKeeps(h, s, e, y);
    assert ApprovalSeen(h, s.past, s'.notes[t].approval, s'.notes[y], s'.j.journal[y]);
    if e.UpdaterMoves? {
      ApprovalLater(h, s.past, e.u, s'.notes[t].approval, s'.notes[y], s'.j.journal[y]);
    }
  }

  // ---------- Recovery generations ----------

  /** Every invocation is paid for by a raised request, a crash that lost its completion, or an
      operator's explicit command; a request not yet completed has one payment in hand. */
  predicate Paid(n: Note, r: Record, invoked: bool) {
    && r.completedRecovery <= r.requestedRecovery
    && n.invocations + (if Requested(r) && !invoked then 1 else 0) <= n.raises + n.crashes + n.forced
  }

  predicate InvokedFor(s: Sys, t: TaskId) {
    s.proc.Invoked? && s.proc.id == t
  }

  ghost predicate AllPaid(s: Sys) {
    forall t :: t in s.j.journal && t in s.notes ==> Paid(s.notes[t], s.j.journal[t], InvokedFor(s, t))
  }

  lemma {:induction false} WriteKeepsGenerations(h: Hashes, s: Sys, e: Event)
    requires ProcOk(h, s) && Enabled(h, s, e)
    ensures WriteOf(h, s, e).Save? && !e.Recover? && !e.Complete? ==>
              var r := WriteOf(h, s, e).r;
              && r.id in s.j.journal
              && r.requestedRecovery == s.j.journal[r.id].requestedRecovery
              && r.completedRecovery == s.j.journal[r.id].completedRecovery
  {
  }

  lemma {:induction false} RequestKeepsPaid(h: Hashes, s: Sys, e: Event, t: TaskId)
    requires ProcOk(h, s) && Enabled(h, s, e) && (e.Recover? || e.Complete?)
    requires t in s.j.journal && t in s.notes && Paid(s.notes[t], s.j.journal[t], InvokedFor(s, t))
    ensures var s' := After(h, s, e);
            t in s'.j.journal && t in s'.notes && Paid(s'.notes[t], s'.j.journal[t], InvokedFor(s', t))
  {
    WriteHasRecord(h, s, e);
  }

  lemma {:induction false} InvokeKeepsPaid(h: Hashes, s: Sys, e: Event, t: TaskId)
    requires ProcOk(h, s) && Enabled(h, s, e) && (e.Invoke? || e.Crash? || e.Claim?)
    requires t in s.j.journal && t in s.notes && Paid(s.notes[t], s.j.journal[t], InvokedFor(s, t))
    ensures var s' := After(h, s, e);
            t in s'.j.journal && t in s'.notes && Paid(s'.notes[t], s'.j.journal[t], InvokedFor(s', t))
  {
    assert WriteOf(h, s, e).NoWrite?;
  }

  lemma {:induction false} CountersStay(h: Hashes, s: Sys, e: Event, t: TaskId)
    requires ProcOk(h, s) && Enabled(h, s, e) && t in s.notes && t in s.j.journal
    requires !(e.Recover? || e.Invoke? || e.Complete? || e.Crash? || e.Claim?)
    ensures t in NextNotes(h, s, e)
    ensures var n, n' := s.notes[t], NextNotes(h, s, e)[t];
            n'.invocations == n.invocations && n'.raises == n.raises && n'.crashes == n.crashes && n'.forced == n.forced
  {
  }

  lemma {:induction false} NobodyInvoked(h: Hashes, s: Sys, e: Event)
    requires |s.past| > 0 && Enabled(h, s, e)
    requires !(e.Recover? || e.Invoke? || e.Complete? || e.Crash? || e.Claim?)
    ensures !s.proc.Invoked? || e.UpdaterMoves?
    ensures NextProc(h, s, e).Invoked? ==> NextProc(h, s, e) == s.proc
  {
  }

  lemma {:induction false} StepKeepsPaid(h: Hashes, s: Sys, e: Event)
    requires Filing(s) && ProcOk(h, s) && AllPaid(s) && Enabled(h, s, e)
    ensures AllPaid(After(h, s, e))
  {
    var s' := After(h, s, e);
    WriteIsLegal(h, s, e);
    WriteKeepsGenerations(h, s, e);
    forall t | t in s'.j.journal && t in s'.notes
      ensures Paid(s'.notes[t], s'.j.journal[t], InvokedFor(s', t))
    {
      JournalAfter(h, s, e, t);
      if t in s.j.journal {
        if e.Recover? || e.Complete? {
          RequestKeepsPaid(h, s, e, t);
        } else if e.Invoke? || e.Crash? || e.Claim? {
          InvokeKeepsPaid(h, s, e, t);
        } else {
          CountersStay(h, s, e, t);
          NobodyInvoked(h, s, e);
        }
      } else {
        CreatedCounters(h, s, e);
      }
    }
  }

  lemma {:induction false} CreatedCounters(h: Hashes, s: Sys, e: Event)
    requires ProcOk(h, s) && Enabled(h, s, e) && WriteOf(h, s, e).Create?
    ensures var t := WriteOf(h, s, e).r.id; t in NextNotes(h, s, e) && NextNotes(h, s, e)[t].invocations == 0
    ensures !Requested(WriteOf(h, s, e).r)
            && WriteOf(h, s, e).r.completedRecovery <= WriteOf(h, s, e).r.requestedRecovery
  {
  }

  // ---------- Runs ----------

  ghost predicate Inv(h: Hashes, s: Sys) {
    Filing(s) && ProcOk(h, s) && Links(s) && AllJustified(h, s) && AllSuperseded(h, s) && AllPaid(s)
  }

  function Initial(u: Updater): Sys {
    Sys(J.Initial(), [u], Idle, map[])
  }

  lemma {:induction false} InitialInv(h: Hashes, u: Updater)
    ensures Inv(h, Initial(u))
  {
  }

  lemma {:induction false} StepKeepsInv(h: Hashes, s: Sys, e: Event)
    requires Inv(h, s) && Enabled(h, s, e)
    ensures Inv(h, After(h, s, e))
  {
    StepKeepsFiling(h, s, e);
    StepKeepsProc(h, s, e);
    StepKeepsLinks(h, s, e);
    StepKeepsJustified(h, s, e);
    StepKeepsSuperseded(h, s, e);
    StepKeepsPaid(h, s, e);
  }

  ghost predicate Run(h: Hashes, run: seq<Sys>, events: seq<Event>) {
    && |run| == |events| + 1
    && |run[0].past| == 1 && run[0] == Initial(run[0].past[0])
    && (forall i :: 0 <= i < |run| ==> |run[i].past| > 0)
    && forall i: nat :: i < |events| ==> Happens(h, run, events, i)
  }

  ghost predicate Happens(h: Hashes, run: seq<Sys>, events: seq<Event>, i: nat)
    requires |run| == |events| + 1 && i < |events| && |run[i].past| > 0
  {
    Enabled(h, run[i], events[i]) && run[i + 1] == After(h, run[i], events[i])
  }

  lemma {:induction false} RunInv(h: Hashes, run: seq<Sys>, events: seq<Event>, i: nat)
    requires Run(h, run, events) && i < |run|
    ensures Inv(h, run[i])
  {
    if i == 0 {
      InitialInv(h, run[0].past[0]);
    } else {
      RunInv(h, run, events, i - 1);
      assert Happens(h, run, events, i - 1);
      StepKeepsInv(h, run[i - 1], events[i - 1]);
    }
  }

  /** The journals of a native run are a run of the journal discipline. */
  lemma {:induction false} RunFollowsDiscipline(h: Hashes, run: seq<Sys>, events: seq<Event>)
    requires Run(h, run, events)
    ensures J.Run(seq(|run|, i requires 0 <= i < |run| => run[i].j))
  {
    var js := seq(|run|, i requires 0 <= i < |run| => run[i].j);
    forall i: nat | i + 1 < |js|
      ensures J.StepAt(js, i)
    {
      RunInv(h, run, events, i);
      assert Happens(h, run, events, i);
      StepIsJournalStep(h, run[i], events[i]);
    }
  }

  /** A native task is `succeeded` only if, after it was created, the updater journal was seen to be
      its own (manifest, role and approved preview) and installed, and after that the installed
      binary had the staged digest and size. */
  lemma {:induction false} SuccessIsReal(h: Hashes, run: seq<Sys>, events: seq<Event>, i: nat, t: TaskId)
    requires Run(h, run, events) && i < |run|
    requires t in run[i].j.journal && run[i].j.journal[t].request.NativeUpgrade?
            && run[i].j.journal[t].status == Succeeded
    ensures t in run[i].notes && SuccessSeen(run[i].past, run[i].notes[t], run[i].j.journal[t])
  {
    RunInv(h, run, events, i);
    assert t in run[i].notes;
    assert Justified(h, run[i].past, run[i].notes[t], run[i].j.journal[t]);
  }

  /** `native_preflight_failed` means the updater journal was seen with the digest it had just
      before the task was created. */
  lemma {:induction false} PreflightFailureIsReal(h: Hashes, run: seq<Sys>, events: seq<Event>, i: nat, t: TaskId)
    requires Run(h, run, events) && i < |run|
    requires t in run[i].j.journal && run[i].j.journal[t].request.NativeUpgrade?
    requires run[i].j.journal[t].status == Failed && run[i].j.journal[t].errorCode == Some(PREFLIGHT_FAILED)
    ensures t in run[i].notes && NothingHappened(h, run[i].past, run[i].notes[t], run[i].j.journal[t])
  {
    RunInv(h, run, events, i);
    assert t in run[i].notes;
    assert Justified(h, run[i].past, run[i].notes[t], run[i].j.journal[t]);
  }

  /** A superseded task was replaced by exactly the younger task admitted as its repair, after that
      repair owned the updater journal and the retained journal had the reviewed digest: the digest
      the updater journal had when the repair was admitted. */
  lemma {:induction false} SupersessionIsSound(h: Hashes, run: seq<Sys>, events: seq<Event>, i: nat, t: TaskId)
    requires Run(h, run, events) && i < |run|
    requires t in run[i].j.journal && run[i].j.journal[t].supersededBy.Some?
    ensures run[i].j.journal[t].status == Failed
    ensures var y := run[i].j.journal[t].supersededBy.value;
            && J.RepairOf(run[i].j, t, y) && J.BornBefore(run[i].j, t, y)
            && t in run[i].notes && y in run[i].notes && y in run[i].j.journal
            && ApprovalSeen(h, run[i].past, run[i].notes[t].approval, run[i].notes[y], run[i].j.journal[y])
            && (var r := run[i].j.journal[y];
                && r.nativeRole.Some? && run[i].notes[y].born < |run[i].past|
                && r.supersedes.value.journalDigest ==
                     h.transaction(CliTransaction(run[i].past[run[i].notes[y].born], r.nativeRole.value)))
  {
    RunInv(h, run, events, i);
    var s := run[i];
    assert t in s.notes;
    assert SupersededOk(h, s, t);
    var y := s.j.journal[t].supersededBy.value;
    assert Justified(h, s.past, s.notes[t], s.j.journal[t]);
    assert Justified(h, s.past, s.notes[y], s.j.journal[y]);
    assert y in s.j.admissions && s.j.admissions[y].Repair?;
  }

  lemma {:induction false} RunJournalLater(h: Hashes, run: seq<Sys>, events: seq<Event>, i: nat, k: nat)
    requires Run(h, run, events) && i <= k < |run|
    ensures J.Later(run[i].j, run[k].j)
  {
    RunFollowsDiscipline(h, run, events);
    J.TerminalIsAbsorbing(seq(|run|, n requires 0 <= n < |run| => run[n].j), i, k);
  }

  /** Once superseded, a task stays superseded by the same repair. */
  lemma {:induction false} SupersededOnce(h: Hashes, run: seq<Sys>, events: seq<Event>, i: nat, k: nat, t: TaskId)
    requires Run(h, run, events) && i <= k < |run|
    requires t in run[i].j.journal && run[i].j.journal[t].supersededBy.Some?
    ensures t in run[k].j.journal && run[k].j.journal[t] == run[i].j.journal[t]
  {
    SupersessionIsSound(h, run, events, i, t);
    RunJournalLater(h, run, events, i, k);
  }

  /** A chain in which each task was superseded by the next. */
  predicate Chain(j: Journal, chain: seq<TaskId>) {
    && |chain| > 0
    && forall i :: 0 <= i < |chain| - 1 ==> chain[i] in j && j[chain[i]].supersededBy == Some(chain[i + 1])
  }

  lemma {:induction false} ChainsAge(j: J.State, chain: seq<TaskId>)
    requires J.BornOnce(j) && Chain(j.journal, chain) && |chain| > 1
    requires forall i :: 0 <= i < |chain| - 1 ==> J.BornBefore(j, chain[i], chain[i + 1])
    ensures J.BornBefore(j, chain[0], chain[|chain| - 1]) && chain[0] != chain[|chain| - 1]
    decreases |chain|
  {
    var n := |chain| - 1;
    assert J.BornBefore(j, chain[n - 1], chain[n - 1 + 1]);
    if n > 1 {
      ChainsAge(j, chain[..n]);
      J.BirthIsAnOrder(j, chain[0], chain[n - 1], chain[n]);
    }
    J.BirthIsAnOrder(j, chain[0], chain[n], chain[n]);
  }

  /** Supersession has no cycle: the end of a chain is younger than its start. */
  lemma {:induction false} SupersessionIsAcyclic(h: Hashes, run: seq<Sys>, events: seq<Event>, i: nat,
                                                 chain: seq<TaskId>)
    requires Run(h, run, events) && i < |run|
    requires Chain(run[i].j.journal, chain) && |chain| > 1
    ensures J.BornBefore(run[i].j, chain[0], chain[|chain| - 1])
    ensures chain[0] != chain[|chain| - 1]
  {
    forall k | 0 <= k < |chain| - 1
      ensures J.BornBefore(run[i].j, chain[k], chain[k + 1])
    {
      assert run[i].j.journal[chain[k]].supersededBy == Some(chain[k + 1]);
      SupersessionIsSound(h, run, events, i, chain[k]);
    }
    RunInv(h, run, events, i);
    ChainsAge(run[i].j, chain);
  }

  /** At any moment of any run, the updater was asked to recover a task at most as often as its
      request was raised, plus the crashes that lost a completion record, plus the operator's own
      commands; and completion never runs ahead of request. */
  lemma {:induction false} InvocationsArePaid(h: Hashes, run: seq<Sys>, events: seq<Event>, i: nat, t: TaskId)
    requires Run(h, run, events) && i < |run| && t in run[i].j.journal
    ensures t in run[i].notes
    ensures run[i].notes[t].invocations <= run[i].notes[t].raises + run[i].notes[t].crashes + run[i].notes[t].forced
    ensures run[i].j.journal[t].completedRecovery <= run[i].j.journal[t].requestedRecovery
  {
    RunInv(h, run, events, i);
    assert t in run[i].notes;
    assert Paid(run[i].notes[t], run[i].j.journal[t], InvokedFor(run[i], t));
  }

  /** Generations never go back, and a request disappears only by being completed. */
  predicate KeepsRequest(r: Record, r': Record, completes: bool) {
    && r.requestedRecovery <= r'.requestedRecovery
    && r.completedRecovery <= r'.completedRecovery
    && (Requested(r) && !completes ==> Requested(r'))
  }

  lemma {:induction false} WriteKeepsRequest(h: Hashes, s: Sys, e: Event)
    requires ProcOk(h, s) && Enabled(h, s, e) && WriteOf(h, s, e).Save? && WriteOf(h, s, e).r.id in s.j.journal
    requires var r := s.j.journal[WriteOf(h, s, e).r.id]; r.completedRecovery <= r.requestedRecovery
    ensures KeepsRequest(s.j.journal[WriteOf(h, s, e).r.id], WriteOf(h, s, e).r, e.Complete?)
  {
    WriteKeepsGenerations(h, s, e);
  }

  lemma {:induction false} StepKeepsRequest(h: Hashes, s: Sys, e: Event, t: TaskId)
    requires ProcOk(h, s) && Ordered(s.j.journal) && Enabled(h, s, e) && t in s.j.journal
    ensures var s' := After(h, s, e); t in s'.j.journal && KeepsRequest(s.j.journal[t], s'.j.journal[t], e.Complete?)
  {
    CreateIsNew(h, s, e);
    WriteHasRecord(h, s, e);
    WrittenRecord(s.j, WriteOf(h, s, e), t);
    if WriteOf(h, s, e).Save? { WriteKeepsRequest(h, s, e); }
  }

  predicate Ordered(j: Journal) {
    forall t :: t in j ==> j[t].completedRecovery <= j[t].requestedRecovery
  }

  lemma {:induction false} PaidIsOrdered(s: Sys)
    requires Filing(s) && AllPaid(s)
    ensures Ordered(s.j.journal)
  {
  }

  lemma {:induction false} WrittenRecord(j: J.State, w: Write, t: TaskId)
    requires w.Save? ==> w.r.id in j.contents
    requires w.Create? ==> w.r.id !in j.journal
    requires t in j.journal
    ensures t in Written(j, w).journal
    ensures Written(j, w).journal[t] == if w.Save? && w.r.id == t then w.r else j.journal[t]
  {
  }

  lemma {:induction false} RunKeepsRequest(h: Hashes, run: seq<Sys>, events: seq<Event>, k: nat, t: TaskId)
    requires Run(h, run, events) && k < |events| && t in run[k].j.journal
    ensures t in run[k + 1].j.journal
    ensures KeepsRequest(run[k].j.journal[t], run[k + 1].j.journal[t], events[k].Complete?)
  {
    RunInv(h, run, events, k);
    assert Happens(h, run, events, k);
    PaidIsOrdered(run[k]);
    StepKeepsRequest(h, run[k], events[k], t);
  }

  lemma {:induction false} GenerationsAreMonotone(h: Hashes, run: seq<Sys>, events: seq<Event>, i: nat, k: nat,
                                                  t: TaskId)
    requires Run(h, run, events) && i <= k < |run| && t in run[i].j.journal
    ensures t in run[k].j.journal
    ensures run[i].j.journal[t].requestedRecovery <= run[k].j.journal[t].requestedRecovery
    ensures run[i].j.journal[t].completedRecovery <= run[k].j.journal[t].completedRecovery
    ensures Requested(run[i].j.journal[t]) && (forall n :: i <= n < k ==> !events[n].Complete?) ==>
              Requested(run[k].j.journal[t])
    decreases k
  {
    if i < k {
      GenerationsAreMonotone(h, run, events, i, k - 1, t);
      RunKeepsRequest(h, run, events, k - 1, t);
    }
  }
}
