/** Native upgrades: what one look at the foreign updater journal means for a task, the
    predecessor check of a repair, and the bookkeeping that supersedes the repaired task.
    Whole runs, with crashes and an updater that moves by itself, are in `NativeRuns`. */
module Native {
  import opened Records
  import opened JournalDiscipline

  // ---------- The updater, seen from outside ----------

  datatype UpdateStage = Prepared | RestartPending | NeedsRecovery | Installed | RolledBack
  datatype Direction = Install | Rollback
  datatype Manifest = Manifest(version: string, content: string)

  datatype Transaction = Transaction(role: Role, manifest: Manifest, previousVersion: string, direction: Direction,
                                     stage: UpdateStage, approvedPreview: Option<Digest>)

  datatype Binary = Binary(sha256: Digest, size: nat)

  /** `update.lock`, each role's journal and retained journal, and the installed binaries. */
  datatype Updater = Updater(running: bool, current: map<Role, Transaction>, retained: map<Role, Transaction>,
                             versions: map<string, Binary>)

  /** A registered native profile; its inputs are pinned by `digest`. */
  datatype Profile = Profile(digest: Digest, role: Role, repair: bool, manifest: Manifest, manifestSha: Digest,
                             artifactSha: Digest, artifactBytes: nat)

  /** `digest` on the two kinds of value the source compares, and the registered profile that a
      profile digest pins. Nothing below needs the digests injective. */
  datatype Hashes = Hashes(transaction: Option<Transaction> -> Digest, request: Request -> Digest,
                           profile: Digest -> Profile)

  function CliTransaction(u: Updater, role: Role): Option<Transaction> {
    if role in u.current then Some(u.current[role]) else None
  }

  /** `owns_transaction`. */
  predicate Owns(p: Profile, r: Record, tx: Option<Transaction>) {
    && r.request.NativeUpgrade?
    && tx.Some?
    && tx.value.manifest == p.manifest && tx.value.role == p.role
    && tx.value.approvedPreview == Some(r.request.previewDigest)
  }

  // ---------- save_observation ----------

  /** The keyword arguments of one `save_observation`; an absent key is None. */
  datatype Observation = Observation(status: Status, stage: string, errorCode: Option<string>,
                                     artifact: Option<Option<Artifact>>, upgrade: Option<Option<Outcome>>)

  function Updated(r: Record, o: Observation): Record {
    r.(status := o.status, stage := o.stage, errorCode := o.errorCode,
       artifact := if o.artifact.Some? then o.artifact.value else r.artifact,
       upgrade := if o.upgrade.Some? then o.upgrade.value else r.upgrade)
  }

  function SaveObservation(r: Record, o: Observation): Record {
    if Updated(r, o) == r then r else Bump(Updated(r, o))
  }

  // ---------- What observe decides ----------

  const PREFLIGHT_FAILED := "native_preflight_failed"

  function Busy(): Observation {
    Observation(Running, "native_running", None, None, Some(None))
  }

  function Unknown(): Observation {
    Observation(RecoveryRequired, "native_recovery_required", Some("native_result_unknown"), None, None)
  }

  /** A journal that is not this task's: unchanged means nothing happened, anything else is unknown. */
  function Foreign(h: Hashes, r: Record, tx: Option<Transaction>): Observation {
    if Some(h.transaction(tx)) == r.beforeJournal then
      Observation(Failed, "preflight", Some(PREFLIGHT_FAILED), Some(None), Some(None))
    else
      Observation(RecoveryRequired, "native_recovery_required", Some("native_result_unknown"), Some(None), Some(None))
  }

  function SelectedVersion(tx: Transaction): string {
    if tx.direction.Rollback? then tx.previousVersion else tx.manifest.version
  }

  /** The task's own journal, and the binary it points at. */
  function Own(p: Profile, tx: Transaction, b: Binary): Observation {
    var seen := Outcome(p.role, SelectedVersion(tx), p.manifestSha, b.sha256, OutcomeRecoveryRequired, false);
    if tx.stage.Installed? && b.sha256 == p.artifactSha && b.size == p.artifactBytes then
      Observation(Succeeded, "succeeded", None, Some(Some(Artifact(b.sha256, b.size, 1))),
                  Some(Some(seen.(state := OutcomeSucceeded, runtimeChecked := true))))
    else if tx.stage.RolledBack? then
      Observation(Failed, "rolled_back", Some("native_upgrade_rolled_back"), Some(Some(Artifact(b.sha256, b.size, 1))),
                  Some(Some(seen.(state := OutcomeRolledBack, runtimeChecked := true))))
    else
      Observation(RecoveryRequired, "native_recovery_required", Some("native_recovery_required"), Some(None),
                  Some(Some(seen)))
  }

  // ---------- Repair ----------

  /** `predecessor`: the exact failed task a repair may replace, None when nothing is unfinished. */
  predicate IsPredecessor(h: Hashes, p: Profile, j: Journal, tx: Option<Transaction>, result: Option<Supersedes>) {
    match result
    case None => Active(j) == {}
    case Some(s) =>
      && Active(j) == {s.id}
      && p.repair && tx.Some?
      && (var r := j[s.id];
          && r.id == s.id
          && r.status == RecoveryRequired && r.request.NativeUpgrade?
          && r.nativeRole == Some(p.role)
          && tx.value.role == p.role && tx.value.stage.NeedsRecovery?
          && tx.value.approvedPreview == Some(r.request.previewDigest)
          && s == Supersedes(r.id, r.profileDigest, h.request(r.request), h.transaction(tx)))
  }

  /** The record a repaired task ends with. */
  function SupersededRecord(r: Record, repair: TaskId): Record {
    Bump(r.(status := Failed, stage := "superseded", errorCode := Some("native_superseded"), upgrade := None,
            artifact := None, supersededBy := Some(repair)))
  }

  /** The checks of `reconcile` on the old task, after the retained journal was compared. */
  predicate MaySupersede(h: Hashes, s: Supersedes, previous: Record) {
    && previous.profileDigest == s.profileDigest
    && h.request(previous.request) == s.requestDigest
    && Unfinished(previous.status)
  }

  datatype Reconciled = Journaled(journal: Journal) | Raised

  /** `reconcile`. */
  function Reconcile(h: Hashes, p: Profile, u: Updater, j: Journal, r: Record): Reconciled {
    if r.supersedes.None? then Journaled(j)
    else
      var s := r.supersedes.value;
      if p.role !in u.retained || h.transaction(Some(u.retained[p.role])) != s.journalDigest || s.id !in j then Raised
      else
        var previous := j[s.id];
        if previous.supersededBy == Some(r.id) && previous.status == Failed then Journaled(j)
        else if MaySupersede(h, s, previous) then Journaled(j[s.id := SupersededRecord(previous, r.id)])
        else Raised
  }

  /** `observe` against an updater that does not move meanwhile. */
  function Observe(h: Hashes, p: Profile, u: Updater, j: Journal, id: TaskId): Reconciled
    requires id in j
  {
    var r := j[id];
    if u.running then Journaled(j[id := SaveObservation(r, Busy())])
    else
      var tx := CliTransaction(u, p.role);
      if !Owns(p, r, tx) then Journaled(j[id := SaveObservation(r, Foreign(h, r, tx))])
      else
        match Reconcile(h, p, u, j, r)
        case Raised => Raised
        case Journaled(j') =>
          var version := SelectedVersion(tx.value);
          if version !in u.versions || id !in j' then Raised
          else Journaled(j'[id := SaveObservation(j'[id], Own(p, tx.value, u.versions[version]))])
  }

  /** Looking again at an unchanged system writes nothing, so it produces no new version
      and no new report; reconciling twice changes nothing more either. */
  lemma {:induction false} ObserveIsIdempotent(h: Hashes, p: Profile, u: Updater, j: Journal, id: TaskId)
    requires id in j && j[id].id == id
    requires j[id].supersedes.Some? ==> j[id].supersedes.value.id != id
    requires Observe(h, p, u, j, id).Journaled?
    ensures var j' := Observe(h, p, u, j, id).journal;
            id in j' && Observe(h, p, u, j', id) == Journaled(j')
  {
    var j' := Observe(h, p, u, j, id).journal;
    var r, r' := j[id], j'[id];
    assert r'.request == r.request && r'.beforeJournal == r.beforeJournal && r'.supersedes == r.supersedes
      && r'.id == id;
    assert j'[id := r'] == j';
    if !u.running && Owns(p, r, CliTransaction(u, p.role)) && r.supersedes.Some? {
      var prior := r.supersedes.value.id;
      assert j'[prior].supersededBy == Some(id) && j'[prior].status == Failed;
      assert Reconcile(h, p, u, j', r') == Journaled(j');
    }
  }
}
