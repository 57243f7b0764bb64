/** Values shared by every part of the maintenance model: the private task record
    that `backup.begin` creates and `backup.save` rewrites, and its components. */
module Records {

  datatype Option<+T> = None | Some(value: T)

  /** Canonical UUID v4 text; only its identity matters here. */
  type TaskId = string

  /** Lower-case hexadecimal SHA-256 text. */
  type Digest = string

  datatype Status = Running | RecoveryRequired | Succeeded | Failed

  /** The statuses for which `begin` refuses new work and `recover` does something. */
  predicate Unfinished(s: Status) {
    s.Running? || s.RecoveryRequired?
  }

  datatype Request =
    | Backup(previewDigest: Digest)
    | NativeUpgrade(previewDigest: Digest)
    | RestoreVerify(backupId: TaskId, ciphertext: Digest, storageGib: nat)

  datatype Artifact = Artifact(sha256: Digest, bytes: nat, files: nat)

  datatype Role = Control | Relay | Peer

  /** A pinned container identity as recorded in the profile. */
  datatype Container = Container(id: string, name: string)

  /** What `native_repair.predecessor` reviewed about the failed task. */
  datatype Supersedes = Supersedes(id: TaskId, profileDigest: Digest, requestDigest: Digest, journalDigest: Digest)

  datatype OutcomeState = OutcomeRecoveryRequired | OutcomeSucceeded | OutcomeRolledBack

  datatype Outcome = Outcome(role: Role, version: string, manifestSha: Digest, currentSha: Digest,
                             state: OutcomeState, runtimeChecked: bool)

  /** One durable `tasks/<id>.json`. Keys the source adds later are absent options
      or zero, exactly what its `record.get` defaults give. Timestamps are left out. */
  datatype Record = Record(
    id: TaskId,
    request: Request,
    profileDigest: Digest,
    version: nat,
    status: Status,
    stage: string,
    errorCode: Option<string>,
    artifact: Option<Artifact>,
    stopIntents: seq<Container>,
    recoveryPending: seq<string>,
    cleanupPending: bool,
    isolatedName: Option<string>,
    beforeJournal: Option<Digest>,
    nativeRole: Option<Role>,
    supersedes: Option<Supersedes>,
    supersededBy: Option<TaskId>,
    requestedRecovery: nat,
    completedRecovery: nat,
    upgrade: Option<Outcome>)

  type Journal = map<TaskId, Record>

  /** The record `begin` writes. */
  function Fresh(id: TaskId, request: Request, profileDigest: Digest): Record {
    Record(id, request, profileDigest, 1, Running, "preflight", None, None, [], [], false, None,
           None, None, None, None, 0, 0, None)
  }

  /** `save`: the caller's changes, one version higher. */
  function Bump(r: Record): Record {
    r.(version := r.version + 1)
  }
}
