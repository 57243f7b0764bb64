/** The native task functions as the source runs them: `journal` is the directory of task
    records, changed in place, and every durable write is recorded. Values read from the
    updater are parameters. Each method is proved against `Native`. */
module NativeTasks {
  import opened Records
  import opened Native
  import opened JournalDiscipline

  class TaskFiles {
    var journal: Journal
    ghost var writes: seq<Record>

    constructor (j: Journal)
      ensures journal == j && writes == []
    {
      journal, writes := j, [];
    }

    /** `backup.save`. */
    method Save(r: Record)
      modifies this
      ensures journal == old(journal)[r.id := Bump(r)]
      ensures writes == old(writes) + [Bump(r)]
    {
      journal := journal[r.id := Bump(r)];
      writes := writes + [Bump(r)];
    }

    /** `save_observation`: nothing is written when nothing would change. */
    method RecordObservation(id: TaskId, o: Observation)
      requires id in journal && journal[id].id == id
      modifies this
      ensures journal == old(journal)[id := SaveObservation(old(journal)[id], o)]
      ensures writes == old(writes) + (if journal == old(journal) then [] else [journal[id]])
    {
      var r := journal[id];
      if r.status != o.status || r.stage != o.stage || r.errorCode != o.errorCode
         || (o.artifact.Some? && r.artifact != o.artifact.value) || (o.upgrade.Some? && r.upgrade != o.upgrade.value)
      {
        Save(Updated(r, o));
        assert journal[id].version != old(journal)[id].version;
      } else {
        assert journal[id := journal[id]] == journal;
      }
    }

    /** `native_repair.reconcile`. */
    method ReconcileRepair(h: Hashes, p: Profile, u: Updater, r: Record) returns (raised: bool)
      requires forall t :: t in journal ==> journal[t].id == t
      modifies this
      ensures Reconcile(h, p, u, old(journal), r) == (if raised then Raised else Journaled(journal))
      ensures raised ==> journal == old(journal) && writes == old(writes)
      ensures forall t :: t in old(journal) && t in journal && journal[t] != old(journal)[t] ==>
                r.supersedes.Some? && t == r.supersedes.value.id && journal[t].supersededBy == Some(r.id)
    {
      if r.supersedes.None? { return false; }
      var s := r.supersedes.value;
      if p.role !in u.retained || h.transaction(Some(u.retained[p.role])) != s.journalDigest { return true; }
      if s.id !in journal { return true; }
      var previous := journal[s.id];
      if previous.supersededBy == Some(r.id) && previous.status == Failed { return false; }
      if previous.profileDigest != s.profileDigest || h.request(previous.request) != s.requestDigest
         || !Unfinished(previous.status)
      {
        return true;
      }
      Save(previous.(status := Failed, stage := "superseded", errorCode := Some("native_superseded"), upgrade := None,
                     artifact := None, supersededBy := Some(r.id)));
      return false;
    }

    /** `observe`. */
    method ObserveTask(h: Hashes, p: Profile, u: Updater, id: TaskId) returns (raised: bool)
      requires id in journal
      requires forall t :: t in journal ==> journal[t].id == t
      modifies this
      ensures Observe(h, p, u, old(journal), id) == (if raised then Raised else Journaled(journal))
      ensures raised ==>
                journal == old(journal) || Reconcile(h, p, u, old(journal), old(journal)[id]) == Journaled(journal)
    {
      var r := journal[id];
      if u.running {
        RecordObservation(id, Busy());
        return false;
      }
      var tx := CliTransaction(u, p.role);
      if !Owns(p, r, tx) {
        RecordObservation(id, Foreign(h, r, tx));
        return false;
      }
      raised := ReconcileRepair(h, p, u, r);
      if raised { return; }
      var version := SelectedVersion(tx.value);
      if version !in u.versions || id !in journal { return true; }
      RecordObservation(id, Own(p, tx.value, u.versions[version]));
      return false;
    }
  }

  datatype Lookup = Found(predecessor: Option<Supersedes>) | Refused

  /** The directory listing `predecessor` walks: each record of the journal once. */
  ghost predicate Lists(records: seq<Record>, j: Journal) {
    && (forall t :: t in j ==> j[t] in records && j[t].id == t)
    && (forall i :: 0 <= i < |records| ==> records[i].id in j && j[records[i].id] == records[i])
    && (forall i, k :: 0 <= i < k < |records| ==> records[i].id != records[k].id)
  }

  /** The loop that collects the unfinished records. */
  method CollectActive(records: seq<Record>) returns (active: seq<Record>)
    requires forall i, k :: 0 <= i < k < |records| ==> records[i].id != records[k].id
    ensures forall k :: 0 <= k < |active| ==> active[k] in records && Unfinished(active[k].status)
    ensures forall r :: r in records && Unfinished(r.status) ==> r in active
    ensures forall k, l :: 0 <= k < l < |active| ==> active[k].id != active[l].id
  {
    active := [];
    var i := 0;
    while i < |records|
      invariant 0 <= i <= |records|
      invariant forall k :: 0 <= k < |active| ==> active[k] in records[..i] && Unfinished(active[k].status)
      invariant forall r :: r in records[..i] && Unfinished(r.status) ==> r in active
      invariant forall k, l :: 0 <= k < l < |active| ==> active[k].id != active[l].id
    {
      assert records[..i + 1] == records[..i] + [records[i]];
      assert forall r :: r in records[..i] ==> r.id != records[i].id;
      if Unfinished(records[i].status) {
        active := active + [records[i]];
      }
      i := i + 1;
    }
    assert records[..i] == records;
  }

  lemma {:induction false} ActiveIs(records: seq<Record>, j: Journal, active: seq<Record>)
    requires Lists(records, j)
    requires forall k :: 0 <= k < |active| ==> active[k] in records && Unfinished(active[k].status)
    requires forall r :: r in records && Unfinished(r.status) ==> r in active
    requires forall k, l :: 0 <= k < l < |active| ==> active[k].id != active[l].id
    ensures |active| == 0 ==> Active(j) == {}
    ensures |active| == 1 ==> Active(j) == {active[0].id} && j[active[0].id] == active[0]
    ensures |active| > 1 ==> active[0].id in Active(j) && active[1].id in Active(j) && active[0].id != active[1].id
  {
  }

  /** `native_repair.predecessor`: it finds the one task a repair may replace, or nothing when nothing
      is unfinished, and refuses exactly when neither holds. */
  method FindPredecessor(h: Hashes, p: Profile, j: Journal, tx: Option<Transaction>, records: seq<Record>)
    returns (found: Lookup)
    requires Lists(records, j)
    ensures found.Found? ==> IsPredecessor(h, p, j, tx, found.predecessor)
    ensures found.Refused? ==> forall s :: !IsPredecessor(h, p, j, tx, s)
  {
    var active := CollectActive(records);
    ActiveIs(records, j, active);
    if |active| == 0 { return Found(None); }
    if |active| != 1 { return Refused; }
    var r := active[0];
    if !p.repair || tx.None? { return Refused; }
    if r.status != RecoveryRequired || !r.request.NativeUpgrade? || r.nativeRole != Some(p.role)
       || tx.value.role != p.role || !tx.value.stage.NeedsRecovery?
       || tx.value.approvedPreview != Some(r.request.previewDigest)
    {
      return Refused;
    }
    return Found(Some(Supersedes(r.id, r.profileDigest, h.request(r.request), h.transaction(tx))));
  }
}
