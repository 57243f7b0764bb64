/** The isolated restore verification: `execute`, `cleanup`, `recover` and `remove_owned` of
    `restore.py`. It creates one disposable container and one plaintext stage, and its
    promise is that neither outlives the task and that nothing else is ever removed. As for
    the backup, `log` holds the world after every effect and a crash cuts it anywhere. */
module RestoreRuns {
  import opened Records
  import JournalDiscipline

  type BoxId = string

  /** What `docker inspect` shows of a container. `isolated`: no network, only tmpfs mounts. */
  datatype Box = Box(labelled: Option<TaskId>, name: string, isolated: bool)

  /** A container this program created for a task. */
  datatype Made = Made(task: TaskId, id: BoxId)

  /** What one `inspect` saw. */
  datatype Look = Look(id: BoxId, box: Box)

  /** A container `docker rm` was asked to remove: as `cleanup` saw it when it checked the name,
      and as it was when `remove_owned` had checked the rest. */
  datatype Removal = Removal(task: TaskId, id: BoxId, named: Box, removed: Box)

  datatype World = World(
    journal: Journal,
    stages: set<TaskId>,          // `.verify-<id>` directories that exist
    boxes: map<BoxId, Box>,
    made: set<Made>,
    verified: set<TaskId>,        // restored database and material were both accepted
    look: Option<Look>,           // the last look at a container by name
    removals: seq<Removal>)

  function NameOf(t: TaskId): string {
    "peerward-restore-" + t
  }

  // ---------- The invariant of every crash point ----------

  predicate IsOpen(j: Journal, t: TaskId) {
    t in j && j[t].id == t && j[t].request.RestoreVerify? && Unfinished(j[t].status)
  }

  /** A surviving container carries its task's label, and that task is unfinished and has
      the deterministic name on disk, which is all that cleanup needs to find it. */
  predicate Tracked(w: World, m: Made) {
    m.id in w.boxes ==>
      w.boxes[m.id].labelled == Some(m.task) && IsOpen(w.journal, m.task)
        && w.journal[m.task].isolatedName == Some(NameOf(m.task))
  }

  ghost predicate BoxesAreTracked(w: World) {
    forall m :: m in w.made ==> Tracked(w, m)
  }

  ghost predicate StagesAreOpen(w: World) {
    forall t :: t in w.stages ==> IsOpen(w.journal, t)
  }

  ghost predicate SuccessIsVerified(w: World) {
    forall t :: t in w.journal && w.journal[t].request.RestoreVerify? && w.journal[t].status.Succeeded? ==>
      t in w.verified
  }

  ghost predicate Inv(w: World) {
    BoxesAreTracked(w) && StagesAreOpen(w) && SuccessIsVerified(w)
  }

  // ---------- Removing ----------

  /** Carrying the task's label and name, and isolated. */
  predicate Owned(t: TaskId, box: Box) {
    box.labelled == Some(t) && box.name == NameOf(t) && box.isolated
  }

  /** Whether a listed container is removed, from what the two looks at it saw: `cleanup`
      checks the name at the first, `remove_owned` label and isolation at the second. */
  predicate Removes(t: TaskId, first: Option<Box>, second: Option<Box>) {
    && first.Some? && first.value.name == NameOf(t)
    && second.Some? && second.value.labelled == Some(t) && second.value.isolated
  }

  /** What is removed carries the name exactly when it was not renamed between the looks. */
  lemma {:induction false} NameHoldsUnlessRenamed(t: TaskId, first: Option<Box>, second: Option<Box>)
    requires Removes(t, first, second)
    ensures Owned(t, second.value) <==> second.value.name == first.value.name
  {
  }

  /** A container renamed between the looks is removed under a name that is not the task's. */
  lemma {:induction false} RenamedIsRemoved(t: TaskId) returns (first: Box, second: Box)
    ensures Owned(t, first) && second == first.(name := second.name)
    ensures Removes(t, Some(first), Some(second)) && !Owned(t, second)
  {
    first := Box(Some(t), NameOf(t), true);
    second := first.(name := "");
    assert |NameOf(t)| > 0;
  }

  // ---------- What one effect may change ----------

  /** A look shows a container as it is. */
  predicate LooksReally(w: World, w': World) {
    w'.look == w.look ||
      (w'.look.Some? && w'.look.value.id in w.boxes && w.boxes[w'.look.value.id] == w'.look.value.box)
  }

  /** `docker rm` is asked only for the container just looked at, under both checks. */
  predicate RemovesReally(w: World, r: Removal) {
    && w.look == Some(Look(r.id, r.named))
    && r.id in w.boxes && w.boxes[r.id] == r.removed && Removes(r.task, Some(r.named), Some(r.removed))
  }

  ghost predicate Follows(w: World, w': World) {
    && JournalDiscipline.WritesRecord(w.journal, w'.journal)
    && w.made <= w'.made && w.verified <= w'.verified
    && LooksReally(w, w')
    && (w'.removals == w.removals || exists r :: RemovesReally(w, r) && w'.removals == w.removals + [r])
  }

  function At(log: seq<World>, i: nat): World
    requires i < |log|
  {
    log[i]
  }

  /** A run from an empty journal: every world keeps the invariant and follows from the one before. */
  ghost predicate Logged(log: seq<World>) {
    && log != [] && At(log, 0).journal == map[] && At(log, 0).look == None && At(log, 0).removals == []
    && (forall i: nat :: i < |log| ==> Inv(At(log, i)))
    && (forall i: nat :: i < |log| - 1 ==> Follows(At(log, i), At(log, i + 1)))
  }

  lemma {:induction false} LoggedGrows(log: seq<World>, w: World)
    requires Logged(log) && Inv(w) && Follows(log[|log| - 1], w)
    ensures Logged(log + [w])
  {
    var longer := log + [w];
    assert At(longer, 0) == At(log, 0);
    forall i: nat | i < |longer|
      ensures Inv(At(longer, i))
    {
      if i < |log| { assert At(longer, i) == At(log, i); }
    }
    forall i: nat | i < |longer| - 1
      ensures Follows(At(longer, i), At(longer, i + 1))
    {
      assert At(longer, i) == At(log, i);
      if i + 1 < |log| { assert At(longer, i + 1) == At(log, i + 1); }
    }
  }

  lemma {:induction false} LoggedPrefix(log: seq<World>, n: nat)
    requires 0 < n <= |log| && Logged(log)
    ensures Logged(log[..n])
  {
    forall i: nat | i < n
      ensures At(log[..n], i) == At(log, i)
    {
    }
  }

  // ---------- One effect keeps the invariant ----------

  /** Nothing this program made for the task is left. */
  ghost predicate Cleared(w: World, t: TaskId) {
    t !in w.stages && forall m :: m in w.made && m.task == t ==> m.id !in w.boxes
  }

  predicate SameTask(was: Record, r: Record) {
    && r.id == was.id && r.request == was.request && r.profileDigest == was.profileDigest && r.version == was.version
    && (was.isolatedName.Some? ==> r.isolatedName == was.isolatedName)
  }

  lemma {:induction false} SaveKeepsInv(w: World, r: Record)
    requires Inv(w) && IsOpen(w.journal, r.id) && SameTask(w.journal[r.id], r)
    requires !Unfinished(r.status) ==> Cleared(w, r.id)
    requires r.status.Succeeded? ==> r.id in w.verified
    ensures Inv(w.(journal := w.journal[r.id := Bump(r)]))
  {
  }

  lemma {:induction false} BeginKeepsInv(w: World, r: Record)
    requires Inv(w) && r.id !in w.journal && r.status == Running
    ensures Inv(w.(journal := w.journal[r.id := r]))
  {
  }

  lemma {:induction false} OtherRecordKeepsInv(w: World, r: Record)
    requires Inv(w) && !r.request.RestoreVerify? && (r.id in w.journal ==> !w.journal[r.id].request.RestoreVerify?)
    ensures Inv(w.(journal := w.journal[r.id := r]))
  {
  }

  /** What others can do to containers: labels never change and IDs are never reused. */
  ghost predicate Plausible(w: World, boxes: map<BoxId, Box>) {
    forall m :: m in w.made && m.id in boxes ==> m.id in w.boxes && boxes[m.id].labelled == w.boxes[m.id].labelled
  }

  lemma {:induction false} BoxesKeepInv(w: World, boxes: map<BoxId, Box>, look: Option<Look>, removals: seq<Removal>)
    requires Inv(w) && Plausible(w, boxes)
    ensures Inv(w.(boxes := boxes, look := look, removals := removals))
  {
  }

  lemma {:induction false} CreateKeepsInv(w: World, t: TaskId, id: BoxId)
    requires Inv(w) && IsOpen(w.journal, t) && w.journal[t].isolatedName == Some(NameOf(t))
    requires id !in w.boxes && forall m :: m in w.made ==> m.id != id
    ensures Inv(w.(boxes := w.boxes[id := Box(Some(t), NameOf(t), true)], made := w.made + {Made(t, id)}))
  {
  }

  lemma {:induction false} FilesKeepInv(w: World, stages: set<TaskId>, verified: set<TaskId>)
    requires Inv(w) && w.verified <= verified
    requires forall t :: t in stages ==> t in w.stages || IsOpen(w.journal, t)
    ensures Inv(w.(stages := stages, verified := verified))
  {
  }

  // ---------- The program ----------

  datatype Outcome = Done | Refused | Died

  datatype Command =
    | RunVerify(id: TaskId, profileDigest: Digest, backupId: TaskId, storageGib: int, box: BoxId)
    | RunRecover(id: TaskId, profileDigest: Digest)
    | RunOther(record: Record, admission: JournalDiscipline.Admission)

  class Verification {
    var world: World
    var log: seq<World>
    var calm: bool   // nobody interferes and every command works

    ghost predicate Valid()
      reads this
    {
      |log| > 0 && log[|log| - 1] == world && Logged(log)
    }

    constructor (boxes: map<BoxId, Box>)
      ensures Valid() && world == World(map[], {}, boxes, {}, {}, None, []) && log == [world]
    {
      world := World(map[], {}, boxes, {}, {}, None, []);
      log := [World(map[], {}, boxes, {}, {}, None, [])];
    }

    lemma {:induction false} InvNow()
      requires Valid()
      ensures Inv(world)
    {
      assert Inv(At(log, |log| - 1));
    }

    method Advance(w: World)
      requires Valid() && Inv(w) && Follows(world, w)
      modifies this`world, this`log
      ensures Valid() && world == w && log == old(log) + [w]
    {
      LoggedGrows(log, w);
      world := w;
      log := log + [w];
    }

    method Save(r: Record)
      requires Valid() && IsOpen(world.journal, r.id) && SameTask(world.journal[r.id], r)
      requires !Unfinished(r.status) ==> Cleared(world, r.id)
      requires r.status.Succeeded? ==> r.id in world.verified
      modifies this`world, this`log
      ensures Valid() && old(log) <= log
      ensures world == old(world).(journal := old(world).journal[r.id := Bump(r)])
    {
      InvNow();
      SaveKeepsInv(world, r);
      assert JournalDiscipline.Saves(world.journal, world.journal[r.id := Bump(r)], Bump(r));
      Advance(world.(journal := world.journal[r.id := Bump(r)]));
    }

    // ---------- Docker ----------

    /** Others create, rename and remove containers, at any moment. */
    method Others()
      requires Valid()
      modifies this`world, this`log
      ensures Valid() && old(log) <= log
      ensures world == old(world).(boxes := world.boxes) && Plausible(old(world), world.boxes)
      ensures calm ==> world == old(world)
    {
      if calm { return; }
      var boxes: map<BoxId, Box> := *;
      if forall m :: m in world.made && m.id in boxes ==>
           m.id in world.boxes && boxes[m.id].labelled == world.boxes[m.id].labelled
      {
        InvNow();
        BoxesKeepInv(world, boxes, world.look, world.removals);
        Advance(world.(boxes := boxes));
      }
    }

    /** `docker create` under the recorded name and label, which gives the container the ID
        `id`; a failed command may have worked. */
    method Create(t: TaskId, id: BoxId) returns (ok: bool)
      requires Valid() && IsOpen(world.journal, t) && world.journal[t].isolatedName == Some(NameOf(t))
      modifies this`world, this`log
      ensures Valid() && old(log) <= log
      ensures world == old(world).(boxes := world.boxes, made := world.made)
      ensures calm && Unambiguous(old(world), t) ==> Unambiguous(world, t)
      ensures calm && Unused(old(world), id) ==> ok
    {
      Others();
      var works: bool, worked: bool := *, *;
      ok := calm || (works && worked);
      if !Unused(world, id) || !(calm || worked) { return false; }
      InvNow();
      CreateKeepsInv(world, t, id);
      Advance(world.(boxes := world.boxes[id := Box(Some(t), NameOf(t), true)], made := world.made + {Made(t, id)}));
    }

    /** The `inspect` in `cleanup`, remembered. */
    method LookAt(id: BoxId) returns (box: Option<Box>)
      requires Valid()
      modifies this`world, this`log
      ensures Valid() && old(log) <= log
      ensures world == old(world).(boxes := world.boxes, look := world.look) && Plausible(old(world), world.boxes)
      ensures box.Some? <==> id in world.boxes
      ensures box.Some? ==> box.value == world.boxes[id] && world.look == Some(Look(id, box.value))
      ensures calm ==> world.boxes == old(world).boxes
    {
      Others();
      if id !in world.boxes { return None; }
      box := Some(world.boxes[id]);
      InvNow();
      BoxesKeepInv(world, world.boxes, Some(Look(id, box.value)), world.removals);
      Advance(world.(look := Some(Look(id, box.value))));
    }

    /** One listed container: the name check of `cleanup`, then `remove_owned` with a second
        look at label and isolation, then `docker rm`. `first` and `second` are the looks. */
    method RemoveOwned(t: TaskId, id: BoxId) returns (ok: bool, first: Option<Box>, second: Option<Box>)
      requires Valid()
      modifies this`world, this`log
      ensures Valid() && old(log) <= log
      ensures world == old(world).(boxes := world.boxes, look := world.look, removals := world.removals)
      ensures Plausible(old(world), world.boxes)
      ensures world.removals == old(world).removals +
                (if Removes(t, first, second) then [Removal(t, id, first.value, second.value)] else [])
      ensures ok ==> Removes(t, first, second) && id !in world.boxes
      ensures calm && id in old(world).boxes && Owned(t, old(world).boxes[id]) ==>
                ok && world.boxes == old(world).boxes - {id}
    {
      second := None;
      first := LookAt(id);
      if first.None? || first.value.name != NameOf(t) { return false, first, second; }
      Others();
      if id !in world.boxes { return false, first, second; }
      second := Some(world.boxes[id]);
      if second.value.labelled != Some(t) || !second.value.isolated { return false, first, second; }
      var works: bool := *;
      ok := calm || works;
      var boxes := if ok then world.boxes - {id} else world.boxes;
      var r := Removal(t, id, first.value, second.value);
      InvNow();
      BoxesKeepInv(world, boxes, world.look, world.removals + [r]);
      assert RemovesReally(world, r);
      Advance(world.(boxes := boxes, removals := world.removals + [r]));
    }

    /** `cleanup`: afterwards nothing this program made for the task is left, or it refuses. */
    method Cleanup(t: TaskId) returns (r: Outcome)
      requires Valid() && IsOpen(world.journal, t)
      modifies this`world, this`log
      ensures Valid() && old(log) <= log
      ensures world == old(world).(boxes := world.boxes, look := world.look, removals := world.removals,
                                   stages := world.stages)
      ensures r.Done? ==> Cleared(world, t)
      ensures calm && Unambiguous(old(world), t) && NamedRight(old(world).journal[t]) ==> r.Done?
    {
      if world.journal[t].isolatedName.Some? {
        if world.journal[t].isolatedName.value != NameOf(t) { return Refused; }
        Others();
        var listed := set id | id in world.boxes && world.boxes[id].labelled == Some(t);
        var ok := RemoveListed(t, listed);
        if !ok { return Refused; }
      } else {
        InvNow();
        assert forall m :: m in world.made && m.task == t ==> Tracked(world, m);
      }
      var removed := RemoveStage(t);
      return if removed then Done else Died;
    }

    /** The loop over the listed containers. */
    method RemoveListed(t: TaskId, listed: set<BoxId>) returns (ok: bool)
      requires Valid() && forall id :: id in world.boxes && world.boxes[id].labelled == Some(t) ==> id in listed
      modifies this`world, this`log
      ensures Valid() && old(log) <= log
      ensures world == old(world).(boxes := world.boxes, look := world.look, removals := world.removals)
      ensures ok ==> forall m :: m in world.made && m.task == t ==> m.id !in world.boxes
      ensures calm && (forall id :: id in listed ==> id in old(world).boxes && Owned(t, old(world).boxes[id])) ==> ok
    {
      InvNow();
      assert forall m :: m in world.made && m.task == t && m.id in world.boxes ==> Tracked(world, m) && m.id in listed;
      var left := listed;
      while left != {}
        invariant Valid() && old(log) <= log
        invariant world == old(world).(boxes := world.boxes, look := world.look, removals := world.removals)
        invariant forall m :: m in world.made && m.task == t && m.id in world.boxes ==> m.id in left
        invariant left <= listed
        invariant calm && (forall id :: id in listed ==> id in old(world).boxes && Owned(t, old(world).boxes[id])) ==>
                    forall id :: id in left ==> id in world.boxes && world.boxes[id] == old(world).boxes[id]
      {
        var id :| id in left;
        var removed, _, _ := RemoveOwned(t, id);
        if !removed { return false; }
        left := left - {id};
      }
      return true;
    }

    // ---------- Files ----------

    method MakeStage(t: TaskId) returns (ok: bool)
      requires Valid() && IsOpen(world.journal, t)
      modifies this`world, this`log
      ensures Valid() && old(log) <= log && world == old(world).(stages := world.stages)
      ensures calm ==> ok
    {
      var works: bool := *;
      ok := calm || works;
      if ok {
        InvNow();
        FilesKeepInv(world, world.stages + {t}, world.verified);
        Advance(world.(stages := world.stages + {t}));
      }
    }

    method RemoveStage(t: TaskId) returns (ok: bool)
      requires Valid()
      modifies this`world, this`log
      ensures Valid() && old(log) <= log && world == old(world).(stages := world.stages)
      ensures ok ==> t !in world.stages
      ensures calm ==> ok
    {
      ok := true;
      if t in world.stages {
        var works: bool := *;
        ok := calm || works;
        if ok {
          InvNow();
          FilesKeepInv(world, world.stages - {t}, world.verified);
          Advance(world.(stages := world.stages - {t}));
        }
      }
    }

    // ---------- The operations ----------

    /** Start, restore, compare with the snapshot and check the material, in the container. */
    method Check(t: TaskId) returns (ok: bool)
      requires Valid() && IsOpen(world.journal, t)
      modifies this`world, this`log
      ensures Valid() && old(log) <= log && world == old(world).(boxes := world.boxes, verified := world.verified)
      ensures ok ==> t in world.verified
      ensures calm ==> ok && world.boxes == old(world).boxes
    {
      Others();
      var works: bool := *;
      ok := calm || works;
      if ok {
        InvNow();
        FilesKeepInv(world, world.stages, world.verified + {t});
        Advance(world.(verified := world.verified + {t}));
      }
    }

    /** The body of the `try`; false stands for an exception. */
    method Verify(t: TaskId, box: BoxId) returns (ok: bool)
      requires Valid() && IsOpen(world.journal, t) && world.journal[t].isolatedName.None?
      modifies this`world, this`log
      ensures Valid() && old(log) <= log && IsOpen(world.journal, t)
      ensures world.journal == old(world).journal[t := world.journal[t]]
      ensures world.journal[t].status == old(world).journal[t].status
              && world.journal[t].errorCode == old(world).journal[t].errorCode
      ensures ok ==> t in world.verified
      ensures NamedRight(world.journal[t])
      ensures calm && Unambiguous(old(world), t) ==> Unambiguous(world, t)
      ensures calm && Unused(old(world), box) ==> ok
    {
      ok := MakeStage(t);
      if !ok { return; }
      Save(world.journal[t].(stage := "decrypting"));
      var works: bool := *;   // decrypt_archive, provenance and database identity
      ok := calm || works;
      if !ok { return; }
      Save(world.journal[t].(stage := "creating_isolation", isolatedName := Some(NameOf(t))));
      ok := CreateAndCheck(t, box);
    }

    /** The second half of the `try`, once the name is on disk. */
    method CreateAndCheck(t: TaskId, box: BoxId) returns (ok: bool)
      requires Valid() && IsOpen(world.journal, t) && world.journal[t].isolatedName == Some(NameOf(t))
      modifies this`world, this`log
      ensures Valid() && old(log) <= log && IsOpen(world.journal, t)
      ensures world.journal == old(world).journal[t := world.journal[t]]
      ensures world.journal[t] == old(world).journal[t].(version := world.journal[t].version,
                                                         stage := world.journal[t].stage)
      ensures ok ==> t in world.verified
      ensures calm && Unambiguous(old(world), t) ==> Unambiguous(world, t)
      ensures calm && Unused(old(world), box) ==> ok
    {
      ok := Create(t, box);
      if !ok { return; }
      Save(world.journal[t].(stage := "restoring"));
      ok := Check(t);
      if !ok { return; }
      Save(world.journal[t].(stage := "cleanup"));
    }

    /** `execute`: needs a completed backup receipt of the same profile. If nothing kills it,
        the record ends `recovery_required` or, with everything removed, terminal; when nothing
        gets in the way it succeeds. */
    method Execute(t: TaskId, profileDigest: Digest, backupId: TaskId, storageGib: int, box: BoxId) returns (r: Outcome)
      requires Valid()
      modifies this`world, this`log
      ensures Valid() && old(log) <= log
      ensures r.Refused? ==> world == old(world)
      ensures r.Done? ==> Selectable(old(world).journal, backupId, profileDigest) && 1 <= storageGib <= 64
      ensures r.Done? ==> t !in old(world).journal && t in world.journal && Settled(world, t)
      ensures !r.Refused? ==> t in world.journal && world.journal == old(world).journal[t := world.journal[t]]
      ensures (calm && Unused(old(world), box) && Unambiguous(old(world), t) && 1 <= storageGib <= 64
               && Selectable(old(world).journal, backupId, profileDigest)
               && JournalDiscipline.MayBegin(old(world).journal, t, JournalDiscipline.Plain)) ==>
                r.Done? && world.journal[t].status.Succeeded?
    {
      if !(1 <= storageGib <= 64) || !Selectable(world.journal, backupId, profileDigest) { return Refused; }
      var request := RestoreVerify(backupId, world.journal[backupId].artifact.value.sha256, storageGib);
      if t in world.journal { return Refused; }
      if !JournalDiscipline.MayBegin(world.journal, t, JournalDiscipline.Plain) { return Refused; }
      Begin(Fresh(t, request, profileDigest));
      var ok := Verify(t, box);
      if !ok { Save(world.journal[t].(errorCode := Some("isolated_restore_failed"), stage := "cleanup")); }
      r := Conclude(t);
    }

    method Begin(r: Record)
      requires Valid() && JournalDiscipline.MayBegin(world.journal, r.id, JournalDiscipline.Plain)
      requires r == Fresh(r.id, r.request, r.profileDigest)
      modifies this`world, this`log
      ensures Valid() && old(log) <= log && world == old(world).(journal := old(world).journal[r.id := r])
    {
      InvNow();
      BeginKeepsInv(world, r);
      assert JournalDiscipline.Begins(world.journal, world.journal[r.id := r], r, JournalDiscipline.Plain);
      Advance(world.(journal := world.journal[r.id := r]));
    }

    /** The `finally` and what follows it. */
    method Conclude(t: TaskId) returns (r: Outcome)
      requires Valid() && IsOpen(world.journal, t) && world.journal[t].status.Running?
      requires world.journal[t].errorCode.None? ==> t in world.verified
      modifies this`world, this`log
      ensures Valid() && old(log) <= log && t in world.journal && !r.Refused?
      ensures world.journal == old(world).journal[t := world.journal[t]]
      ensures r.Done? ==> Settled(world, t)
      ensures calm && Unambiguous(old(world), t) && NamedRight(old(world).journal[t])
              && old(world).journal[t].errorCode.None? ==>
                r.Done? && world.journal[t].status.Succeeded?
    {
      var cleaned := Cleanup(t);
      if cleaned.Died? { return Died; }
      if cleaned.Refused? {
        Save(world.journal[t].(status := RecoveryRequired, errorCode := Some("isolation_cleanup_required")));
      } else {
        Save(world.journal[t].(status := if world.journal[t].errorCode.None? then Succeeded else Failed,
                               stage := "complete"));
      }
      return Done;
    }

    /** `recover`: an unfinished verification of the same profile fails once it is cleaned up,
        which happens whenever nothing gets in the way. */
    method Recover(t: TaskId, profileDigest: Digest) returns (done: bool)
      requires Valid()
      modifies this`world, this`log
      ensures Valid() && old(log) <= log
      ensures done ==> t in world.journal && world.journal[t].status.Failed? && Cleared(world, t)
      ensures !(old(IsOpen(world.journal, t)) && old(world).journal[t].profileDigest == profileDigest) ==>
              world == old(world) && !done
      ensures !done ==> world.journal == old(world).journal
      ensures (calm && old(IsOpen(world.journal, t)) && old(world).journal[t].profileDigest == profileDigest
               && Unambiguous(old(world), t) && NamedRight(old(world).journal[t])) ==> done
    {
      if !IsOpen(world.journal, t) || world.journal[t].profileDigest != profileDigest { return false; }
      var cleaned := Cleanup(t);
      if !cleaned.Done? { return false; }
      Save(world.journal[t].(status := Failed, stage := "recovered",
                             errorCode := Some("interrupted_verification_not_retried")));
      return true;
    }

    /** Any other operation's write to a record that is not a verification's, repairs included. */
    method OtherTask(r: Record, a: JournalDiscipline.Admission)
      requires Valid()
      modifies this`world, this`log
      ensures Valid() && old(log) <= log
    {
      var j := world.journal[r.id := r];
      if !r.request.RestoreVerify?
         && (JournalDiscipline.Begins(world.journal, j, r, a) || JournalDiscipline.Saves(world.journal, j, r))
      {
        InvNow();
        OtherRecordKeepsInv(world, r);
        Advance(world.(journal := j));
      }
    }

    method Crash(at: nat)
      requires Valid() && at < |log|
      modifies this`world, this`log
      ensures Valid() && log == old(log)[..at + 1] && world == old(log)[at]
    {
      LoggedPrefix(log, at + 1);
      log := log[..at + 1];
      world := log[at];
    }

    /** Any sequence of operations, each completed or cut short anywhere. */
    method Lifetime(commands: seq<Command>)
      requires Valid()
      modifies this
      ensures Valid() && old(log) <= log
    {
      for i := 0 to |commands|
        invariant Valid() && old(log) <= log
      {
        calm := *;
        var start := |log|;
        ghost var before := log;
        match commands[i] {
          case RunVerify(id, profileDigest, backupId, storageGib, box) =>
            var _ := Execute(id, profileDigest, backupId, storageGib, box);
          case RunRecover(id, profileDigest) => var _ := Recover(id, profileDigest);
          case RunOther(r, a) => OtherTask(r, a);
        }
        var at: nat := *;
        if start - 1 <= at < |log| { Crash(at); }
        assert before <= log;
      }
    }
  }

  /** Every container with the task's label also has its name and is isolated. */
  ghost predicate Unambiguous(w: World, t: TaskId) {
    forall id :: id in w.boxes && w.boxes[id].labelled == Some(t) ==> Owned(t, w.boxes[id])
  }

  predicate NamedRight(r: Record) {
    r.isolatedName.Some? ==> r.isolatedName.value == NameOf(r.id)
  }

  predicate Unused(w: World, id: BoxId) {
    id !in w.boxes && forall m :: m in w.made ==> m.id != id
  }

  /** A completed backup receipt for this profile. */
  predicate Selectable(j: Journal, backupId: TaskId, profileDigest: Digest) {
    && backupId in j && j[backupId].request.Backup? && j[backupId].status.Succeeded?
    && j[backupId].profileDigest == profileDigest && j[backupId].artifact.Some?
  }

  /** How a completed `execute` leaves its task. */
  ghost predicate Settled(w: World, t: TaskId)
    requires t in w.journal
  {
    && !w.journal[t].status.Running?
    && (w.journal[t].status.Succeeded? <==> !Unfinished(w.journal[t].status) && w.journal[t].errorCode.None?)
    && (w.journal[t].status.Succeeded? ==> t in w.verified)
    && (!Unfinished(w.journal[t].status) ==> Cleared(w, t))
  }

  // ---------- What every run guarantees ----------

  /** At every crash point: a finished verification has left neither container nor plaintext. */
  lemma {:induction false} FinishedLeavesNothing(log: seq<World>, i: nat, t: TaskId)
    requires Logged(log) && i < |log| && t in log[i].journal && !Unfinished(log[i].journal[t].status)
    ensures Cleared(log[i], t)
  {
    assert Inv(At(log, i));
    forall m | m in log[i].made && m.task == t
      ensures m.id !in log[i].boxes
    {
      assert Tracked(log[i], m);
    }
  }

  /** The records of a run are a run of the journal discipline. */
  lemma {:induction false} LogFollowsDiscipline(log: seq<World>) returns (run: seq<JournalDiscipline.State>)
    requires Logged(log)
    ensures JournalDiscipline.Run(run) && |run| == |log|
    ensures forall i :: 0 <= i < |log| ==> run[i].journal == log[i].journal
  {
    var js := seq(|log|, i requires 0 <= i < |log| => log[i].journal);
    forall i | 0 <= i < |js| - 1
      ensures JournalDiscipline.WritesRecord(js[i], js[i + 1])
    {
      assert Follows(At(log, i), At(log, i + 1));
    }
    run := JournalDiscipline.WritesAreRuns(js);
  }

  /** A remembered look shows the container as it was at some earlier moment. */
  lemma {:induction false} LookWasReal(log: seq<World>, j: nat) returns (i: nat)
    requires Logged(log) && j < |log| && log[j].look.Some?
    ensures i < j && log[j].look.value.id in log[i].boxes && log[i].boxes[log[j].look.value.id] == log[j].look.value.box
    decreases j
  {
    if j > 0 {
      assert Follows(At(log, j - 1), At(log, j - 1 + 1));
      if log[j].look == log[j - 1].look {
        i := LookWasReal(log, j - 1);
      } else {
        i := j - 1;
      }
    }
  }

  /** Whatever the program asked Docker to remove, in the whole run, had the task's name at one
      moment and the task's label and isolation at a later one, when it was removed. */
  lemma {:induction false} OnlyOwnedIsRemoved(log: seq<World>, j: nat, k: nat) returns (looked: nat, removed: nat)
    requires Logged(log) && j < |log| && k < |log[j].removals|
    ensures looked < removed < j
    ensures var r := log[j].removals[k];
            && r.id in log[looked].boxes && log[looked].boxes[r.id] == r.named && r.named.name == NameOf(r.task)
            && r.id in log[removed].boxes && log[removed].boxes[r.id] == r.removed
            && r.removed.labelled == Some(r.task) && r.removed.isolated
    decreases j
  {
    if j > 0 {
      assert Follows(At(log, j - 1), At(log, j - 1 + 1));
      if k < |log[j - 1].removals| {
        looked, removed := OnlyOwnedIsRemoved(log, j - 1, k);
      } else {
        removed := j - 1;
        looked := LookWasReal(log, j - 1);
      }
    }
  }

  lemma {:induction false} Persists(log: seq<World>, i: nat, j: nat, t: TaskId)
    requires Logged(log) && i <= j < |log| && t in log[i].journal && !Unfinished(log[i].journal[t].status)
    ensures t in log[j].journal && log[j].journal[t] == log[i].journal[t] && log[i].verified <= log[j].verified
    decreases j
  {
    if i < j {
      Persists(log, i, j - 1, t);
      assert Follows(At(log, j - 1), At(log, j - 1 + 1));
    }
  }

  /** A verification that succeeded checked the database and the material, for good. */
  lemma {:induction false} SuccessStays(log: seq<World>, i: nat, j: nat, t: TaskId)
    requires Logged(log) && i <= j < |log| && t in log[i].journal
    requires log[i].journal[t].request.RestoreVerify? && log[i].journal[t].status.Succeeded?
    ensures t in log[j].journal && log[j].journal[t].status.Succeeded? && t in log[j].verified && Cleared(log[j], t)
  {
    Persists(log, i, j, t);
    assert Inv(At(log, j));
    FinishedLeavesNothing(log, j, t);
  }
}
