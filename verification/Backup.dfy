/** The quiesced backup: `execute`, `recover` and `recover_services` of `backup.py` acting on
    the durable task records, the private stages, the published archives and the containers.
    Every effect appends the new world to `log`; a crash cuts the log at any point, so a
    statement about every world in the log is a statement about every crash point. */
module BackupRuns {
  import opened Records
  import JournalDiscipline

  /** The registered services that write signing material or the database. */
  datatype Profile = Profile(control: Container, relays: seq<Container>, console: seq<Container>)

  /** The order in which services are paused. */
  function Writers(p: Profile): seq<Container> {
    p.console + [p.control] + p.relays
  }

  /** The order in which they are brought back. */
  function RecoveryOrder(p: Profile): seq<Container> {
    [p.control] + p.relays + p.console
  }

  /** A container in its role as one that a backup task set out to stop. */
  datatype Debt = Debt(task: TaskId, container: Container)

  /** Durable files and containers, and what the theorems need to remember about them. */
  datatype World = World(
    journal: Journal,
    stages: set<TaskId>,                // `.backup-<id>` directories that exist
    archives: map<TaskId, Artifact>,    // `<id>.age` files
    running: set<Container>,
    healthy: set<Container>,            // containers whose health status is `healthy`
    foreign: set<Container>,            // containers somebody else started or stopped
    profiles: map<TaskId, Profile>,     // the profile each backup began with
    owed: set<Debt>,                    // stopped by the task and not confirmed since
    confirmed: set<Debt>)               // seen running and healthy after the intent

  /** What a run starts from: the containers that run, and how profiles are digested. */
  datatype Setting = Setting(atFirst: set<Container>, digestOf: Profile -> Digest)

  // ---------- The invariant of every crash point ----------

  /** Records are filed under their IDs. */
  ghost predicate Keyed(w: World) {
    forall t :: t in w.journal ==> w.journal[t].id == t
  }

  /** Whatever was stopped is in the durable intents of a task that is still unfinished. */
  ghost predicate DebtsAreIntended(w: World) {
    forall d :: d in w.owed ==> Intended(w.journal, d) && d !in w.confirmed
  }

  predicate Intended(j: Journal, d: Debt) {
    && d.task in j && j[d.task].request.Backup? && Unfinished(j[d.task].status)
    && d.container in j[d.task].stopIntents
  }

  ghost predicate ConfirmedAreIntents(w: World) {
    forall d :: d in w.confirmed ==>
      d.task in w.journal && w.journal[d.task].request.Backup? && d.container in w.journal[d.task].stopIntents
  }

  /** A finished backup confirmed every container it set out to stop. */
  ghost predicate FinishedIsConfirmed(w: World) {
    forall t :: t in w.journal && w.journal[t].request.Backup? && !Unfinished(w.journal[t].status) ==>
      AllConfirmed(w.confirmed, w.journal[t])
  }

  predicate AllConfirmed(confirmed: set<Debt>, r: Record) {
    forall c :: c in r.stopIntents ==> Debt(r.id, c) in confirmed
  }

  /** A stage with plaintext exists only while its task is unfinished. */
  ghost predicate StagesAreUnfinished(w: World) {
    forall t :: t in w.stages ==> IsOpen(w.journal, t)
  }

  predicate IsOpen(j: Journal, t: TaskId) {
    t in j && j[t].id == t && j[t].request.Backup? && Unfinished(j[t].status)
  }

  ghost predicate ArchivesAreReal(w: World) {
    forall t :: t in w.journal && w.journal[t].request.Backup? ==> Honest(w.archives, w.journal[t])
  }

  /** A recorded artifact is the published one, and success needs it and no error. */
  predicate Honest(archives: map<TaskId, Artifact>, r: Record) {
    && (r.artifact.Some? ==> r.id in archives && archives[r.id] == r.artifact.value)
    && (r.status.Succeeded? ==> r.artifact.Some? && r.errorCode.None?)
  }

  ghost predicate IntentsAreRegistered(w: World, s: Setting) {
    forall t :: t in w.journal && w.journal[t].request.Backup? ==> Registered(w.profiles, s, w.journal[t])
  }

  predicate Registered(profiles: map<TaskId, Profile>, s: Setting, r: Record) {
    && r.id in profiles && s.digestOf(profiles[r.id]) == r.profileDigest
    && forall c :: c in r.stopIntents ==> c in Writers(profiles[r.id])
  }

  /** Of the containers that ran at first and nobody else touched, only owed ones are down. */
  ghost predicate OnlyOwedAreDown(w: World, s: Setting) {
    forall c :: c in s.atFirst && c !in w.running && c !in w.foreign ==> exists t :: Debt(t, c) in w.owed
  }

  ghost predicate Inv(w: World, s: Setting) {
    && Keyed(w) && DebtsAreIntended(w) && ConfirmedAreIntents(w) && FinishedIsConfirmed(w)
    && StagesAreUnfinished(w) && ArchivesAreReal(w) && IntentsAreRegistered(w, s) && OnlyOwedAreDown(w, s)
  }

  // ---------- What one effect may change ----------

  /** Running and healthy. */
  predicate Well(w: World, c: Container) {
    c in w.running && c in w.healthy
  }

  /** Only a container that is well, and intended by an unfinished task, is newly confirmed. */
  ghost predicate ConfirmsSeen(w: World, w': World) {
    && w.confirmed <= w'.confirmed
    && forall d :: d in w'.confirmed && d !in w.confirmed ==> Well(w, d.container) && Intended(w.journal, d)
  }

  ghost predicate Follows(w: World, w': World) {
    && JournalDiscipline.WritesRecord(w.journal, w'.journal)
    && w.foreign <= w'.foreign
    && (forall t :: t in w.archives ==> t in w'.archives && w'.archives[t] == w.archives[t])
    && ConfirmsSeen(w, w')
  }

  function At(log: seq<World>, i: nat): World
    requires i < |log|
  {
    log[i]
  }

  /** A run from an empty journal: every world keeps the invariant and follows from the one before. */
  ghost predicate Logged(log: seq<World>, s: Setting) {
    && log != [] && At(log, 0).journal == map[] && At(log, 0).confirmed == {}
    && (forall i: nat :: i < |log| ==> Inv(At(log, i), s))
    && (forall i: nat :: i < |log| - 1 ==> Follows(At(log, i), At(log, i + 1)))
  }

  lemma {:induction false} LoggedGrows(log: seq<World>, w: World, s: Setting)
    requires Logged(log, s) && Inv(w, s) && Follows(log[|log| - 1], w)
    ensures Logged(log + [w], s)
  {
    var longer := log + [w];
    assert At(longer, 0) == At(log, 0);
    forall i: nat | i < |longer|
      ensures Inv(At(longer, i), s)
    {
      if i < |log| { assert At(longer, i) == At(log, i); }
    }
    forall i: nat | i < |longer| - 1
      ensures Follows(At(longer, i), At(longer, i + 1))
    {
      assert At(longer, i) == At(log, i);
      if i + 1 < |log| { assert At(longer, i + 1) == At(log, i + 1); }
    }
  }

  lemma {:induction false} LoggedPrefix(log: seq<World>, n: nat, s: Setting)
    requires 0 < n <= |log| && Logged(log, s)
    ensures Logged(log[..n], s)
  {
    forall i: nat | i < n
      ensures At(log[..n], i) == At(log, i)
    {
    }
  }

  /** The container was seen running and healthy at some point from `start` on. */
  ghost predicate WellSince(log: seq<World>, start: nat, c: Container) {
    exists i: nat :: start <= i < |log| && Well(At(log, i), c)
  }

  lemma {:induction false} WellSinceStays(log: seq<World>, longer: seq<World>, start: nat, c: Container)
    requires log <= longer && WellSince(log, start, c)
    ensures WellSince(longer, start, c)
  {
    var i: nat :| start <= i < |log| && Well(At(log, i), c);
    assert At(longer, i) == At(log, i);
  }

  ghost predicate AllWellSince(log: seq<World>, start: nat, cs: seq<Container>) {
    forall c :: c in cs ==> WellSince(log, start, c)
  }

  // ---------- One effect keeps the invariant ----------

  /** `save` of a backup record. Making it terminal needs every intended container confirmed
      and the stage gone. */
  lemma {:induction false} SaveKeepsInv(w: World, r: Record, s: Setting)
    requires Inv(w, s) && r.id in w.journal && r.request.Backup?
    requires JournalDiscipline.Rewrites(w.journal[r.id], r)
    requires forall c :: c in w.journal[r.id].stopIntents ==> c in r.stopIntents
    requires !Unfinished(r.status) ==>
               r.id !in w.stages && r.stopIntents == w.journal[r.id].stopIntents && AllConfirmed(w.confirmed, r)
    requires Honest(w.archives, r) && Registered(w.profiles, s, r)
    ensures Inv(w.(journal := w.journal[r.id := r]), s)
  {
    var w' := w.(journal := w.journal[r.id := r]);
    forall d | d in w'.owed
      ensures Intended(w'.journal, d)
    {
      assert Intended(w.journal, d);
      assert d == Debt(d.task, d.container);
    }
  }

  lemma {:induction false} BeginKeepsInv(w: World, r: Record, p: Profile, s: Setting)
    requires Inv(w, s) && r.id !in w.journal && r.request.Backup?
    requires r == Fresh(r.id, r.request, s.digestOf(p))
    ensures Inv(w.(journal := w.journal[r.id := r], profiles := w.profiles[r.id := p]), s)
  {
  }

  lemma {:induction false} ForeignRecordKeepsInv(w: World, r: Record, s: Setting)
    requires Inv(w, s) && !r.request.Backup? && (r.id in w.journal ==> !w.journal[r.id].request.Backup?)
    ensures Inv(w.(journal := w.journal[r.id := r]), s)
  {
  }

  /** Stopping an intended container, whether or not Docker managed to. */
  lemma {:induction false} StopKeepsInv(w: World, d: Debt, running: set<Container>, s: Setting)
    requires Inv(w, s) && Intended(w.journal, d) && d !in w.confirmed
    requires w.running - {d.container} <= running <= w.running
    ensures Inv(w.(running := running, owed := w.owed + {d}), s)
  {
    var w' := w.(running := running, owed := w.owed + {d});
    forall x | x in s.atFirst && x !in w'.running && x !in w'.foreign
      ensures exists t :: Debt(t, x) in w'.owed
    {
      if x == d.container {
        assert d == Debt(d.task, x);
      } else {
        var t :| Debt(t, x) in w.owed;
        assert Debt(t, x) in w'.owed;
      }
    }
  }

  /** The world after a container was confirmed for a task. */
  function Confirmed(w: World, d: Debt): World {
    w.(owed := w.owed - {d}, confirmed := if Intended(w.journal, d) then w.confirmed + {d} else w.confirmed)
  }

  /** Seeing a container running and healthy pays the debt and confirms the intent. */
  lemma {:induction false} ConfirmKeepsInv(w: World, d: Debt, s: Setting)
    requires Inv(w, s) && Well(w, d.container)
    ensures Inv(Confirmed(w, d), s) && ConfirmsSeen(w, Confirmed(w, d))
    ensures Intended(w.journal, d) ==> d in Confirmed(w, d).confirmed
  {
    var w' := Confirmed(w, d);
    forall x | x in s.atFirst && x !in w'.running && x !in w'.foreign
      ensures exists t :: Debt(t, x) in w'.owed
    {
      var t :| Debt(t, x) in w.owed;
      assert Debt(t, x) in w'.owed;
    }
  }

  lemma {:induction false} RunningKeepsInv(w: World, running: set<Container>, healthy: set<Container>,
                                           foreign: set<Container>, s: Setting)
    requires Inv(w, s) && w.foreign <= foreign
    requires forall c :: c in w.running && c !in running ==> c in foreign
    ensures Inv(w.(running := running, healthy := healthy, foreign := foreign), s)
  {
  }

  lemma {:induction false} FilesKeepInv(w: World, stages: set<TaskId>, archives: map<TaskId, Artifact>, s: Setting)
    requires Inv(w, s)
    requires forall t :: t in stages ==> t in w.stages || IsOpen(w.journal, t)
    requires forall t :: t in w.archives ==> t in archives && archives[t] == w.archives[t]
    ensures Inv(w.(stages := stages, archives := archives), s)
  {
  }

  // ---------- The program ----------

  /** What `docker inspect` says of a container whose identity is unchanged. */
  datatype Seen = Seen(running: bool, healthy: bool)

  class Installation {
    var world: World
    var log: seq<World>
    const setting: Setting
    var calm: bool   // nobody interferes, every command works and what runs becomes healthy

    ghost predicate Valid()
      reads this
    {
      && |log| > 0 && log[|log| - 1] == world && Logged(log, setting)
      && forall p, q :: setting.digestOf(p) == setting.digestOf(q) ==> p == q
    }

    /** The task is a backup that `recover` would still act on, with a sound record. */
    ghost predicate Open(t: TaskId)
      reads this
    {
      && IsOpen(world.journal, t)
      && Registered(world.profiles, setting, world.journal[t]) && Honest(world.archives, world.journal[t])
    }

    constructor (setting: Setting, healthy: set<Container>)
      requires forall p, q :: setting.digestOf(p) == setting.digestOf(q) ==> p == q
      ensures Valid() && this.setting == setting && log == [world]
      ensures world == World(map[], {}, map[], setting.atFirst, healthy, {}, map[], {}, {})
    {
      var w := World(map[], {}, map[], setting.atFirst, healthy, {}, map[], {}, {});
      this.setting := setting;
      world := w;
      log := [w];
    }

    lemma {:induction false} InvNow()
      requires Valid()
      ensures Inv(world, setting)
    {
      assert Inv(At(log, |log| - 1), setting);
    }

    /** One durable or visible effect. */
    method Advance(w: World)
      requires Valid() && Inv(w, setting) && Follows(world, w)
      modifies this`world, this`log
      ensures Valid() && world == w && log == old(log) + [w]
    {
      LoggedGrows(log, w, setting);
      world := w;
      log := log + [w];
    }

    // ---------- Files ----------

    /** `save`: `r` is the record with the caller's changes, still at its old version. */
    method Save(r: Record)
      requires Valid() && Open(r.id)
      requires SameTask(world.journal[r.id], r)
      requires !Unfinished(r.status) ==>
                 && r.id !in world.stages && AllConfirmed(world.confirmed, r)
                 && r.stopIntents == world.journal[r.id].stopIntents
      requires Honest(world.archives, r) && Registered(world.profiles, setting, r)
      modifies this`world, this`log
      ensures Valid() && old(log) <= log
      ensures world == old(world).(journal := old(world).journal[r.id := Bump(r)])
      ensures Unfinished(r.status) ==> Open(r.id)
    {
      InvNow();
      SaveKeepsInv(world, Bump(r), setting);
      assert JournalDiscipline.Saves(world.journal, world.journal[r.id := Bump(r)], Bump(r));
      Advance(world.(journal := world.journal[r.id := Bump(r)]));
    }

    /** A `save` that only moves to another stage. */
    method SaveStage(t: TaskId, stage: string)
      requires Valid() && Open(t)
      modifies this`world, this`log
      ensures Valid() && old(log) <= log && Open(t)
      ensures world == old(world).(journal := old(world).journal[t := Bump(old(world).journal[t].(stage := stage))])
    {
      Save(world.journal[t].(stage := stage));
    }

    /** `private_directory(stage)`. */
    method MakeStage(t: TaskId) returns (ok: bool)
      requires Valid() && Open(t)
      modifies this`world, this`log
      ensures Valid() && old(log) <= log
      ensures world == old(world).(stages := world.stages) && world.stages <= old(world).stages + {t}
      ensures calm ==> ok
    {
      var works: bool := *;
      ok := calm || works;
      if ok {
        InvNow();
        FilesKeepInv(world, world.stages + {t}, world.archives, setting);
        Advance(world.(stages := world.stages + {t}));
      }
    }

    /** `shutil.rmtree(stage)` if it exists; a failure may leave it. */
    method RemoveStage(t: TaskId) returns (ok: bool)
      requires Valid()
      modifies this`world, this`log
      ensures Valid() && old(log) <= log
      ensures world == old(world).(stages := world.stages) && world.stages <= old(world).stages
      ensures ok ==> t !in world.stages
      ensures calm ==> ok
    {
      ok := true;
      if t in world.stages {
        var works: bool := *;
        ok := calm || works;
        if ok {
          InvNow();
          FilesKeepInv(world, world.stages - {t}, world.archives, setting);
          Advance(world.(stages := world.stages - {t}));
        }
      }
    }

    /** `encrypt_archive`: publishes once or not at all; it may fail after publishing. The
        writers must be down, unless somebody else started them. */
    method Encrypt(p: Profile, t: TaskId) returns (artifact: Option<Artifact>)
      requires Valid() && Open(t)
      requires forall c :: c in Writers(p) ==> c !in world.running || c in world.foreign
      modifies this`world, this`log
      ensures Valid() && old(log) <= log
      ensures world == old(world).(archives := world.archives)
      ensures forall u :: u in old(world).archives ==>
                u in world.archives && world.archives[u] == old(world).archives[u]
      ensures artifact.Some? ==> t in world.archives && world.archives[t] == artifact.value
      ensures calm && t !in old(world).archives ==> artifact.Some?
    {
      var published: bool, returned: bool, made: Artifact := *, *, *;
      if t in world.archives || !(calm || published) { return None; }
      InvNow();
      FilesKeepInv(world, world.stages, world.archives[t := made], setting);
      Advance(world.(archives := world.archives[t := made]));
      return if calm || returned then Some(made) else None;
    }

    // ---------- Containers ----------

    /** Time passes: somebody else starts or stops containers, and health changes. */
    method Others()
      requires Valid()
      modifies this`world, this`log
      ensures Valid() && old(log) <= log
      ensures OnlyContainers(old(world), world) && SameDebts(old(world), world)
      ensures forall c :: c !in world.foreign ==> (c in world.running <==> c in old(world).running)
      ensures calm ==> Settled(old(world), world)
    {
      var touched: set<Container>, up: set<Container>, healthy: set<Container> := *, *, *;
      if calm { touched, healthy := {}, world.healthy + world.running; }
      var running := world.running - touched + (touched * up);
      InvNow();
      RunningKeepsInv(world, running, healthy, world.foreign + touched, setting);
      Advance(world.(running := running, healthy := healthy, foreign := world.foreign + touched));
    }

    /** `checked_container`: its state, or nothing if its identity changed. */
    method Inspect(c: Container) returns (row: Option<Seen>)
      requires Valid()
      modifies this`world, this`log
      ensures Valid() && old(log) <= log
      ensures OnlyContainers(old(world), world) && SameDebts(old(world), world)
      ensures forall x :: x !in world.foreign ==> (x in world.running <==> x in old(world).running)
      ensures row.Some? ==> row.value == Seen(c in world.running, c in world.healthy)
      ensures calm ==> row.Some? && Settled(old(world), world)
    {
      Others();
      var same: bool := *;
      return if calm || same then Some(Seen(c in world.running, c in world.healthy)) else None;
    }

    /** `docker stop`, which must find the intent on disk. A failed command may have worked. */
    method Stop(t: TaskId, c: Container) returns (ok: bool)
      requires Valid() && Intended(world.journal, Debt(t, c)) && Debt(t, c) !in world.confirmed
      modifies this`world, this`log
      ensures Valid() && old(log) <= log
      ensures OnlyContainers(old(world), world) && world.confirmed == old(world).confirmed
      ensures world.owed == old(world).owed + {Debt(t, c)}
      ensures forall x :: x != c && x !in world.foreign ==> (x in world.running <==> x in old(world).running)
      ensures ok ==> c !in world.running
      ensures calm ==> ok && world.running == old(world).running - {c} && world.foreign == old(world).foreign
    {
      Others();
      var works: bool, worked: bool := *, *;
      ok := calm || works;
      var running := if ok || worked then world.running - {c} else world.running;
      InvNow();
      StopKeepsInv(world, Debt(t, c), running, setting);
      Advance(world.(running := running, owed := world.owed + {Debt(t, c)}));
    }

    /** `docker start`, only for a container whose ID is among the intents. */
    method Start(t: TaskId, c: Container) returns (ok: bool)
      requires Valid() && t in world.journal && exists x :: x in world.journal[t].stopIntents && x.id == c.id
      modifies this`world, this`log
      ensures Valid() && old(log) <= log
      ensures OnlyContainers(old(world), world) && SameDebts(old(world), world)
      ensures ok ==> c in world.running
      ensures calm ==> ok && world.running == old(world).running + {c} && world.foreign == old(world).foreign
    {
      Others();
      var works: bool, worked: bool := *, *;
      ok := calm || works;
      var running := if ok || worked then world.running + {c} else world.running;
      InvNow();
      RunningKeepsInv(world, running, world.healthy, world.foreign, setting);
      Advance(world.(running := running));
    }

    /** `wait_healthy`: polls until the container is seen running and healthy, or gives up. */
    method WaitHealthy(t: TaskId, c: Container) returns (ok: bool)
      requires Valid()
      modifies this`world, this`log
      ensures Valid() && old(log) <= log
      ensures OnlyContainers(old(world), world)
      ensures ok ==> Well(world, c) && WellSince(log, |old(log)|, c)
      ensures ok ==> Settles(old(world), world, Debt(t, c))
      ensures !ok ==> SameDebts(old(world), world)
      ensures calm ==> world.running == old(world).running && world.foreign == old(world).foreign
      ensures calm && c in old(world).running ==> ok
    {
      var polls: nat := *;
      if calm { polls := 1; }
      while polls > 0
        invariant Valid() && old(log) <= log
        invariant OnlyContainers(old(world), world) && SameDebts(old(world), world)
        invariant calm ==> world.running == old(world).running && world.foreign == old(world).foreign
        invariant calm && c in old(world).running ==> polls > 0
      {
        polls := polls - 1;
        var row := Inspect(c);
        if row.None? { return false; }
        if row.value.running && row.value.healthy {
          InvNow();
          ConfirmKeepsInv(world, Debt(t, c), setting);
          Advance(Confirmed(world, Debt(t, c)));
          assert Well(At(log, |log| - 1), c);
          return true;
        }
      }
      return false;
    }

    // ---------- The operations ----------

    /** One container of the recovery loop. */
    method BringBack(t: TaskId, c: Container) returns (ok: bool)
      requires Valid() && t in world.journal && exists x :: x in world.journal[t].stopIntents && x.id == c.id
      modifies this`world, this`log
      ensures Valid() && old(log) <= log && OnlyContainers(old(world), world)
      ensures ok ==> WellSince(log, |old(log)|, c) && Settles(old(world), world, Debt(t, c))
      ensures !ok ==> SameDebts(old(world), world)
      ensures calm ==> ok && world.running == old(world).running + {c} && world.foreign == old(world).foreign
    {
      var row := Inspect(c);
      if row.None? { return false; }
      if !row.value.running {
        var started := Start(t, c);
        if !started { return false; }
      }
      ghost var start := |log|;
      ok := WaitHealthy(t, c);
      if ok { WellSinceEarlier(log, start, |old(log)|, c); }
    }

    /** The loop of `recover_services`: the names that did not come back. Every intended
        container that did was seen running and healthy during this very call. */
    method BringAllBack(p: Profile, t: TaskId) returns (errors: seq<string>)
      requires Valid() && Open(t) && world.profiles[t] == p
      modifies this`world, this`log
      ensures Valid() && old(log) <= log && OnlyContainers(old(world), world)
      ensures errors == [] ==>
                && AllWellSince(log, |old(log)|, world.journal[t].stopIntents)
                && AllConfirmed(world.confirmed, world.journal[t])
      ensures calm ==> errors == [] && forall c :: c in world.journal[t].stopIntents ==> c in world.running
    {
      errors := [];
      var intents := world.journal[t].stopIntents;
      var order := RecoveryOrder(p);
      for i := 0 to |order|
        invariant Valid() && old(log) <= log && OnlyContainers(old(world), world)
        invariant errors == [] ==> Recovered(world, log, |old(log)|, t, order[..i])
        invariant calm ==> errors == [] && forall j :: 0 <= j < i && order[j] in intents ==> order[j] in world.running
      {
        var c := order[i];
        ghost var before := log;
        ghost var w := world;
        if exists x :: x in intents && x.id == c.id {
          var back := BringBack(t, c);
          if !back {
            errors := errors + [c.name];
          } else if errors == [] {
            RecoveredNext(w, world, before, log, |old(log)|, t, order, i);
          }
        } else if errors == [] {
          RecoveredNext(w, world, before, log, |old(log)|, t, order, i);
        }
      }
      assert order[..|order|] == order;
      if errors == [] { RecoveredIsAll(world, log, |old(log)|, t, p); }
      assert calm ==> forall c :: c in intents ==> c in order;
    }

    /** `recover_services`: brings back what the intents name and records what did not come
        back. It reports success only when every intended container was seen running and
        healthy during the call. */
    method RecoverServices(p: Profile, t: TaskId) returns (ok: bool)
      requires Valid() && Open(t) && world.profiles[t] == p
      modifies this`world, this`log
      ensures Valid() && old(log) <= log && Open(t)
      ensures world.stages == old(world).stages && world.archives == old(world).archives
      ensures world.profiles == old(world).profiles
      ensures world.journal == old(world).journal[
                t := Bump(old(world).journal[t].(recoveryPending := world.journal[t].recoveryPending))]
      ensures ok <==> world.journal[t].recoveryPending == []
      ensures ok ==>
                && AllWellSince(log, |old(log)|, world.journal[t].stopIntents)
                && AllConfirmed(world.confirmed, world.journal[t])
      ensures calm ==> ok && forall c :: c in world.journal[t].stopIntents ==> c in world.running
    {
      var record := world.journal[t];
      var errors := BringAllBack(p, t);
      ghost var before := log;
      Save(record.(recoveryPending := errors));
      if errors == [] { AllWellSinceWiden(before, log, |old(log)|, |old(log)|, record.stopIntents); }
      return errors == [];
    }

    /** Intent first, then the stop, then the check. */
    method Pause(t: TaskId, c: Container) returns (ok: bool)
      requires Valid() && Open(t) && c in Writers(world.profiles[t]) && NoneConfirmed(world, t)
      modifies this`world, this`log
      ensures Valid() && old(log) <= log && Open(t) && NoneConfirmed(world, t)
      ensures world.stages == old(world).stages && world.archives == old(world).archives
      ensures world.profiles == old(world).profiles && OnlyPaused(old(world).journal, world.journal, t)
      ensures old(world).foreign <= world.foreign
      ensures forall x :: x in world.running && x !in world.foreign ==> x in old(world).running
      ensures ok ==> c in world.journal[t].stopIntents && (c !in world.running || c in world.foreign)
      ensures calm && c in old(world).running ==> ok && world.running == old(world).running - {c}
    {
      var row := Inspect(c);
      if row.None? || !row.value.running { return false; }
      var record := world.journal[t];
      Save(record.(stage := "quiescing", stopIntents := record.stopIntents + [c]));
      ok := Stop(t, c);
      if !ok { return; }
      row := Inspect(c);
      return row.Some? && !row.value.running;
    }

    /** The loop that pauses the writers. */
    method Quiesce(p: Profile, t: TaskId) returns (ok: bool)
      requires Valid() && Open(t) && world.profiles[t] == p && NoneConfirmed(world, t)
      modifies this`world, this`log
      ensures Valid() && old(log) <= log && Open(t)
      ensures world.stages == old(world).stages && world.archives == old(world).archives
      ensures world.profiles == old(world).profiles && OnlyPaused(old(world).journal, world.journal, t)
      ensures ok ==> forall c :: c in Writers(p) ==>
                c in world.journal[t].stopIntents && (c !in world.running || c in world.foreign)
      ensures Ready(calm, old(world), p) ==> ok
    {
      var order := Writers(p);
      for i := 0 to |order|
        invariant Valid() && old(log) <= log && Open(t) && NoneConfirmed(world, t)
        invariant world.stages == old(world).stages && world.archives == old(world).archives
        invariant world.profiles == old(world).profiles && OnlyPaused(old(world).journal, world.journal, t)
        invariant forall j :: 0 <= j < i ==> order[j] in world.journal[t].stopIntents
        invariant forall j :: 0 <= j < i ==> order[j] !in world.running || order[j] in world.foreign
        invariant Ready(calm, old(world), p) ==> forall j :: i <= j < |order| ==> order[j] in world.running
      {
        ok := Pause(t, order[i]);
        if !ok { return; }
      }
      return true;
    }

    /** The second half of the `try`, with the writers paused: dump and encrypt. */
    method DumpAndEncrypt(p: Profile, t: TaskId) returns (ok: bool)
      requires Valid() && Open(t) && world.profiles[t] == p
      requires forall c :: c in Writers(p) ==> c !in world.running || c in world.foreign
      modifies this`world, this`log
      ensures Valid() && old(log) <= log && Open(t) && world.profiles == old(world).profiles
      ensures OnlyTaken(old(world).journal, world.journal, t)
      ensures world.journal[t].stopIntents == old(world).journal[t].stopIntents
      ensures ok ==> world.journal[t].artifact.Some?
      ensures calm && t !in old(world).archives ==> ok
    {
      SaveStage(t, "snapshot");
      var works: bool := *;   // foreign database clients, verify_material, pg_dump
      ok := calm || works;
      if !ok { return; }
      SaveStage(t, "encrypting");
      var artifact := Encrypt(p, t);
      if artifact.None? { return false; }
      Save(world.journal[t].(artifact := artifact, stage := "recovering"));
    }

    /** The body of the `try`: stage, pause, dump, encrypt. False stands for an exception. */
    method TakeBackup(p: Profile, t: TaskId) returns (ok: bool)
      requires Valid() && Open(t) && world.profiles[t] == p && NoneConfirmed(world, t)
      modifies this`world, this`log
      ensures Valid() && old(log) <= log && Open(t) && world.profiles == old(world).profiles
      ensures OnlyTaken(old(world).journal, world.journal, t)
      ensures ok ==>
                && world.journal[t].artifact.Some?
                && forall c :: c in Writers(p) ==> c in world.journal[t].stopIntents
      ensures Ready(calm, old(world), p) && t !in old(world).archives ==> ok
    {
      ok := MakeStage(t);
      if !ok { return; }
      ok := Quiesce(p, t);
      if !ok { return; }
      ok := DumpAndEncrypt(p, t);
    }

    /** The `finally` and what follows it: remove the stage, bring the services back, settle. */
    method Conclude(p: Profile, t: TaskId)
      requires Valid() && Open(t) && world.profiles[t] == p && !world.journal[t].cleanupPending
      modifies this`world, this`log
      ensures Valid() && old(log) <= log && t in world.journal
      ensures world.journal == old(world).journal[t := world.journal[t]] && Concluded(world.journal[t])
      ensures !Unfinished(world.journal[t].status) ==> AllWellSince(log, |old(log)|, world.journal[t].stopIntents)
      ensures calm && old(world).journal[t].artifact.Some? && old(world).journal[t].errorCode.None? ==>
                && world.journal[t].status.Succeeded?
                && forall c :: c in old(world).journal[t].stopIntents ==> c in world.running
    {
      var removed := RemoveStage(t);
      if !removed {
        Save(world.journal[t].(cleanupPending := true, errorCode := Some("backup_cleanup_required"),
                               status := RecoveryRequired));
      }
      ghost var start := |log|;
      var back := RecoverServices(p, t);
      ghost var before := log;
      if !back {
        Save(world.journal[t].(status := RecoveryRequired, stage := "recovering",
                               errorCode := Some("service_recovery_required")));
      }
      var record := world.journal[t];
      if record.recoveryPending == [] && !record.cleanupPending {
        var succeeded := record.artifact.Some? && record.errorCode.None?;
        Save(record.(status := if succeeded then Succeeded else Failed, stage := "complete"));
        AllWellSinceWiden(before, log, start, |old(log)|, record.stopIntents);
      }
    }

    /** `execute`. A known task is only looked up. Otherwise it ends, if nothing kills it, in
        `recovery_required` or in a terminal status, the latter only after every intended
        container was seen running and healthy again and the stage is gone; `succeeded`
        exactly when an archive is recorded and no error is. When nothing gets in the way it
        succeeds and the writers run again. */
    method Execute(p: Profile, id: TaskId, expectedPreview: Digest) returns (began: bool)
      requires Valid()
      modifies this`world, this`log
      ensures Valid() && old(log) <= log
      ensures !began ==> world == old(world)
      ensures began ==> id !in old(world).journal && id in world.journal
      ensures began ==> world.journal == old(world).journal[id := world.journal[id]]
      ensures began ==> Concluded(world.journal[id])
      ensures began && !Unfinished(world.journal[id].status) ==>
                AllWellSince(log, |old(log)|, world.journal[id].stopIntents)
      ensures (Ready(calm, old(world), p) && id !in old(world).archives
               && JournalDiscipline.MayBegin(old(world).journal, id, JournalDiscipline.Plain)) ==>
                began && world.journal[id].status.Succeeded? && forall c :: c in Writers(p) ==> c in world.running
    {
      if id in world.journal { return false; }
      var current: bool := *;   // the preview still has the expected digest
      if !(calm || current) || !JournalDiscipline.MayBegin(world.journal, id, JournalDiscipline.Plain) {
        return false;
      }
      Begin(p, id, expectedPreview);
      ghost var start := |log|;
      Perform(p, id);
      if !Unfinished(world.journal[id].status) {
        AllWellSinceWiden(log, log, start, |old(log)|, world.journal[id].stopIntents);
      }
      return true;
    }

    /** `execute` once its record exists. */
    method Perform(p: Profile, t: TaskId)
      requires Valid() && Open(t) && world.profiles[t] == p && NoneConfirmed(world, t)
      requires !world.journal[t].cleanupPending
      modifies this`world, this`log
      ensures Valid() && old(log) <= log && t in world.journal
      ensures world.journal == old(world).journal[t := world.journal[t]] && Concluded(world.journal[t])
      ensures !Unfinished(world.journal[t].status) ==> AllWellSince(log, |old(log)|, world.journal[t].stopIntents)
      ensures (Ready(calm, old(world), p) && t !in old(world).archives && old(world).journal[t].errorCode.None?) ==>
                world.journal[t].status.Succeeded? && forall c :: c in Writers(p) ==> c in world.running
    {
      var ok := TakeBackup(p, t);
      if !ok { Save(world.journal[t].(errorCode := Some("backup_interrupted"), stage := "recovering")); }
      ghost var start := |log|;
      Conclude(p, t);
      if !Unfinished(world.journal[t].status) {
        AllWellSinceWiden(log, log, start, |old(log)|, world.journal[t].stopIntents);
      }
    }

    /** `begin` for a task that does not exist yet. */
    method Begin(p: Profile, id: TaskId, expectedPreview: Digest)
      requires Valid() && JournalDiscipline.MayBegin(world.journal, id, JournalDiscipline.Plain)
      modifies this`world, this`log
      ensures Valid() && old(log) <= log && Open(id) && NoneConfirmed(world, id)
      ensures world == old(world).(
                journal := old(world).journal[id := Fresh(id, Backup(expectedPreview), setting.digestOf(p))],
                profiles := old(world).profiles[id := p])
    {
      var r := Fresh(id, Backup(expectedPreview), setting.digestOf(p));
      InvNow();
      BeginKeepsInv(world, r, p, setting);
      assert JournalDiscipline.Begins(world.journal, world.journal[id := r], r, JournalDiscipline.Plain);
      Advance(world.(journal := world.journal[id := r], profiles := world.profiles[id := p]));
    }

    /** `recover`: only for an unfinished backup of the same profile. It says `failed` only
        after every intended container was seen running and healthy and the stage is gone.
        From any crash point, when nothing gets in the way, it gets there. */
    method Recover(p: Profile, id: TaskId) returns (done: bool)
      requires Valid()
      modifies this`world, this`log
      ensures Valid() && old(log) <= log
      ensures !Recoverable(old(world), setting, p, id) ==> world == old(world) && !done
      ensures done ==> id in world.journal && world.journal[id].status == Failed && id !in world.stages
      ensures done ==> world.journal[id].stopIntents == old(world).journal[id].stopIntents
      ensures done ==> AllWellSince(log, |old(log)|, world.journal[id].stopIntents)
      ensures !done && Recoverable(old(world), setting, p, id) ==> IsOpen(world.journal, id)
      ensures calm && Recoverable(old(world), setting, p, id) ==>
                done && forall c :: c in old(world).journal[id].stopIntents ==> c in world.running
    {
      InvNow();
      if id !in world.journal || world.journal[id].profileDigest != setting.digestOf(p) { return false; }
      if !world.journal[id].request.Backup? || !Unfinished(world.journal[id].status) { return false; }
      assert Open(id);
      var removed := RemoveStage(id);
      if removed { Save(world.journal[id].(cleanupPending := false)); }
      ghost var start := |log|;
      var back := RecoverServices(p, id);
      if !removed || !back { return false; }
      ghost var before := log;
      ghost var intents := world.journal[id].stopIntents;
      Save(world.journal[id].(status := Failed, stage := "recovered",
                              errorCode := Some("interrupted_backup_not_retried")));
      AllWellSinceWiden(before, log, start, |old(log)|, intents);
      return true;
    }

    /** Any other operation's write to a record that is not a backup's, repairs included. */
    method OtherTask(r: Record, a: JournalDiscipline.Admission)
      requires Valid()
      modifies this`world, this`log
      ensures Valid() && old(log) <= log
    {
      var j := world.journal[r.id := r];
      if !r.request.Backup?
         && (JournalDiscipline.Begins(world.journal, j, r, a) || JournalDiscipline.Saves(world.journal, j, r))
      {
        InvNow();
        ForeignRecordKeepsInv(world, r, setting);
        Advance(world.(journal := j));
      }
    }

    /** The process dies: the run ends in the world after any one of its effects. */
    method Crash(at: nat)
      requires Valid() && at < |log|
      modifies this`world, this`log
      ensures Valid() && log == old(log)[..at + 1] && world == old(log)[at]
    {
      LoggedPrefix(log, at + 1, setting);
      log := log[..at + 1];
      world := log[at];
    }

    /** Any sequence of operations, each completed or cut short anywhere. */
    method Lifetime(commands: seq<Command>)
      requires Valid()
      modifies this
      ensures Valid() && old(log) <= log
    {
      for i := 0 to |commands|
        invariant Valid() && old(log) <= log
      {
        calm := *;
        var start := |log|;
        ghost var before := log;
        match commands[i] {
          case RunBackup(p, id, expectedPreview) => var _ := Execute(p, id, expectedPreview);
          case RunRecover(p, id) => var _ := Recover(p, id);
          case RunOther(r, a) => OtherTask(r, a);
        }
        var at: nat := *;
        if start - 1 <= at < |log| { Crash(at); }
        assert before <= log;
      }
    }
  }

  datatype Command =
    | RunBackup(profile: Profile, id: TaskId, expectedPreview: Digest)
    | RunRecover(profile: Profile, id: TaskId)
    | RunOther(record: Record, admission: JournalDiscipline.Admission)

  // ---------- What the operations keep ----------

  /** Changes of a record that a `save` keeps: its identity, and intents only grow. */
  predicate SameTask(was: Record, r: Record) {
    && r.id == was.id && r.request == was.request && r.profileDigest == was.profileDigest && r.version == was.version
    && forall c :: c in was.stopIntents ==> c in r.stopIntents
  }

  ghost predicate NoneConfirmed(w: World, t: TaskId) {
    forall d :: d in w.confirmed ==> d.task != t
  }

  /** What pausing does to the journal: the task's intents grow, and nothing else but its stage. */
  ghost predicate OnlyPaused(j: Journal, j': Journal, t: TaskId) {
    && t in j && t in j' && j' == j[t := j'[t]]
    && j'[t] == j[t].(version := j'[t].version, stage := j'[t].stage, stopIntents := j'[t].stopIntents)
    && (forall c :: c in j[t].stopIntents ==> c in j'[t].stopIntents)
  }

  /** What taking the backup does to the journal. */
  ghost predicate OnlyTaken(j: Journal, j': Journal, t: TaskId) {
    && t in j && t in j' && j' == j[t := j'[t]]
    && j'[t] == j[t].(version := j'[t].version, stage := j'[t].stage, stopIntents := j'[t].stopIntents,
                      artifact := j'[t].artifact)
  }

  /** Every writer runs, each registered once, and nothing gets in the way. */
  ghost predicate Ready(calm: bool, w: World, p: Profile) {
    && calm
    && (forall c :: c in Writers(p) ==> c in w.running)
    && forall i, j :: 0 <= i < j < |Writers(p)| ==> Writers(p)[i] != Writers(p)[j]
  }

  /** The task `recover` acts on under a profile. */
  predicate Recoverable(w: World, s: Setting, p: Profile, t: TaskId) {
    IsOpen(w.journal, t) && w.journal[t].profileDigest == s.digestOf(p)
  }

  /** How a completed `execute` leaves the record. */
  predicate Concluded(r: Record) {
    && !r.status.Running?
    && (!Unfinished(r.status) <==> r.recoveryPending == [] && !r.cleanupPending)
    && (r.status.Succeeded? <==> !Unfinished(r.status) && r.artifact.Some? && r.errorCode.None?)
  }

  /** Only containers and what is known of them may differ, and nothing touched is forgotten. */
  ghost predicate OnlyContainers(w: World, w': World) {
    && w' == w.(running := w'.running, healthy := w'.healthy, foreign := w'.foreign,
                owed := w'.owed, confirmed := w'.confirmed)
    && w.foreign <= w'.foreign && w.confirmed <= w'.confirmed
  }

  ghost predicate SameDebts(w: World, w': World) {
    w'.owed == w.owed && w'.confirmed == w.confirmed
  }

  /** One debt was paid and, if intended, confirmed. */
  ghost predicate Settles(w: World, w': World, d: Debt) {
    && w'.owed == w.owed - {d}
    && w'.confirmed == if Intended(w.journal, d) then w.confirmed + {d} else w.confirmed
  }

  /** What an undisturbed moment changes. */
  ghost predicate Settled(w: World, w': World) {
    w' == w.(healthy := w.healthy + w.running)
  }

  /** The intended ones among `cs` were seen well since `start` and are confirmed. */
  ghost predicate Recovered(w: World, log: seq<World>, start: nat, t: TaskId, cs: seq<Container>) {
    t in w.journal && forall c :: c in cs && c in w.journal[t].stopIntents ==>
      WellSince(log, start, c) && Debt(t, c) in w.confirmed
  }

  lemma {:induction false} RecoveredNext(w: World, w': World, log: seq<World>, longer: seq<World>, start: nat,
                                         t: TaskId, order: seq<Container>, i: nat)
    requires i < |order| && Recovered(w, log, start, t, order[..i])
    requires log <= longer && w'.journal == w.journal && w.confirmed <= w'.confirmed
    requires order[i] in w.journal[t].stopIntents ==>
               WellSince(longer, start, order[i]) && Debt(t, order[i]) in w'.confirmed
    ensures Recovered(w', longer, start, t, order[..i + 1])
  {
    forall c | c in order[..i + 1] && c in w'.journal[t].stopIntents
      ensures WellSince(longer, start, c) && Debt(t, c) in w'.confirmed
    {
      if c != order[i] {
        assert c in order[..i];
        WellSinceStays(log, longer, start, c);
      }
    }
  }

  lemma {:induction false} RecoveredIsAll(w: World, log: seq<World>, start: nat, t: TaskId, p: Profile)
    requires Recovered(w, log, start, t, RecoveryOrder(p)) && w.journal[t].id == t
    requires forall c :: c in w.journal[t].stopIntents ==> c in Writers(p)
    ensures AllWellSince(log, start, w.journal[t].stopIntents) && AllConfirmed(w.confirmed, w.journal[t])
  {
    forall c | c in w.journal[t].stopIntents
      ensures c in RecoveryOrder(p)
    {
    }
  }

  lemma {:induction false} WellSinceEarlier(log: seq<World>, start: nat, earlier: nat, c: Container)
    requires earlier <= start && WellSince(log, start, c)
    ensures WellSince(log, earlier, c)
  {
    var i: nat :| start <= i < |log| && Well(At(log, i), c);
  }

  /** What was seen in a part of a call was seen in the call. */
  lemma {:induction false} AllWellSinceWiden(log: seq<World>, longer: seq<World>, start: nat, earlier: nat,
                                             cs: seq<Container>)
    requires earlier <= start && log <= longer && AllWellSince(log, start, cs)
    ensures AllWellSince(longer, earlier, cs)
  {
    forall c | c in cs
      ensures WellSince(longer, earlier, c)
    {
      WellSinceStays(log, longer, start, c);
      WellSinceEarlier(longer, start, earlier, c);
    }
  }

  // ---------- What every run guarantees ----------

  /** The records of a run are a run of the journal discipline. */
  lemma {:induction false} LogFollowsDiscipline(log: seq<World>, s: Setting) returns (run: seq<JournalDiscipline.State>)
    requires Logged(log, s)
    ensures JournalDiscipline.Run(run) && |run| == |log|
    ensures forall i :: 0 <= i < |log| ==> run[i].journal == log[i].journal
  {
    var js := seq(|log|, i requires 0 <= i < |log| => log[i].journal);
    forall i | 0 <= i < |js| - 1
      ensures JournalDiscipline.WritesRecord(js[i], js[i + 1])
    {
      assert Follows(At(log, i), At(log, i + 1));
    }
    run := JournalDiscipline.WritesAreRuns(js);
  }

  lemma {:induction false} Persists(log: seq<World>, s: Setting, i: nat, j: nat, t: TaskId)
    requires Logged(log, s) && i <= j < |log|
    requires t in log[i].journal && !Unfinished(log[i].journal[t].status)
    ensures t in log[j].journal && log[j].journal[t] == log[i].journal[t]
    decreases j
  {
    if i < j {
      Persists(log, s, i, j - 1, t);
      assert Follows(At(log, j - 1), At(log, j - 1 + 1));
    }
  }

  /** What was confirmed was seen well while its intent was durable, and was never owed since. */
  lemma {:induction false} ConfirmedWasWell(log: seq<World>, s: Setting, j: nat, d: Debt) returns (i: nat)
    requires Logged(log, s) && j < |log| && d in log[j].confirmed
    ensures i < j && Well(log[i], d.container) && Intended(log[i].journal, d)
    ensures forall k :: i < k <= j ==> d in log[k].confirmed && d !in log[k].owed
    decreases j
  {
    assert Inv(At(log, j), s);
    if j > 0 {
      assert Follows(At(log, j - 1), At(log, j - 1 + 1));
      if d in log[j - 1].confirmed {
        i := ConfirmedWasWell(log, s, j - 1, d);
      } else {
        i := j - 1;
      }
    }
  }

  /** A backup is `succeeded` or `failed` only after every container it set out to stop was
      seen running and healthy, after the intent was durable and never stopped by it since. */
  lemma {:induction false} FinishedWasHealthy(log: seq<World>, s: Setting, j: nat, t: TaskId, c: Container)
    returns (i: nat)
    requires Logged(log, s) && j < |log| && t in log[j].journal && log[j].journal[t].request.Backup?
    requires !Unfinished(log[j].journal[t].status) && c in log[j].journal[t].stopIntents
    ensures i < j && Well(log[i], c) && Intended(log[i].journal, Debt(t, c))
    ensures forall k :: i < k <= j ==> Debt(t, c) !in log[k].owed
  {
    assert Inv(At(log, j), s);
    i := ConfirmedWasWell(log, s, j, Debt(t, c));
  }

  /** A backup that succeeded has its archive published, with no error recorded, for ever; its
      services are paid for and its plaintext stage is gone. */
  lemma {:induction false} SucceededIsPublished(log: seq<World>, s: Setting, i: nat, j: nat, t: TaskId)
    requires Logged(log, s) && i <= j < |log|
    requires t in log[i].journal && log[i].journal[t].request.Backup? && log[i].journal[t].status.Succeeded?
    ensures t in log[j].journal && log[j].journal[t] == log[i].journal[t]
    ensures log[j].journal[t].errorCode.None? && log[j].journal[t].artifact.Some?
    ensures t in log[j].archives && log[j].archives[t] == log[j].journal[t].artifact.value
    ensures t !in log[j].stages && forall c :: Debt(t, c) !in log[j].owed
  {
    Persists(log, s, i, j, t);
    assert Inv(At(log, j), s);
  }

  /** At every crash point a stopped service is found again through a durable intent: a
      container that ran at first and that nobody else touched is down only while an
      unfinished backup names it among the containers it set out to stop. */
  lemma {:induction false} StoppedIsIntended(log: seq<World>, s: Setting, i: nat, c: Container)
    requires Logged(log, s) && i < |log|
    requires c in s.atFirst && c !in log[i].running && c !in log[i].foreign
    ensures exists t :: Intended(log[i].journal, Debt(t, c))
  {
    assert Inv(At(log, i), s);
    var t :| Debt(t, c) in log[i].owed;
    assert Intended(log[i].journal, Debt(t, c));
  }

  /** Whenever no backup is unfinished, every service runs that ran at first, except those
      that others touched, and no plaintext stage is left. */
  lemma {:induction false} QuietIsRestored(log: seq<World>, s: Setting, i: nat)
    requires Logged(log, s) && i < |log|
    requires forall t :: t in log[i].journal && log[i].journal[t].request.Backup? ==>
               !Unfinished(log[i].journal[t].status)
    ensures s.atFirst - log[i].foreign <= log[i].running
    ensures log[i].stages == {} && log[i].owed == {}
  {
    assert Inv(At(log, i), s);
    assert forall d :: d in log[i].owed ==> Intended(log[i].journal, d);
  }
}
