/** The discipline every writer of the task records keeps under the operation lock:
    a record is created once by `begin`, rewritten one version higher by `save` while
    it is unfinished, and never written again once it is terminal. All operations of
    the maintenance subsystem (backup, isolated restore, native upgrade, repair and
    the runner's refusal record) are steps of this system; the modules that model them
    prove so and inherit the results below. */
module JournalDiscipline {
  import opened Records

  /** Why `begin` let a task in: the failed predecessor whose repair it is, if any. */
  datatype Admission = Plain | Repair(predecessor: Record)

  /** The journal, with the history the theorems speak about. */
  datatype State = State(
    journal: Journal,
    births: seq<TaskId>,                  // tasks in the order `begin` created them
    admissions: map<TaskId, Admission>,   // how each of them was admitted
    contents: map<TaskId, seq<Record>>)   // every content of each record, in the order it became durable

  function Initial(): State {
    State(map[], [], map[], map[])
  }

  /** The check in `begin`: every other task is finished, except the one being repaired. */
  predicate MayBegin(j: Journal, id: TaskId, admission: Admission) {
    && id !in j
    && (forall t :: t in j && !(admission.Repair? && t == admission.predecessor.id) ==> !Unfinished(j[t].status))
    && (admission.Repair? ==>
          && admission.predecessor.id in j
          && j[admission.predecessor.id] == admission.predecessor
          && admission.predecessor.status == RecoveryRequired
          && admission.predecessor.request.NativeUpgrade?)
  }

  predicate BeginStep(s: State, s': State, r: Record, admission: Admission) {
    && MayBegin(s.journal, r.id, admission)
    && r == Fresh(r.id, r.request, r.profileDigest)
    && (admission.Repair? ==> r.request.NativeUpgrade?)
    && s' == State(s.journal[r.id := r], s.births + [r.id], s.admissions[r.id := admission],
                   s.contents[r.id := [r]])
  }

  /** What `save` may do to an existing record. */
  predicate Rewrites(was: Record, r: Record) {
    && Unfinished(was.status)
    && r.id == was.id && r.request == was.request && r.profileDigest == was.profileDigest
    && r.version == was.version + 1
  }

  predicate SaveStep(s: State, s': State, r: Record) {
    && r.id in s.journal && r.id in s.contents
    && Rewrites(s.journal[r.id], r)
    && s' == s.(journal := s.journal[r.id := r], contents := s.contents[r.id := s.contents[r.id] + [r]])
  }

  ghost predicate Step(s: State, s': State) {
    || s' == s
    || (exists r, a :: BeginStep(s, s', r, a))
    || (exists r :: SaveStep(s, s', r))
  }

  /** The same two steps on the journal alone. */
  predicate Begins(j: Journal, j': Journal, r: Record, a: Admission) {
    && MayBegin(j, r.id, a)
    && r == Fresh(r.id, r.request, r.profileDigest) && j' == j[r.id := r]
    && (a.Repair? ==> r.request.NativeUpgrade?)
  }

  predicate Saves(j: Journal, j': Journal, r: Record) {
    r.id in j && Rewrites(j[r.id], r) && j' == j[r.id := r]
  }

  /** At most one record is written, by the journal's discipline. */
  ghost predicate WritesRecord(j: Journal, j': Journal) {
    j' == j || (exists r, a :: Begins(j, j', r, a)) || (exists r :: Saves(j, j', r))
  }

  /** A run from the empty journal; crashes are stuttering steps because every write is atomic. */
  ghost predicate Run(run: seq<State>) {
    && |run| > 0
    && run[0] == Initial()
    && forall i: nat :: i + 1 < |run| ==> StepAt(run, i)
  }

  ghost predicate StepAt(run: seq<State>, i: nat)
    requires i + 1 < |run|
  {
    Step(run[i], run[i + 1])
  }

  function Active(j: Journal): set<TaskId> {
    set t | t in j && Unfinished(j[t].status)
  }

  /** `y` was admitted as the repair of `x`, which `begin` found failed at that moment. */
  predicate RepairOf(s: State, x: TaskId, y: TaskId) {
    && y in s.admissions && s.admissions[y].Repair?
    && s.admissions[y].predecessor.id == x
    && s.admissions[y].predecessor.status == RecoveryRequired
    && s.admissions[y].predecessor.request.NativeUpgrade?
  }

  predicate BornBefore(s: State, x: TaskId, y: TaskId) {
    exists i, j :: 0 <= i < j < |s.births| && s.births[i] == x && s.births[j] == y
  }

  /** Records are filed under their own task ID, and each has one admission and one birth. */
  ghost predicate Keyed(s: State) {
    && (forall t :: t in s.journal ==> s.journal[t].id == t)
    && s.admissions.Keys == s.journal.Keys
    && (forall t :: t in s.births <==> t in s.journal)
  }

  ghost predicate BornOnce(s: State) {
    forall i, j :: 0 <= i < j < |s.births| ==> s.births[i] != s.births[j]
  }

  ghost predicate RepairsAreYounger(s: State) {
    forall y :: y in s.admissions && s.admissions[y].Repair? ==>
      RepairOf(s, s.admissions[y].predecessor.id, y) && BornBefore(s, s.admissions[y].predecessor.id, y)
  }

  ghost predicate FewUnfinished(s: State) {
    && |Active(s.journal)| <= 2
    && (forall x, y :: x in Active(s.journal) && y in Active(s.journal) && x != y ==>
          RepairOf(s, x, y) || RepairOf(s, y, x))
  }

  /** The history of a record is its versions 1, 2, ... in order, ending with the current one. */
  predicate History(r: Record, contents: seq<Record>) {
    && |contents| == r.version
    && |contents| >= 1 && contents[|contents| - 1] == r
    && forall k :: 0 <= k < |contents| ==> contents[k].version == k + 1
  }

  ghost predicate Versioned(s: State) {
    && s.contents.Keys == s.journal.Keys
    && forall t :: t in s.journal ==> History(s.journal[t], s.contents[t])
  }

  ghost predicate Inv(s: State) {
    Keyed(s) && BornOnce(s) && RepairsAreYounger(s) && FewUnfinished(s) && Versioned(s)
  }

  lemma {:induction false} InitialInv()
    ensures Inv(Initial())
  {
  }

  lemma {:induction false} Smaller<T>(a: set<T>, b: set<T>)
    requires a <= b
    ensures |a| <= |b|
  {
    assert b == a + (b - a);
  }

  lemma {:induction false} BeginKeepsBirths(s: State, s': State, r: Record, a: Admission)
    requires Keyed(s) && BornOnce(s) && BeginStep(s, s', r, a)
    ensures Keyed(s') && BornOnce(s')
  {
  }

  lemma {:induction false} BeginKeepsRepairOrder(s: State, s': State, r: Record, a: Admission)
    requires Keyed(s) && RepairsAreYounger(s) && BeginStep(s, s', r, a)
    ensures RepairsAreYounger(s')
  {
    forall y | y in s'.admissions && s'.admissions[y].Repair?
      ensures RepairOf(s', s'.admissions[y].predecessor.id, y) && BornBefore(s', s'.admissions[y].predecessor.id, y)
    {
      var x := s'.admissions[y].predecessor.id;
      if y == r.id {
        assert x in s.births;
        var i :| 0 <= i < |s.births| && s.births[i] == x;
        assert s'.births[i] == x && s'.births[|s.births|] == y;
      } else {
        assert RepairOf(s, x, y);
        var i, j :| 0 <= i < j < |s.births| && s.births[i] == x && s.births[j] == y;
        assert s'.births[i] == x && s'.births[j] == y;
      }
    }
  }

  lemma {:induction false} BeginKeepsFewUnfinished(s: State, s': State, r: Record, a: Admission)
    requires BeginStep(s, s', r, a)
    ensures FewUnfinished(s')
  {
    var prior := if a.Repair? then {a.predecessor.id} else {};
    assert Active(s'.journal) <= prior + {r.id};
    Smaller(Active(s'.journal), prior + {r.id});
  }

  lemma {:induction false} BeginKeepsVersions(s: State, s': State, r: Record, a: Admission)
    requires Keyed(s) && Versioned(s) && BeginStep(s, s', r, a)
    ensures Versioned(s')
  {
  }

  lemma {:induction false} SaveKeepsFewUnfinished(s: State, s': State, r: Record)
    requires Keyed(s) && FewUnfinished(s) && SaveStep(s, s', r)
    ensures FewUnfinished(s')
  {
    assert Active(s'.journal) <= Active(s.journal);
    Smaller(Active(s'.journal), Active(s.journal));
    forall x, y | x in Active(s'.journal) && y in Active(s'.journal) && x != y
      ensures RepairOf(s', x, y) || RepairOf(s', y, x)
    {
      assert RepairOf(s, x, y) || RepairOf(s, y, x);
    }
  }

  lemma {:induction false} SaveKeepsVersions(s: State, s': State, r: Record)
    requires Keyed(s) && Versioned(s) && SaveStep(s, s', r)
    ensures Versioned(s')
  {
  }

  lemma {:induction false} SaveKeepsBirths(s: State, s': State, r: Record)
    requires Keyed(s) && BornOnce(s) && RepairsAreYounger(s) && SaveStep(s, s', r)
    ensures Keyed(s') && BornOnce(s') && RepairsAreYounger(s')
  {
  }

  lemma {:induction false} StepKeepsInv(s: State, s': State)
    requires Inv(s) && Step(s, s')
    ensures Inv(s')
  {
    if s' != s {
      if r, a :| BeginStep(s, s', r, a) {
        BeginKeepsBirths(s, s', r, a);
        BeginKeepsRepairOrder(s, s', r, a);
        BeginKeepsFewUnfinished(s, s', r, a);
        BeginKeepsVersions(s, s', r, a);
      } else {
        var r :| SaveStep(s, s', r);
        SaveKeepsBirths(s, s', r);
        SaveKeepsFewUnfinished(s, s', r);
        SaveKeepsVersions(s, s', r);
      }
    }
  }

  /** What an earlier record promises about every later content of the same task. */
  predicate Succeeds(earlier: Record, later: Record) {
    && later.id == earlier.id
    && later.request == earlier.request
    && later.profileDigest == earlier.profileDigest
    && earlier.version <= later.version
    && (!Unfinished(earlier.status) ==> later == earlier)
  }

  ghost predicate Later(s: State, s': State) {
    && (forall t :: t in s.contents ==> t in s'.contents && s.contents[t] <= s'.contents[t])
    && (forall t :: t in s.journal ==> t in s'.journal && Succeeds(s.journal[t], s'.journal[t]))
    && (forall t :: t in s.admissions ==> t in s'.admissions && s'.admissions[t] == s.admissions[t])
  }

  lemma {:induction false} BeginLater(s: State, s': State, r: Record, a: Admission)
    requires Keyed(s) && s.contents.Keys == s.journal.Keys && BeginStep(s, s', r, a)
    ensures Later(s, s')
  {
  }

  lemma {:induction false} SaveLater(s: State, s': State, r: Record)
    requires Keyed(s) && SaveStep(s, s', r)
    ensures Later(s, s')
  {
  }

  lemma {:induction false} StepLater(s: State, s': State)
    requires Keyed(s) && s.contents.Keys == s.journal.Keys && Step(s, s')
    ensures Later(s, s')
  {
    if s' != s {
      if r, a :| BeginStep(s, s', r, a) {
        BeginLater(s, s', r, a);
      } else {
        var r :| SaveStep(s, s', r);
        SaveLater(s, s', r);
      }
    }
  }

  lemma {:induction false} LaterTransitive(s: State, m: State, e: State)
    requires Later(s, m) && Later(m, e)
    ensures Later(s, e)
  {
  }

  lemma {:induction false} RunStep(run: seq<State>, i: nat)
    requires Run(run) && i < |run| - 1
    ensures Step(run[i], run[i + 1])
  {
    assert StepAt(run, i);
  }

  lemma {:induction false} RunInv(run: seq<State>, i: nat)
    requires Run(run) && i < |run|
    ensures Inv(run[i])
  {
    if i == 0 {
      InitialInv();
    } else {
      RunInv(run, i - 1);
      RunStep(run, i - 1);
      StepKeepsInv(run[i - 1], run[i]);
    }
  }

  lemma {:induction false} RunStepLater(run: seq<State>, i: nat)
    requires Run(run) && i < |run| - 1
    ensures Later(run[i], run[i + 1])
  {
    RunInv(run, i);
    RunStep(run, i);
    StepLater(run[i], run[i + 1]);
  }

  lemma {:induction false} LaterReflexive(s: State)
    ensures Later(s, s)
  {
  }

  /** Terminal records are absorbing, versions are monotone, and requests stay bound,
      between any two moments of any run. */
  lemma {:induction false} TerminalIsAbsorbing(run: seq<State>, i: nat, k: nat)
    requires Run(run) && i <= k < |run|
    ensures Later(run[i], run[k])
    decreases k
  {
    if i < k {
      TerminalIsAbsorbing(run, i, k - 1);
      RunStepLater(run, k - 1);
      LaterTransitive(run[i], run[k - 1], run[k]);
    } else {
      LaterReflexive(run[i]);
    }
  }

  /** At most two tasks are ever unfinished, and two only while the younger one was
      admitted as the repair of the exact failed task `begin` found. */
  lemma {:induction false} AtMostTwoUnfinished(run: seq<State>, i: nat)
    requires Run(run) && i < |run|
    ensures |Active(run[i].journal)| <= 2
    ensures forall x, y :: x in Active(run[i].journal) && y in Active(run[i].journal) && x != y ==>
              || (RepairOf(run[i], x, y) && BornBefore(run[i], x, y))
              || (RepairOf(run[i], y, x) && BornBefore(run[i], y, x))
  {
    RunInv(run, i);
  }

  lemma {:induction false} SameVersionSameContent(s: State, s': State, t: TaskId)
    requires Versioned(s) && Versioned(s') && Later(s, s') && t in s.journal && t in s'.journal
    requires s.journal[t].version == s'.journal[t].version
    ensures s.journal[t] == s'.journal[t]
  {
  }

  /** No two different contents of one record ever share a version, over a whole run. */
  lemma {:induction false} VersionsIdentifyContents(run: seq<State>, i: nat, k: nat, t: TaskId)
    requires Run(run) && i < |run| && k < |run|
    requires t in run[i].journal && t in run[k].journal
    requires run[i].journal[t].version == run[k].journal[t].version
    ensures run[i].journal[t] == run[k].journal[t]
  {
    RunInv(run, i);
    RunInv(run, k);
    if i <= k {
      TerminalIsAbsorbing(run, i, k);
      SameVersionSameContent(run[i], run[k], t);
    } else {
      TerminalIsAbsorbing(run, k, i);
      SameVersionSameContent(run[k], run[i], t);
    }
  }

  lemma {:induction false} BirthIsAnOrder(s: State, x: TaskId, y: TaskId, z: TaskId)
    requires BornOnce(s) && BornBefore(s, x, y)
    ensures x != y
    ensures BornBefore(s, y, z) ==> BornBefore(s, x, z)
  {
  }

  /** Operations that write the journal by these two steps are steps of this system. */
  lemma {:induction false} WritesAreSteps(s: State, j': Journal) returns (s': State)
    requires Inv(s) && WritesRecord(s.journal, j')
    ensures Step(s, s') && s'.journal == j' && Inv(s')
  {
    if j' == s.journal {
      s' := s;
    } else if r, a :| Begins(s.journal, j', r, a) {
      s' := State(j', s.births + [r.id], s.admissions[r.id := a], s.contents[r.id := [r]]);
      assert BeginStep(s, s', r, a);
    } else {
      var r :| Saves(s.journal, j', r);
      s' := s.(journal := j', contents := s.contents[r.id := s.contents[r.id] + [r]]);
      assert SaveStep(s, s', r);
    }
    StepKeepsInv(s, s');
  }

  /** So a series of such writes from the empty journal is a run, and every result about runs
      holds of it. */
  lemma {:induction false} WritesAreRuns(js: seq<Journal>) returns (run: seq<State>)
    requires js != [] && js[0] == map[]
    requires forall i :: 0 <= i < |js| - 1 ==> WritesRecord(js[i], js[i + 1])
    ensures Run(run) && |run| == |js| && forall i :: 0 <= i < |js| ==> run[i].journal == js[i]
    decreases |js|
  {
    var n := |js| - 1;
    if n == 0 {
      run := [Initial()];
    } else {
      var front := js[..n];
      assert forall i :: 0 <= i < |front| - 1 ==> WritesRecord(front[i], front[i + 1]);
      var shorter := WritesAreRuns(front);
      RunInv(shorter, n - 1);
      assert WritesRecord(js[n - 1], js[n - 1 + 1]);
      var s := WritesAreSteps(shorter[n - 1], js[n]);
      run := shorter + [s];
      forall i: nat | i + 1 < |run|
        ensures StepAt(run, i)
      {
        if i < n - 1 { assert StepAt(shorter, i); }
      }
    }
  }
}
