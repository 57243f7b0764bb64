/** Why a verified backup verifies again after restore: `online_files` files every tree below
    its own archive root, the archive gives each path back unchanged, and `verify_material`
    reads nothing else. */
module Survival {
  import opened Octets
  import opened Records
  import opened Material
  import Names
  import Publish
  import Archive

  /** The installation while its writers are stopped. `inputs` are the profile's deployment
      files by their rendered index. */
  datatype Live = Live(control: Tree, relays: map<string, Tree>, json: Bytes, env: Bytes, inputs: map<string, Bytes>,
                       dump: Bytes, inventory: Bytes)

  /** A directory entry's name. */
  predicate Component(s: string) {
    s != "" && s != "." && s != ".." && '/' !in s
  }

  predicate Components(p: Path) {
    forall i :: 0 <= i < |p| ==> Component(p[i])
  }

  /** A real directory tree: no file is a directory, and directories are there. */
  ghost predicate IsTree(t: Tree) {
    && (forall p :: p in t.files ==> p != [] && Components(p))
    && (forall p, q :: p in t.files && q in t.files ==> !Publish.Proper(p, q))
    && (forall p, q :: q in t.files && Publish.Proper(p, q) ==> p in t.dirs)
  }

  ghost predicate WellFormed(live: Live) {
    && IsTree(live.control)
    && (forall h :: h in live.relays ==> Component(h) && IsTree(live.relays[h]))
    && (forall k :: k in live.inputs ==> Component(k))
  }

  // ---------- online_files ----------

  /** The walk refuses a directory called `offline` and anything strange. */
  predicate Walkable(t: Tree) {
    t.strange == {} && forall p :: p in t.dirs ==> "offline" !in p
  }

  predicate InControl(live: Live, p: Path, content: Bytes) {
    |p| > 1 && p[0] == "control" && p[1..] in live.control.files && content == live.control.files[p[1..]]
  }

  predicate InRelays(live: Live, p: Path, content: Bytes) {
    && |p| > 2 && p[0] == "relays" && p[1] in live.relays
    && p[2..] in live.relays[p[1]].files && content == live.relays[p[1]].files[p[2..]]
  }

  predicate InInputs(live: Live, p: Path, content: Bytes) {
    |p| == 3 && p[0] == "deployment" && p[1] == "inputs" && p[2] in live.inputs && content == live.inputs[p[2]]
  }

  /** The four files with names of their own. */
  function Singular(live: Live): map<Path, Bytes> {
    map[["deployment", "installation.json"] := live.json, ["deployment", "installation.env"] := live.env,
        ["database", "postgres.dump"] := live.dump, ["database", "inventory.json"] := live.inventory]
  }

  /** Where each file of the backup goes. */
  predicate Placed(live: Live, p: Path, content: Bytes) {
    || InControl(live, p, content) || InRelays(live, p, content) || InInputs(live, p, content)
    || (p in Singular(live) && content == Singular(live)[p])
  }

  /** Everything filed is in its place. */
  ghost predicate Sound(live: Live, m: map<Path, Bytes>) {
    forall p :: p in m ==> Placed(live, p, m[p])
  }

  /** The inventory holds exactly the placed files. */
  ghost predicate Places(live: Live, m: map<Path, Bytes>) {
    && Sound(live, m)
    && (forall p, content :: Placed(live, p, content) ==> p in m)
  }

  /** All files of one tree are filed below their prefix. */
  ghost predicate Filed(m: map<Path, Bytes>, prefix: Path, files: map<Path, Bytes>) {
    forall q :: q in files ==> prefix + q in m
  }

  lemma {:induction false} ControlPlace(live: Live, q: Path)
    requires WellFormed(live) && q in live.control.files
    ensures Placed(live, ["control"] + q, live.control.files[q])
  {
  }

  lemma {:induction false} RelayPlace(live: Live, h: string, q: Path)
    requires WellFormed(live) && h in live.relays && q in live.relays[h].files
    ensures Placed(live, ["relays", h] + q, live.relays[h].files[q])
  {
  }

  lemma {:induction false} InputPlace(live: Live, q: Path)
    requires q in Singles(live.inputs)
    ensures Placed(live, ["deployment", "inputs"] + q, Singles(live.inputs)[q])
  {
  }

  /** The profile's deployment files as one-component paths. */
  function Singles(inputs: map<string, Bytes>): (m: map<Path, Bytes>)
    ensures forall p :: p in m <==> |p| == 1 && p[0] in inputs
    ensures forall p :: p in m ==> m[p] == inputs[p[0]]
  {
    forall p: Path
      ensures p in (set k | k in inputs :: [k]) <==> |p| == 1 && p[0] in inputs
    {
      if |p| == 1 && p[0] in inputs { assert p == [p[0]]; }
    }
    map p | p in (set k | k in inputs :: [k]) :: inputs[p[0]]
  }

  /** One walked tree, file by file. */
  method AddTree(live: Live, prefix: Path, files: map<Path, Bytes>, before: map<Path, Bytes>)
    returns (m: map<Path, Bytes>)
    requires Sound(live, before) && forall q :: q in files ==> Placed(live, prefix + q, files[q])
    ensures Sound(live, m) && before.Keys <= m.Keys && Filed(m, prefix, files)
  {
    m := before;
    var left := files.Keys;
    while left != {}
      invariant left <= files.Keys && Sound(live, m) && before.Keys <= m.Keys
      invariant forall q :: q in files && q !in left ==> prefix + q in m
    {
      var q :| q in left;
      assert Placed(live, prefix + q, files[q]);
      m := m[prefix + q := files[q]];
      left := left - {q};
    }
  }

  /** `online_files` and the two database files the backup adds. It refuses exactly when a
      tree holds an `offline` directory or a strange entry. */
  method OnlineFiles(live: Live) returns (r: Option<map<Path, Bytes>>)
    requires WellFormed(live)
    ensures r.Some? <==> Walkable(live.control) && forall h :: h in live.relays ==> Walkable(live.relays[h])
    ensures r.Some? ==> Places(live, r.value)
  {
    var result := Singular(live);
    result := AddInputs(live, result);
    if !Walkable(live.control) { return None; }
    result := AddControl(live, result);
    var ok;
    ok, result := AddRelays(live, result);
    if !ok { return None; }
    Complete(live, result);
    return Some(result);
  }

  method AddInputs(live: Live, before: map<Path, Bytes>) returns (m: map<Path, Bytes>)
    requires Sound(live, before)
    ensures Sound(live, m) && before.Keys <= m.Keys && Filed(m, ["deployment", "inputs"], Singles(live.inputs))
  {
    forall q | q in Singles(live.inputs)
      ensures Placed(live, ["deployment", "inputs"] + q, Singles(live.inputs)[q])
    {
      InputPlace(live, q);
    }
    m := AddTree(live, ["deployment", "inputs"], Singles(live.inputs), before);
  }

  method AddControl(live: Live, before: map<Path, Bytes>) returns (m: map<Path, Bytes>)
    requires WellFormed(live) && Sound(live, before)
    ensures Sound(live, m) && before.Keys <= m.Keys && Filed(m, ["control"], live.control.files)
  {
    forall q | q in live.control.files
      ensures Placed(live, ["control"] + q, live.control.files[q])
    {
      ControlPlace(live, q);
    }
    m := AddTree(live, ["control"], live.control.files, before);
  }

  /** The loop over the Relay roots. */
  method AddRelays(live: Live, before: map<Path, Bytes>) returns (ok: bool, m: map<Path, Bytes>)
    requires WellFormed(live) && Sound(live, before)
    ensures ok <==> forall h :: h in live.relays ==> Walkable(live.relays[h])
    ensures Sound(live, m) && before.Keys <= m.Keys
    ensures ok ==> forall h :: h in live.relays ==> Filed(m, ["relays", h], live.relays[h].files)
  {
    m := before;
    var left := live.relays.Keys;
    while left != {}
      invariant left <= live.relays.Keys && Sound(live, m) && before.Keys <= m.Keys
      invariant forall h :: h in live.relays && h !in left ==> Walkable(live.relays[h])
      invariant forall h :: h in live.relays && h !in left ==> Filed(m, ["relays", h], live.relays[h].files)
    {
      var h :| h in left;
      if !Walkable(live.relays[h]) { return false, m; }
      forall q | q in live.relays[h].files
        ensures Placed(live, ["relays", h] + q, live.relays[h].files[q])
      {
        RelayPlace(live, h, q);
      }
      m := AddTree(live, ["relays", h], live.relays[h].files, m);
      left := left - {h};
    }
    return true, m;
  }

  lemma {:induction false} ControlIsFiled(live: Live, m: map<Path, Bytes>, p: Path, content: Bytes)
    requires Filed(m, ["control"], live.control.files) && InControl(live, p, content)
    ensures p in m
  {
    assert p == ["control"] + p[1..];
  }

  lemma {:induction false} RelaysAreFiled(live: Live, m: map<Path, Bytes>, p: Path, content: Bytes)
    requires InRelays(live, p, content) && Filed(m, ["relays", p[1]], live.relays[p[1]].files)
    ensures p in m
  {
    assert p == ["relays", p[1]] + p[2..];
  }

  lemma {:induction false} InputsAreFiled(live: Live, m: map<Path, Bytes>, p: Path, content: Bytes)
    requires Filed(m, ["deployment", "inputs"], Singles(live.inputs)) && InInputs(live, p, content)
    ensures p in m
  {
    assert [p[2]] in Singles(live.inputs);
    assert p == ["deployment", "inputs"] + [p[2]];
  }

  lemma {:induction false} Complete(live: Live, m: map<Path, Bytes>)
    requires Sound(live, m) && Singular(live).Keys <= m.Keys
    requires Filed(m, ["deployment", "inputs"], Singles(live.inputs)) && Filed(m, ["control"], live.control.files)
    requires forall h :: h in live.relays ==> Filed(m, ["relays", h], live.relays[h].files)
    ensures Places(live, m)
  {
    forall p, content | Placed(live, p, content)
      ensures p in m
    {
      if InControl(live, p, content) {
        ControlIsFiled(live, m, p, content);
      } else if InRelays(live, p, content) {
        assert Filed(m, ["relays", p[1]], live.relays[p[1]].files);
        RelaysAreFiled(live, m, p, content);
      } else if InInputs(live, p, content) {
        InputsAreFiled(live, m, p, content);
      }
    }
  }

  // ---------- The archive gives every path back ----------

  lemma {:induction false} PartsOfComponents(p: Path)
    requires p != [] && Components(p)
    ensures Names.Parts(Names.Join(p)) == p
  {
    Names.SplitJoin(p);
    Names.KeepAll(p);
  }

  lemma {:induction false} SingularComponents(live: Live, p: Path)
    requires p in Singular(live)
    ensures |p| == 2 && Components(p)
    ensures p[0] == "database" || (p[0] == "deployment" && p[1] != "inputs")
  {
  }

  lemma {:induction false} PlacedComponents(live: Live, p: Path, content: Bytes)
    requires WellFormed(live) && Placed(live, p, content)
    ensures p != [] && Components(p)
  {
    if InControl(live, p, content) {
      assert Components(p[1..]);
      assert p == ["control"] + p[1..];
    } else if InRelays(live, p, content) {
      assert IsTree(live.relays[p[1]]) && Components(p[2..]);
      assert p == ["relays", p[1]] + p[2..];
    } else if p in Singular(live) {
      SingularComponents(live, p);
    }
  }

  /** No archived path is a directory of another. */
  lemma {:induction false} PlacedApart(live: Live, p: Path, c: Bytes, q: Path, d: Bytes)
    requires WellFormed(live) && Placed(live, p, c) && Placed(live, q, d)
    ensures !Publish.Proper(p, q)
  {
    if p in Singular(live) { SingularComponents(live, p); }
    if q in Singular(live) { SingularComponents(live, q); }
    if Publish.Proper(p, q) {
      assert p[0] == q[0] && (|p| > 1 ==> p[1] == q[1]);
      if InControl(live, p, c) {
        assert p[1..] == q[1..][..|p[1..]|];
        assert Publish.Proper(p[1..], q[1..]);
      } else if InRelays(live, p, c) {
        assert IsTree(live.relays[p[1]]);
        assert p[2..] == q[2..][..|p[2..]|];
        assert Publish.Proper(p[2..], q[2..]);
      }
    }
  }

  /** One opening of a file nobody writes. */
  predicate Shows(item: Archive.Item, content: Bytes) {
    item.first == item.second == Archive.Opened(|content|, content)
  }

  /** The request the backup makes: item `i` is the file at `paths[i]`, unchanged while read. */
  ghost predicate Requests(items: seq<Archive.Item>, paths: seq<Path>, m: map<Path, Bytes>) {
    && |items| == |paths|
    && (forall i :: 0 <= i < |items| ==>
          paths[i] in m && items[i].name == Names.Join(paths[i]) && Shows(items[i], m[paths[i]]))
    && (forall p :: p in m ==> p in paths)
  }

  lemma {:induction false} RequestedPath(live: Live, items: seq<Archive.Item>, paths: seq<Path>, m: map<Path, Bytes>,
                                         i: nat)
    requires WellFormed(live) && Places(live, m) && Requests(items, paths, m) && i < |items|
    ensures Names.Parts(items[i].name) == paths[i] && Archive.Copied(items[i]) == m[paths[i]]
  {
    PlacedComponents(live, paths[i], m[paths[i]]);
    PartsOfComponents(paths[i]);
  }

  lemma {:induction false} RequestIsPrefixFree(live: Live, items: seq<Archive.Item>, paths: seq<Path>,
                                               m: map<Path, Bytes>)
    requires WellFormed(live) && Places(live, m) && Requests(items, paths, m)
    ensures Archive.PrefixFree(items)
  {
    forall i, j | 0 <= i < |items| && 0 <= j < |items|
      ensures !Publish.Proper(Names.Parts(items[i].name), Names.Parts(items[j].name))
    {
      RequestedPath(live, items, paths, m, i);
      RequestedPath(live, items, paths, m, j);
      PlacedApart(live, paths[i], m[paths[i]], paths[j], m[paths[j]]);
    }
  }

  lemma {:induction false} ExtractedWithin(ms: seq<Archive.Member>, m: map<Path, Bytes>)
    requires forall i :: 0 <= i < |ms| ==> Names.Parts(ms[i].name) in m && m[Names.Parts(ms[i].name)] == ms[i].data
    ensures forall p :: p in Archive.Extracted(ms) ==> p in m && m[p] == Archive.Extracted(ms)[p]
    decreases |ms|
  {
    if ms != [] { ExtractedWithin(ms[..|ms| - 1], m); }
  }

  /** The staged tree is the inventory. */
  lemma {:induction false} ExtractedIsTheInventory(live: Live, items: seq<Archive.Item>, paths: seq<Path>,
                                                   m: map<Path, Bytes>)
    requires WellFormed(live) && Places(live, m) && Requests(items, paths, m)
    ensures Archive.Extracted(Archive.CopiedMembers(items)) == m
  {
    var ms := Archive.CopiedMembers(items);
    forall i | 0 <= i < |ms|
      ensures Names.Parts(ms[i].name) == paths[i] && m[paths[i]] == ms[i].data
    {
      RequestedPath(live, items, paths, m, i);
    }
    ExtractedWithin(ms, m);
    forall p | p in m
      ensures p in Archive.Extracted(ms)
    {
      var i :| 0 <= i < |paths| && paths[i] == p;
      Archive.ExtractedPointwise(ms, p);
      assert Names.Parts(ms[i].name) == p;
    }
  }

  // ---------- The restored trees ----------

  function FilesBelow(m: map<Path, Bytes>, prefix: Path): map<Path, Bytes> {
    map q | q in (set p | p in m && Publish.Proper(prefix, p) :: p[|prefix|..]) && prefix + q in m :: m[prefix + q]
  }

  /** `inputs / prefix` as restore finds it. */
  function Restored(m: map<Path, Bytes>, prefix: Path): Tree {
    Bare(FilesBelow(m, prefix))
  }

  lemma {:induction false} BelowIs(m: map<Path, Bytes>, prefix: Path, q: Path)
    ensures q in FilesBelow(m, prefix) <==> q != [] && prefix + q in m
  {
  }

  lemma {:induction false} SingularIsElsewhere(live: Live, p: Path)
    requires p in Singular(live)
    ensures p[0] != "control" && p[0] != "relays"
  {
  }

  lemma {:induction false} ControlBack(live: Live, m: map<Path, Bytes>, q: Path)
    requires WellFormed(live) && Places(live, m)
    ensures q in FilesBelow(m, ["control"]) <==> q in live.control.files
    ensures q in live.control.files ==> FilesBelow(m, ["control"])[q] == live.control.files[q]
  {
    var p := ["control"] + q;
    BelowIs(m, ["control"], q);
    assert p[1..] == q;
    if q in live.control.files { ControlPlace(live, q); }
    if q != [] && p in m {
      if p in Singular(live) { SingularIsElsewhere(live, p); }
      assert Placed(live, p, m[p]);
      assert InControl(live, p, m[p]);
    }
  }

  lemma {:induction false} RelayBack(live: Live, m: map<Path, Bytes>, h: string, q: Path)
    requires WellFormed(live) && Places(live, m) && h in live.relays
    ensures q in FilesBelow(m, ["relays", h]) <==> q in live.relays[h].files
    ensures q in live.relays[h].files ==> FilesBelow(m, ["relays", h])[q] == live.relays[h].files[q]
  {
    var p := ["relays", h] + q;
    BelowIs(m, ["relays", h], q);
    assert IsTree(live.relays[h]);
    assert p[2..] == q;
    if q in live.relays[h].files { RelayPlace(live, h, q); }
    if q != [] && p in m {
      if p in Singular(live) { SingularIsElsewhere(live, p); }
      assert Placed(live, p, m[p]);
      assert InRelays(live, p, m[p]);
    }
  }

  /** The restored trees hold exactly the live files in the directories they need. */
  lemma {:induction false} TreesComeBack(live: Live, m: map<Path, Bytes>)
    requires WellFormed(live) && Places(live, m)
    ensures Restored(m, ["control"]) == Bare(live.control.files)
    ensures forall h :: h in live.relays ==> Restored(m, ["relays", h]) == Bare(live.relays[h].files)
  {
    assert FilesBelow(m, ["control"]) == live.control.files by {
      forall q
        ensures q in FilesBelow(m, ["control"]) <==> q in live.control.files
        ensures q in live.control.files ==> FilesBelow(m, ["control"])[q] == live.control.files[q]
      {
        ControlBack(live, m, q);
      }
    }
    forall h | h in live.relays
      ensures Restored(m, ["relays", h]) == Bare(live.relays[h].files)
    {
      forall q
        ensures q in FilesBelow(m, ["relays", h]) <==> q in live.relays[h].files
        ensures q in live.relays[h].files ==> FilesBelow(m, ["relays", h])[q] == live.relays[h].files[q]
      {
        RelayBack(live, m, h, q);
      }
      assert FilesBelow(m, ["relays", h]) == live.relays[h].files;
    }
  }

  function RestoredRelays(m: map<Path, Bytes>, hosts: set<string>): map<string, Tree> {
    map h | h in hosts :: Restored(m, ["relays", h])
  }

  lemma {:induction false} ArchiveGivesBack(live: Live, m: map<Path, Bytes>, c: Archive.Codec,
                         items: seq<Archive.Item>, paths: seq<Path>, metadata: Bytes, maximum: nat)
    requires WellFormed(live) && Places(live, m) && Requests(items, paths, m)
    requires Archive.Sorted(items) && Archive.Faithful(c, items, metadata)
    requires Archive.Archivable(c, items, metadata, maximum)
    ensures var p := Archive.PayloadOf(c, items, metadata);
            && c.open(c.seal(p)) == Some(p) && Archive.Valid(c, p, maximum)
            && Archive.Extracted(p.members[1..]) == m
  {
    RequestIsPrefixFree(live, items, paths, m);
    Archive.RoundTrip(c, items, metadata, maximum);
    ExtractedIsTheInventory(live, items, paths, m);
    Archive.PayloadShape(c, items, metadata, maximum);
  }

  lemma {:induction false} RelaysComeBack(live: Live, m: map<Path, Bytes>, relays: map<string, Tree>)
    requires WellFormed(live) && Places(live, m) && relays == RestoredRelays(m, live.relays.Keys)
    ensures relays.Keys == live.relays.Keys && forall h :: h in live.relays ==> relays[h] == Bare(live.relays[h].files)
  {
    TreesComeBack(live, m);
    forall h | h in live.relays
      ensures relays[h] == Bare(live.relays[h].files)
    {
      assert relays[h] == Restored(m, ["relays", h]);
    }
  }

  lemma {:induction false} RelaysAreRooted(live: Live)
    requires WellFormed(live) && forall h :: h in live.relays ==> Walkable(live.relays[h])
    ensures forall h :: h in live.relays ==> Rooted(live.relays[h])
  {
    forall h | h in live.relays
      ensures Rooted(live.relays[h])
    {
      assert IsTree(live.relays[h]) && Walkable(live.relays[h]);
    }
  }

  /** Verification through backup and restore. With the writers stopped and the archive written,
      the archive is accepted on decryption, its staged tree is the online inventory, and
      `verify_material` accepts the live installation exactly when it accepts the extracted
      trees, `control` and `relays`, against the same snapshot and no live assignment has an
      empty directory called `terminated.bin`; the counts are the same. So what was accepted
      during backup is accepted after restore. */
  lemma {:induction false} VerificationSurvives(tools: Tools, v: Snapshot, live: Live, m: map<Path, Bytes>,
                                                c: Archive.Codec, items: seq<Archive.Item>, paths: seq<Path>,
                                                metadata: Bytes, maximum: nat,
                                                control: Tree, relays: map<string, Tree>)
    requires WellFormed(live)
    requires Walkable(live.control) && forall h :: h in live.relays ==> Walkable(live.relays[h])
    requires Places(live, m) && Requests(items, paths, m)
    requires Archive.Sorted(items) && Archive.Faithful(c, items, metadata)
    requires Archive.Archivable(c, items, metadata, maximum)
    requires control == Restored(m, ["control"]) && relays == RestoredRelays(m, live.relays.Keys)
    ensures var p := Archive.PayloadOf(c, items, metadata);
            && c.open(c.seal(p)) == Some(p) && Archive.Valid(c, p, maximum)
            && Archive.Extracted(p.members[1..]) == m
    ensures Accepted(tools, v, live.control, live.relays) <==>
              && Accepted(tools, v, control, relays)
              && forall i :: 0 <= i < |v.assignments| ==> !EmptyMark(live.relays, v.assignments[i])
    ensures CountsOf(tools, v, control) == CountsOf(tools, v, live.control)
  {
    ArchiveGivesBack(live, m, c, items, paths, metadata, maximum);
    TreesComeBack(live, m);
    RelaysComeBack(live, m, relays);
    RelaysAreRooted(live);
    CopyIsAccepted(tools, v, live.control, live.relays, control, relays);
  }
}
