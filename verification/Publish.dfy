/** The last part of `decrypt_archive`: publishing a verified tree under a new destination.
    Directory entries have a volatile and an fsynced form, and a crash may leave either of
    the two for every entry independently. Paths are component lists relative to the
    destination; the empty path is the destination's own entry in its parent. */
module Publish {
  import opened Octets

  type Path = seq<string>


  /** Links are made to files whose contents were fsynced during extraction. */
  datatype Node = Dir | File(content: Bytes)

  type Entries = map<Path, Node>

  datatype Disk = Disk(vol: Entries, dur: Entries)

  const MARK: Path := [".incomplete"]

  function Parent(p: Path): Path
    requires p != []
  {
    p[..|p| - 1]
  }

  // ---------- What a crash can leave ----------

  /** Every entry is found in its volatile or its fsynced form. */
  ghost predicate Image(d: Disk, c: Entries) {
    && (forall p :: p in c ==> (p in d.vol && d.vol[p] == c[p]) || (p in d.dur && d.dur[p] == c[p]))
    && (forall p :: p in d.vol && p in d.dur && d.vol[p] == d.dur[p] ==> p in c && c[p] == d.vol[p])
  }

  predicate Proper(p: Path, q: Path) {
    |p| < |q| && p == q[..|p|]
  }

  /** A file and all its directories are there. */
  ghost predicate Rooted(c: Entries, q: Path) {
    forall k :: 0 <= k <= |q| ==> q[..k] in c
  }

  /** The destination holds exactly the inventory, every file reachable through its directories. */
  ghost predicate Complete(c: Entries, inv: map<Path, Bytes>) {
    && (forall q :: q in inv ==> Rooted(c, q))
    && (forall q :: q in inv ==> q in c && c[q] == File(inv[q]))
    && (forall p :: p in c && p != [] ==>
          (p in inv && c[p] == File(inv[p])) || (c[p] == Dir && exists q :: q in inv && Proper(p, q)))
  }

  /** Absent, explicitly incomplete, empty, or complete. */
  ghost predicate Acceptable(c: Entries, inv: map<Path, Bytes>) {
    || [] !in c
    || MARK in c
    || (forall p :: p in c ==> p == [])
    || Complete(c, inv)
  }

  ghost predicate CrashSafe(d: Disk, inv: map<Path, Bytes>) {
    forall c :: Image(d, c) ==> Acceptable(c, inv)
  }

  // ---------- The directory operations ----------

  function Insert(d: Disk, p: Path, n: Node): Disk {
    d.(vol := d.vol[p := n])
  }

  function Remove(d: Disk, p: Path): Disk {
    d.(vol := d.vol - {p})
  }

  /** fsync of directory `dir` settles the entries in it. */
  ghost function SyncDir(d: Disk, dir: Path): Disk {
    d.(dur := map p | p in d.vol.Keys + d.dur.Keys && (if p != [] && Parent(p) == dir then p in d.vol else p in d.dur)
                :: if p != [] && Parent(p) == dir then d.vol[p] else d.dur[p])
  }

  /** fsync of the destination's parent settles the destination's own entry. */
  ghost function SyncParent(d: Disk): Disk {
    if [] in d.vol then d.(dur := d.dur[[] := d.vol[[]]]) else d.(dur := d.dur - {[]})
  }

  // ---------- What holds while publishing ----------

  /** The names `relative_name` accepted, none a prefix of another. */
  ghost predicate Publishable(inv: map<Path, Bytes>) {
    && inv != map[]
    && (forall q :: q in inv ==> q != [] && q[0] != MARK[0])
    && (forall p, q :: p in inv && q in inv ==> !Proper(p, q))
  }

  /** The whole published tree, with the marker still in it. */
  ghost function Tree(inv: map<Path, Bytes>): Entries {
    map p | p in {[], MARK} + Below(inv) ::
      if p == MARK then File([]) else if p in inv then File(inv[p]) else Dir
  }

  ghost function Below(inv: map<Path, Bytes>): set<Path> {
    set q, k | q in inv && 0 < k <= |q| :: q[..k]
  }

  lemma {:induction false} TreeHasPrefix(inv: map<Path, Bytes>, q: Path, k: nat)
    requires Publishable(inv) && q in inv && k <= |q|
    ensures q[..k] in Tree(inv) && q[..k] != MARK
    ensures Tree(inv)[q[..k]] == if k == |q| then File(inv[q]) else Dir
  {
    if k > 0 {
      assert q[..k] in Below(inv);
      assert q[..k][0] == q[0];
    }
    if k == |q| {
      assert q[..k] == q;
    } else {
      assert Proper(q[..k], q);
    }
  }

  lemma {:induction false} TreeIsComplete(inv: map<Path, Bytes>)
    requires Publishable(inv)
    ensures Complete(Tree(inv) - {MARK}, inv)
  {
    var c := Tree(inv) - {MARK};
    forall q | q in inv
      ensures Rooted(c, q) && q in c && c[q] == File(inv[q])
    {
      forall k | 0 <= k <= |q|
        ensures q[..k] in c
      {
        TreeHasPrefix(inv, q, k);
      }
      TreeHasPrefix(inv, q, |q|);
      assert q[..|q|] == q;
    }
    forall p | p in c && p != []
      ensures (p in inv && c[p] == File(inv[p])) || (c[p] == Dir && exists q :: q in inv && Proper(p, q))
    {
      var q, k :| q in inv && 0 < k <= |q| && p == q[..k];
      if k == |q| {
        assert p == q;
      } else {
        assert Proper(p, q);
      }
    }
  }

  ghost predicate Subtree(a: Entries, b: Entries) {
    forall p :: p in a ==> p in b && b[p] == a[p]
  }

  /** Between the marker becoming durable and its removal. */
  ghost predicate Fenced(d: Disk, tree: Entries) {
    Subtree(d.vol, tree) && Subtree(d.dur, d.vol) && [] in d.dur && MARK in d.dur
  }

  lemma {:induction false} FencedIsSafe(d: Disk, inv: map<Path, Bytes>)
    requires MARK in d.vol && MARK in d.dur && d.vol[MARK] == d.dur[MARK]
    ensures CrashSafe(d, inv)
  {
  }

  /** Before the marker is durable nothing but the destination and the marker exists. */
  lemma {:induction false} FreshIsSafe(d: Disk, inv: map<Path, Bytes>)
    requires forall p :: p in d.vol || p in d.dur ==> p == [] || p == MARK
    ensures CrashSafe(d, inv)
  {
  }

  /** Once everything is fsynced, removing the marker exposes the complete tree or nothing. */
  lemma {:induction false} UnfencedIsSafe(dur: Entries, inv: map<Path, Bytes>)
    requires Publishable(inv)
    requires dur == Tree(inv) || dur == Tree(inv) - {MARK}
    ensures CrashSafe(Disk(Tree(inv) - {MARK}, dur), inv)
  {
    var bare := Tree(inv) - {MARK};
    forall c | Image(Disk(bare, dur), c)
      ensures Acceptable(c, inv)
    {
      if MARK !in c {
        assert c == bare;
        TreeIsComplete(inv);
      }
    }
  }

  // ---------- The publishing method ----------

  class FileSystem {
    var disk: Disk
    const inv: map<Path, Bytes>      // the verified inventory
    ghost const tree: Entries        // what publishing it amounts to
    ghost var history: seq<Disk>     // every state of the disk while publishing

    /** `decrypt_archive` has checked that the destination does not exist. */
    constructor (inv: map<Path, Bytes>)
      ensures disk == Disk(map[], map[]) && this.inv == inv && tree == Tree(inv) && history == []
    {
      disk, this.inv, tree, history := Disk(map[], map[]), inv, Tree(inv), [];
    }

    /** One change of the disk, noted in the history. */
    method Advance(d: Disk)
      requires AllSafe(history, inv) && CrashSafe(d, inv)
      modifies this`disk, this`history
      ensures disk == d && history == old(history) + [d] && AllSafe(history, inv)
    {
      SafeExtends(history, d, inv);
      disk := d;
      history := history + [d];
    }

    method MkDir(p: Path)
      requires AllSafe(history, inv) && CrashSafe(Insert(disk, p, Dir), inv)
      modifies this`disk, this`history
      ensures disk == Insert(old(disk), p, Dir) && history == old(history) + [disk] && AllSafe(history, inv)
    {
      Advance(Insert(disk, p, Dir));
    }

    method Link(p: Path, content: Bytes)
      requires AllSafe(history, inv) && CrashSafe(Insert(disk, p, File(content)), inv)
      modifies this`disk, this`history
      ensures disk == Insert(old(disk), p, File(content)) && history == old(history) + [disk] && AllSafe(history, inv)
    {
      Advance(Insert(disk, p, File(content)));
    }

    method Unlink(p: Path)
      requires AllSafe(history, inv) && CrashSafe(Remove(disk, p), inv)
      modifies this`disk, this`history
      ensures disk == Remove(old(disk), p) && history == old(history) + [disk] && AllSafe(history, inv)
    {
      Advance(Remove(disk, p));
    }

    method Fsync(dir: Path)
      requires AllSafe(history, inv) && CrashSafe(SyncDir(disk, dir), inv)
      modifies this`disk, this`history
      ensures disk == SyncDir(old(disk), dir) && history == old(history) + [disk] && AllSafe(history, inv)
    {
      Advance(disk.(dur := map p | p in disk.vol.Keys + disk.dur.Keys
                                     && (if p != [] && Parent(p) == dir then p in disk.vol else p in disk.dur)
                                :: if p != [] && Parent(p) == dir then disk.vol[p] else disk.dur[p]));
    }

    method FsyncParent()
      requires AllSafe(history, inv) && CrashSafe(SyncParent(disk), inv)
      modifies this`disk, this`history
      ensures disk == SyncParent(old(disk)) && history == old(history) + [disk] && AllSafe(history, inv)
    {
      Advance(if [] in disk.vol then disk.(dur := disk.dur[[] := disk.vol[[]]]) else disk.(dur := disk.dur - {[]}));
    }

    /** `destination.mkdir`, the marker, and the two fsyncs that make it durable. */
    method Fence()
      requires disk == Disk(map[], map[]) && AllSafe(history, inv)
      modifies this`disk, this`history
      ensures disk == Disk(map[[] := Dir, MARK := File([])], map[[] := Dir, MARK := File([])])
      ensures old(history) <= history && AllSafe(history, inv)
    {
      FreshIsSafe(Insert(disk, [], Dir), inv);
      MkDir([]);
      FreshIsSafe(Insert(disk, MARK, File([])), inv);
      Link(MARK, []);
      SyncMarker(disk.vol);
      FreshIsSafe(SyncDir(disk, []), inv);
      Fsync([]);
      FreshIsSafe(SyncParent(disk), inv);
      FsyncParent();
    }

    /** One more entry of the tree, behind the durable marker. */
    method Add(p: Path, n: Node)
      requires Fenced(disk, tree) && p in tree && tree[p] == n && p !in disk.dur && AllSafe(history, inv)
      modifies this`disk, this`history
      ensures Fenced(disk, tree) && disk == Insert(old(disk), p, n)
      ensures AllSafe(history, inv) && old(history) <= history
    {
      FencedIsSafe(Insert(disk, p, n), inv);
      match n {
        case Dir => MkDir(p);
        case File(content) => Link(p, content);
      }
    }

    /** `os.link` of one inventory file, after making its missing parent directories. */
    method LinkOne(q: Path)
      requires Publishable(inv) && tree == Tree(inv) && q in inv
      requires Fenced(disk, tree) && disk.dur.Keys == {[], MARK} && AllSafe(history, inv)
      modifies this`disk, this`history
      ensures Fenced(disk, tree) && disk.dur == old(disk).dur && AllSafe(history, inv) && old(history) <= history
      ensures Grown(old(disk).vol, disk.vol, q) && Rooted(disk.vol, q)
    {
      var k := 1;
      assert q[..0] == [];
      while k < |q|
        invariant 1 <= k <= |q|
        invariant Fenced(disk, tree) && disk.dur == old(disk).dur && AllSafe(history, inv) && old(history) <= history
        invariant RootedTo(disk.vol, q, k)
        invariant Grown(old(disk).vol, disk.vol, q)
      {
        if q[..k] !in disk.vol {
          TreeHasPrefix(inv, q, k);
          RootedInsert(disk.vol, q, k, q[..k], Dir);
          Add(q[..k], Dir);
        }
        RootedNext(disk.vol, q, k);
        k := k + 1;
      }
      assert q[..|q|] == q;
      TreeHasPrefix(inv, q, |q|);
      RootedInsert(disk.vol, q, |q|, q, File(inv[q]));
      Add(q, File(inv[q]));
      RootedNext(disk.vol, q, |q|);
    }

    /** The link loop; `directories` collects what must be fsynced. */
    method LinkAll(order: seq<Path>) returns (directories: set<Path>)
      requires Publishable(inv) && tree == Tree(inv) && (forall q :: q in order <==> q in inv)
      requires disk == Disk(map[[] := Dir, MARK := File([])], map[[] := Dir, MARK := File([])]) && AllSafe(history, inv)
      modifies this`disk, this`history
      ensures Fenced(disk, tree) && disk.vol == tree && AllSafe(history, inv) && old(history) <= history
      ensures ParentsIn(disk.vol, directories)
    {
      directories := {[]};
      var i := 0;
      while i < |order|
        invariant 0 <= i <= |order|
        invariant Fenced(disk, tree) && disk.dur == old(disk).dur && AllSafe(history, inv) && old(history) <= history
        invariant RootedUpTo(order, i, disk.vol)
        invariant ParentsIn(disk.vol, directories)
      {
        var q := order[i];
        assert q in order;
        ghost var before := disk.vol;
        LinkOne(q);
        NewParents(before, disk.vol, directories, q);
        directories := directories + Prefixes(q);
        RootedStays(order, i, before, disk.vol);
        i := i + 1;
      }
      AllRooted(order, disk.vol, inv);
    }

    /** The fsync loop. The source goes deepest first; any order is enough. */
    method SyncAll(directories: set<Path>)
      requires Fenced(disk, tree) && AllSafe(history, inv)
      requires ParentsIn(disk.vol, directories)
      modifies this`disk, this`history
      ensures disk.vol == old(disk).vol && disk.dur == disk.vol && AllSafe(history, inv) && old(history) <= history
    {
      var todo := directories;
      while todo != {}
        invariant todo <= directories
        invariant Fenced(disk, tree) && disk.vol == old(disk).vol && AllSafe(history, inv) && old(history) <= history
        invariant forall p :: p in disk.vol && p != [] && Parent(p) !in todo ==> p in disk.dur
        decreases |todo|
      {
        var dir :| dir in todo;
        SyncKeepsFence(disk, dir, tree);
        FencedIsSafe(SyncDir(disk, dir), inv);
        Fsync(dir);
        todo := todo - {dir};
      }
      assert disk.dur == disk.vol;
    }

    /** Removing the marker, durably. */
    method Expose()
      requires Publishable(inv) && disk == Disk(Tree(inv), Tree(inv)) && AllSafe(history, inv)
      modifies this`disk, this`history
      ensures disk == Disk(Tree(inv) - {MARK}, Tree(inv) - {MARK})
      ensures AllSafe(history, inv) && old(history) <= history
    {
      UnfencedIsSafe(Tree(inv), inv);
      Unlink(MARK);
      SyncRemoval(Tree(inv));
      UnfencedIsSafe(Tree(inv) - {MARK}, inv);
      Fsync([]);
      assert SyncParent(disk) == disk;
      FsyncParent();
    }

    /** Publish: every crash on the way leaves the destination absent, marked, empty or complete,
        and the end state is complete and durable. */
    method PublishTree(order: seq<Path>)
      requires Publishable(inv) && tree == Tree(inv) && (forall q :: q in order <==> q in inv)
      requires disk == Disk(map[], map[]) && AllSafe(history, inv)
      modifies this`disk, this`history
      ensures old(history) <= history && AllSafe(history, inv)
      ensures Complete(disk.vol, inv) && disk.dur == disk.vol && MARK !in disk.vol
    {
      Fence();
      var directories := LinkAll(order);
      SyncAll(directories);
      TreeIsComplete(inv);
      Expose();
    }
  }

  /** The parents of a target below the destination, and the destination. */
  function Prefixes(q: Path): set<Path> {
    set k | 0 <= k < |q| :: q[..k]
  }

  /** Only `q` and its directories were added. */
  ghost predicate Grown(before: Entries, vol: Entries, q: Path) {
    && (forall p :: p in before ==> p in vol)
    && (forall p :: p in vol && p !in before ==> 0 < |p| <= |q| && p == q[..|p|])
  }

  ghost predicate ParentsIn(vol: Entries, directories: set<Path>) {
    forall p :: p in vol && p != [] ==> Parent(p) in directories
  }

  lemma {:induction false} NewParents(before: Entries, vol: Entries, directories: set<Path>, q: Path)
    requires ParentsIn(before, directories) && Grown(before, vol, q)
    ensures ParentsIn(vol, directories + Prefixes(q))
  {
    forall p | p in vol && p != []
      ensures Parent(p) in directories + Prefixes(q)
    {
      if p !in before {
        assert Parent(p) == q[..|p| - 1];
      }
    }
  }

  ghost predicate RootedTo(vol: Entries, q: Path, n: nat) {
    n <= |q| + 1 && forall k :: 0 <= k < n ==> q[..k] in vol
  }

  lemma {:induction false} RootedInsert(vol: Entries, q: Path, n: nat, p: Path, node: Node)
    requires RootedTo(vol, q, n)
    ensures RootedTo(vol[p := node], q, n)
  {
  }

  lemma {:induction false} RootedNext(vol: Entries, q: Path, n: nat)
    requires RootedTo(vol, q, n) && n <= |q| && q[..n] in vol
    ensures RootedTo(vol, q, n + 1)
    ensures n == |q| ==> Rooted(vol, q)
  {
  }

  lemma {:induction false} RootedStays(order: seq<Path>, n: nat, before: Entries, vol: Entries)
    requires n < |order| && Grown(before, vol, order[n]) && Rooted(vol, order[n])
    requires RootedUpTo(order, n, before)
    ensures RootedUpTo(order, n + 1, vol)
  {
  }

  ghost predicate RootedUpTo(order: seq<Path>, n: nat, vol: Entries) {
    n <= |order| && forall t :: 0 <= t < n ==> Rooted(vol, order[t])
  }

  lemma {:induction false} AllRooted(order: seq<Path>, vol: Entries, inv: map<Path, Bytes>)
    requires Publishable(inv) && RootedUpTo(order, |order|, vol) && (forall q :: q in order <==> q in inv)
    requires Subtree(vol, Tree(inv)) && [] in vol && MARK in vol
    ensures vol == Tree(inv)
  {
    forall p | p in Tree(inv)
      ensures p in vol
    {
      if p != [] && p != MARK {
        var q, k :| q in inv && 0 < k <= |q| && p == q[..k];
        assert q in order;
        assert Rooted(vol, q);
      }
    }
  }

  lemma {:induction false} SyncKeepsFence(d: Disk, dir: Path, tree: Entries)
    requires Fenced(d, tree)
    ensures Fenced(SyncDir(d, dir), tree)
    ensures forall p :: p in d.dur ==> p in SyncDir(d, dir).dur
    ensures forall p :: p in d.vol && p != [] && Parent(p) == dir ==> p in SyncDir(d, dir).dur
  {
  }

  /** Removing the marker durably, when everything else already is. */
  lemma {:induction false} SyncRemoval(vol: Entries)
    requires MARK in vol
    ensures SyncDir(Disk(vol - {MARK}, vol), []).dur == vol - {MARK}
  {
  }

  /** Every state in the history survives a crash acceptably. */
  ghost predicate AllSafe(history: seq<Disk>, inv: map<Path, Bytes>) {
    history == [] || (AllSafe(history[..|history| - 1], inv) && CrashSafe(history[|history| - 1], inv))
  }

  lemma {:induction false} SafeExtends(history: seq<Disk>, d: Disk, inv: map<Path, Bytes>)
    requires AllSafe(history, inv) && CrashSafe(d, inv)
    ensures AllSafe(history + [d], inv)
  {
  }

  lemma {:induction false} SafeAt(history: seq<Disk>, inv: map<Path, Bytes>, i: nat)
    requires AllSafe(history, inv) && i < |history|
    ensures CrashSafe(history[i], inv)
    decreases |history|
  {
    if i < |history| - 1 { SafeAt(history[..|history| - 1], inv, i); }
  }

  lemma {:induction false} SyncMarker(vol: Entries)
    requires vol == map[[] := Dir, MARK := File([])]
    ensures SyncDir(Disk(vol, map[]), []).dur == map[MARK := File([])]
  {
  }
}
