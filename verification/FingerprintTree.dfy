/** `fingerprint`, `hash_path` and `hash_bytes` on directory trees. A directory is a map, so
    it has no order of its own; what `read_dir` lists may come in any order, and the methods
    below are proved to compute one function of the tree. */
module FingerprintTree {
  import opened Octets
  import opened Records
  import Texts
  import opened Fingerprint

  datatype Node = File(content: Bytes) | Dir(entries: map<Bytes, Node>)

  // ---------- Sorted names ----------

  predicate Less(a: Bytes, b: Bytes) {
    if b == [] then false
    else if a == [] then true
    else a[0] < b[0] || (a[0] == b[0] && Less(a[1..], b[1..]))
  }

  lemma {:induction false} LessIsTotal(a: Bytes, b: Bytes)
    ensures !(Less(a, b) && Less(b, a))
    ensures a == b <==> !Less(a, b) && !Less(b, a)
    decreases |a|
  {
    if a != [] && b != [] && a[0] == b[0] {
      LessIsTotal(a[1..], b[1..]);
      assert a == [a[0]] + a[1..] && b == [b[0]] + b[1..];
    }
  }

  lemma {:induction false} LessIsTransitive(a: Bytes, b: Bytes, c: Bytes)
    requires Less(a, b) && Less(b, c)
    ensures Less(a, c)
    decreases |a|
  {
    if a != [] && a[0] == b[0] == c[0] { LessIsTransitive(a[1..], b[1..], c[1..]); }
  }

  ghost predicate Sorted(s: seq<Bytes>) {
    forall i, j :: 0 <= i < j < |s| ==> Less(s[i], s[j])
  }

  function Elements(s: seq<Bytes>): set<Bytes> {
    set i | 0 <= i < |s| :: s[i]
  }

  lemma {:induction false} SortedTail(s: seq<Bytes>)
    requires s != [] && Sorted(s)
    ensures Sorted(s[1..]) && s[0] !in s[1..] && Elements(s[1..]) == Elements(s) - {s[0]}
  {
    LessIsTotal(s[0], s[0]);
    forall x | x in Elements(s) - {s[0]}
      ensures x in Elements(s[1..])
    {
      var i :| 0 <= i < |s| && s[i] == x;
      assert s[1..][i - 1] == x;
    }
    forall x | x in Elements(s[1..])
      ensures x in Elements(s) - {s[0]}
    {
      var i :| 0 <= i < |s| - 1 && s[1..][i] == x;
      assert s[i + 1] == x && Less(s[0], s[i + 1]);
    }
  }

  lemma {:induction false} NoElements(s: seq<Bytes>)
    ensures Elements(s) == {} ==> s == []
  {
    if s != [] { assert s[0] in Elements(s); }
  }

  /** A set of names has one sorted listing. */
  lemma {:induction false} SortedIsUnique(a: seq<Bytes>, b: seq<Bytes>)
    requires Sorted(a) && Sorted(b) && Elements(a) == Elements(b)
    ensures a == b
    decreases |a|
  {
    if a == [] {
      NoElements(b);
    } else {
      assert a[0] in Elements(b);
      var i :| 0 <= i < |b| && b[i] == a[0];
      assert b[0] in Elements(a);
      var j :| 0 <= j < |a| && a[j] == b[0];
      LessIsTotal(a[0], b[0]);
      SortedTail(a);
      SortedTail(b);
      SortedIsUnique(a[1..], b[1..]);
      assert a == [a[0]] + a[1..] && b == [b[0]] + b[1..];
    }
  }

  function Insert(x: Bytes, s: seq<Bytes>): seq<Bytes> {
    if s == [] || Less(x, s[0]) then [x] + s else [s[0]] + Insert(x, s[1..])
  }

  lemma {:induction false} InsertElements(x: Bytes, s: seq<Bytes>)
    ensures forall y :: y in Insert(x, s) <==> y == x || y in s
    decreases |s|
  {
    if s != [] && !Less(x, s[0]) {
      InsertElements(x, s[1..]);
      assert s == [s[0]] + s[1..];
    }
  }

  lemma {:induction false} InsertSorts(x: Bytes, s: seq<Bytes>)
    requires Sorted(s) && x !in s
    ensures Sorted(Insert(x, s))
    decreases |s|
  {
    if s != [] {
      if Less(x, s[0]) {
        forall j | 0 <= j < |s|
          ensures Less(x, s[j])
        {
          if j > 0 { LessIsTransitive(x, s[0], s[j]); }
        }
      } else {
        LessIsTotal(x, s[0]);
        SortedTail(s);
        InsertSorts(x, s[1..]);
        InsertElements(x, s[1..]);
        var rest := Insert(x, s[1..]);
        forall j | 0 <= j < |rest|
          ensures Less(s[0], rest[j])
        {
          assert rest[j] in rest;
          if rest[j] != x {
            var i :| 0 <= i < |s[1..]| && s[1..][i] == rest[j];
            assert s[i + 1] == rest[j];
          }
        }
      }
    }
  }

  ghost predicate Distinct(s: seq<Bytes>) {
    forall i, j :: 0 <= i < j < |s| ==> s[i] != s[j]
  }

  /** `read_dir`: every name once, in whatever order. */
  method ReadDir(names: set<Bytes>) returns (listing: seq<Bytes>)
    ensures Distinct(listing) && Elements(listing) == names
  {
    listing := [];
    var left := names;
    while left != {}
      invariant left <= names && Distinct(listing) && Elements(listing) == names - left
    {
      var x :| x in left;
      listing := Append(listing, x);
      left := left - {x};
    }
  }

  function Append(s: seq<Bytes>, x: Bytes): (r: seq<Bytes>)
    ensures Elements(r) == Elements(s) + {x}
    ensures Distinct(s) && x !in Elements(s) ==> Distinct(r)
  {
    var r := s + [x];
    assert forall y :: y in Elements(s) ==> y in Elements(r) by {
      forall y | y in Elements(s)
        ensures y in Elements(r)
      {
        var i :| 0 <= i < |s| && s[i] == y;
        assert r[i] == y;
      }
    }
    assert r[|s|] == x;
    r
  }

  /** `entries.sort()`. */
  method Sort(listing: seq<Bytes>) returns (r: seq<Bytes>)
    requires Distinct(listing)
    ensures Sorted(r) && Elements(r) == Elements(listing)
  {
    r := [];
    for k := 0 to |listing|
      invariant Sorted(r) && forall y :: y in r <==> y in listing[..k]
    {
      InsertSorts(listing[k], r);
      InsertElements(listing[k], r);
      r := Insert(listing[k], r);
      assert listing[..k + 1] == listing[..k] + [listing[k]];
    }
    assert listing[..|listing|] == listing;
    assert forall y :: y in Elements(r) <==> y in r;
    assert forall y :: y in Elements(listing) <==> y in listing;
  }

  // ---------- What a tree contributes ----------

  /** `replace('\\\\', "/")`. */
  function Normal(path: Bytes): Bytes {
    seq(|path|, i requires 0 <= i < |path| => if path[i] == 92 then 47 else path[i])
  }

  lemma {:induction false} SortedExists(names: set<Bytes>) returns (s: seq<Bytes>)
    ensures Sorted(s) && Elements(s) == names
    decreases |names|
  {
    if names == {} {
      s := [];
    } else {
      var x :| x in names;
      var rest := SortedExists(names - {x});
      assert x in rest ==> x in Elements(rest);
      InsertSorts(x, rest);
      InsertElements(x, rest);
      s := Insert(x, rest);
      assert forall y :: y in Elements(s) <==> y in s;
      assert forall y :: y in Elements(rest) <==> y in rest;
    }
  }

  /** The names of a directory in order. */
  ghost function InOrder(names: set<Bytes>): (s: seq<Bytes>)
    ensures Sorted(s) && Elements(s) == names
  {
    assert exists s :: Sorted(s) && Elements(s) == names by {
      var s := SortedExists(names);
    }
    var s :| Sorted(s) && Elements(s) == names;
    s
  }

  /** Every file below a path, depth first in the order of names. */
  ghost function Sources(path: Bytes, node: Node): seq<Source>
    decreases node, 1, 0
  {
    match node
    case File(content) => [Source(Normal(path), content)]
    case Dir(entries) => SourcesIn(path, node, InOrder(entries.Keys))
  }

  ghost function SourcesIn(path: Bytes, node: Node, names: seq<Bytes>): seq<Source>
    requires node.Dir? && Elements(names) <= node.entries.Keys
    decreases node, 0, |names|
  {
    if names == [] then []
    else
      var last := names[|names| - 1];
      assert last in Elements(names);
      assert Elements(names[..|names| - 1]) <= Elements(names);
      SourcesIn(path, node, names[..|names| - 1]) + Sources(path + [47] + last, node.entries[last])
  }

  // ---------- The program ----------

  /** `hash_bytes`. */
  method HashBytes(hash: nat, bytes: Bytes) returns (h: nat)
    ensures h == Fold(hash, Frame(bytes))
  {
    var fed := Length(|bytes|) + bytes;
    h := hash;
    for i := 0 to |fed|
      invariant h == Fold(hash, fed[..i])
    {
      assert fed[..i + 1][..i] == fed[..i];
      h := Xor(h, fed[i] as nat, BITS);
      h := h * PRIME % M;
    }
    assert fed[..|fed|] == fed;
  }

  /** `hash_path` computes one function of the tree, whatever order `read_dir` chose. */
  method HashPath(path: Bytes, node: Node, hash: nat) returns (h: nat)
    ensures h == Fold(hash, Stream(Sources(path, node)))
    decreases node
  {
    match node {
      case File(content) =>
        h := HashBytes(hash, Normal(path));
        h := HashBytes(h, content);
        FoldAppend(hash, Frame(Normal(path)), Frame(content));
        StreamOfOne(Source(Normal(path), content));
      case Dir(entries) =>
        var listing := ReadDir(entries.Keys);
        var names := Sort(listing);
        SortedIsUnique(names, InOrder(entries.Keys));
        h := hash;
        for i := 0 to |names|
          invariant Elements(names[..i]) <= entries.Keys
          invariant h == Fold(hash, Stream(SourcesIn(path, node, names[..i])))
        {
          assert names[i] in Elements(names);
          h := HashPath(path + [47] + names[i], entries[names[i]], h);
          NextSource(path, node, names, i);
          FoldAppend(hash, Stream(SourcesIn(path, node, names[..i])),
                     Stream(Sources(path + [47] + names[i], entries[names[i]])));
        }
        assert names[..|names|] == names;
    }
  }

  lemma {:induction false} NextSource(path: Bytes, node: Node, names: seq<Bytes>, i: nat)
    requires node.Dir? && i < |names| && Elements(names) <= node.entries.Keys
    ensures Elements(names[..i]) <= node.entries.Keys && Elements(names[..i + 1]) <= node.entries.Keys
            && names[i] in node.entries
    ensures Stream(SourcesIn(path, node, names[..i + 1]))
         == Stream(SourcesIn(path, node, names[..i])) + Stream(Sources(path + [47] + names[i], node.entries[names[i]]))
  {
    assert names[i] in Elements(names);
    assert forall k :: 0 <= k <= |names| ==> Elements(names[..k]) <= Elements(names);
    assert names[..i + 1][..i] == names[..i];
    StreamAppend(SourcesIn(path, node, names[..i]), Sources(path + [47] + names[i], node.entries[names[i]]));
  }

  /** One configured input, absent when it cannot be read. */
  datatype Input = Input(path: Bytes, node: Option<Node>)

  /** The sources of the first `k` inputs. */
  ghost function AllSources(inputs: seq<Input>, k: nat): seq<Source>
    requires k <= |inputs|
    decreases k
  {
    if k == 0 then []
    else
      var last := inputs[k - 1];
      AllSources(inputs, k - 1) + (if last.node.Some? then Sources(last.path, last.node.value) else [])
  }

  /** `{hash:016x}`. */
  function Text(h: nat): string {
    HexDigits(h, DIGITS)
  }

  const DIGITS: nat := 16

  function HexDigits(h: nat, n: nat): (s: string)
    ensures |s| == n
  {
    if n == 0 then "" else HexDigits(h / 16, n - 1) + [Texts.HexDigit(h % 16)]
  }

  function Pow16(n: nat): nat {
    if n == 0 then 1 else 16 * Pow16(n - 1)
  }

  lemma {:induction false} HexIsInjective(h: nat, k: nat, n: nat)
    requires h < Pow16(n) && k < Pow16(n) && HexDigits(h, n) == HexDigits(k, n)
    ensures h == k
  {
    if n > 0 {
      var a, b := HexDigits(h, n), HexDigits(k, n);
      assert a[n - 1] == Texts.HexDigit(h % 16) && b[n - 1] == Texts.HexDigit(k % 16);
      assert a[..n - 1] == HexDigits(h / 16, n - 1) && b[..n - 1] == HexDigits(k / 16, n - 1);
      HexIsInjective(h / 16, k / 16, n - 1);
    }
  }

  lemma {:induction false} Pow16Is()
    ensures Pow16(16) == M
  {
    assert Pow16(4) == 16 * (16 * Pow16(2));
    assert Pow16(8) == 16 * (16 * (16 * (16 * Pow16(4))));
    assert Pow16(12) == 16 * (16 * (16 * (16 * Pow16(8))));
    assert Pow16(16) == 16 * (16 * (16 * (16 * Pow16(12))));
  }

  /** The hash state after the first `k` inputs. */
  ghost function HashAfter(inputs: seq<Input>, k: nat): nat
    requires k <= |inputs| && forall i :: 0 <= i < k ==> inputs[i].node.Some?
    decreases k
  {
    if k == 0 then OFFSET
    else Fold(HashAfter(inputs, k - 1), Stream(Sources(inputs[k - 1].path, inputs[k - 1].node.value)))
  }

  lemma {:induction false} HashAfterIs(inputs: seq<Input>, k: nat)
    requires k <= |inputs| && forall i :: 0 <= i < k ==> inputs[i].node.Some?
    ensures HashAfter(inputs, k) == Fold(OFFSET, Stream(AllSources(inputs, k)))
  {
    if k > 0 {
      HashAfterIs(inputs, k - 1);
      var sources := Sources(inputs[k - 1].path, inputs[k - 1].node.value);
      StreamAppend(AllSources(inputs, k - 1), sources);
      FoldAppend(OFFSET, Stream(AllSources(inputs, k - 1)), Stream(sources));
    }
  }

  /** The loop over the inputs. */
  method HashInputs(inputs: array<Input>) returns (ok: bool, hash: nat)
    ensures ok <==> forall i :: 0 <= i < inputs.Length ==> inputs[i].node.Some?
    ensures ok ==> hash == HashAfter(inputs[..], inputs.Length)
  {
    hash := OFFSET;
    for i := 0 to inputs.Length
      invariant forall j :: 0 <= j < i ==> inputs[j].node.Some?
      invariant hash == HashAfter(inputs[..], i)
    {
      if inputs[i].node.None? { return false, hash; }
      hash := HashPath(inputs[i].path, inputs[i].node.value, hash);
    }
    return true, hash;
  }

  /** `fingerprint`: the text of one hash over all sources, or an error if an input is unreadable. */
  method ComputeFingerprint(inputs: array<Input>) returns (r: Option<string>)
    ensures r.Some? <==> forall i :: 0 <= i < inputs.Length ==> inputs[i].node.Some?
    ensures r.Some? ==> r.value == Text(Fold(OFFSET, Stream(AllSources(inputs[..], inputs.Length))))
  {
    var ok, hash := HashInputs(inputs);
    if !ok { return None; }
    HashAfterIs(inputs[..], inputs.Length);
    return Some(Text(hash));
  }

  // ---------- One byte of one file ----------

  /** `where` leads to a file with a byte at `at`. */
  ghost predicate Locates(node: Node, where: seq<Bytes>, at: nat)
    decreases |where|
  {
    if where == [] then node.File? && at < |node.content|
    else node.Dir? && where[0] in node.entries && Locates(node.entries[where[0]], where[1..], at)
  }

  ghost function ByteAt(node: Node, where: seq<Bytes>, at: nat): byte
    requires Locates(node, where, at)
    decreases |where|
  {
    if where == [] then node.content[at] else ByteAt(node.entries[where[0]], where[1..], at)
  }

  ghost function Edited(node: Node, where: seq<Bytes>, at: nat, b: byte): Node
    requires Locates(node, where, at)
    decreases |where|
  {
    if where == [] then File(node.content[at := b])
    else Dir(node.entries[where[0] := Edited(node.entries[where[0]], where[1..], at, b)])
  }

  /** One list of sources with one byte of one of them, and the list with that byte changed. */
  datatype Spot = Spot(pre: seq<Source>, file: Source, post: seq<Source>)

  ghost predicate Differ(s: Spot, at: nat, was: byte, b: byte, before: seq<Source>, after: seq<Source>) {
    && at < |s.file.content| && s.file.content[at] == was
    && before == s.pre + [s.file] + s.post
    && after == s.pre + [s.file.(content := s.file.content[at := b])] + s.post
  }

  lemma {:induction false} DifferInside(s: Spot, at: nat, was: byte, b: byte, before: seq<Source>, after: seq<Source>,
                                        left: seq<Source>, right: seq<Source>) returns (wide: Spot)
    requires Differ(s, at, was, b, before, after)
    ensures Differ(wide, at, was, b, left + before + right, left + after + right)
  {
    wide := Spot(left + s.pre, s.file, s.post + right);
    assert left + before + right == wide.pre + [s.file] + wide.post;
    var g := s.file.(content := s.file.content[at := b]);
    assert left + after + right == wide.pre + [g] + wide.post;
  }

  /** Directories that agree on some names contribute the same under them. */
  lemma {:induction false} SameSourcesIn(path: Bytes, node: Node, other: Node, names: seq<Bytes>)
    requires node.Dir? && other.Dir? && Elements(names) <= node.entries.Keys && Elements(names) <= other.entries.Keys
    requires forall x :: x in Elements(names) ==> node.entries[x] == other.entries[x]
    ensures SourcesIn(path, node, names) == SourcesIn(path, other, names)
    decreases |names|
  {
    if names != [] {
      assert names[|names| - 1] in Elements(names);
      assert Elements(names[..|names| - 1]) <= Elements(names);
      SameSourcesIn(path, node, other, names[..|names| - 1]);
    }
  }

  lemma {:induction false} EditedSources(path: Bytes, node: Node, where: seq<Bytes>, at: nat, b: byte) returns (s: Spot)
    requires Locates(node, where, at)
    ensures Differ(s, at, ByteAt(node, where, at), b, Sources(path, node), Sources(path, Edited(node, where, at, b)))
    decreases |where|, 1, 0
  {
    if where == [] {
      s := Spot([], Source(Normal(path), node.content), []);
    } else {
      var names := InOrder(node.entries.Keys);
      var edited := Edited(node, where, at, b);
      assert edited.entries.Keys == node.entries.Keys;
      assert where[0] in Elements(names);
      SortedIsDistinct(names);
      s := EditedSourcesIn(path, node, where, at, b, names);
    }
  }

  lemma {:induction false} SortedIsDistinct(names: seq<Bytes>)
    requires Sorted(names)
    ensures Distinct(names)
  {
    forall i, j | 0 <= i < j < |names|
      ensures names[i] != names[j]
    {
      LessIsTotal(names[i], names[j]);
    }
  }

  lemma {:induction false} EditedSourcesIn(path: Bytes, node: Node, where: seq<Bytes>, at: nat, b: byte,
                                           names: seq<Bytes>) returns (s: Spot)
    requires where != [] && Locates(node, where, at) && Distinct(names) && Elements(names) <= node.entries.Keys
    requires where[0] in Elements(names)
    ensures Elements(names) <= Edited(node, where, at, b).entries.Keys
    ensures Differ(s, at, ByteAt(node, where, at), b, SourcesIn(path, node, names),
                   SourcesIn(path, Edited(node, where, at, b), names))
    decreases |where|, 0, |names|
  {
    var edited := Edited(node, where, at, b);
    var was := ByteAt(node, where, at);
    assert edited.entries.Keys == node.entries.Keys;
    var n := |names| - 1;
    var front, last := names[..n], names[n];
    assert last in Elements(names) && Elements(front) <= Elements(names);
    assert names == Append(front, last);
    var head, head' := SourcesIn(path, node, front), SourcesIn(path, edited, front);
    var tail := Sources(path + [47] + last, node.entries[last]);
    var tail' := Sources(path + [47] + last, edited.entries[last]);
    if last == where[0] {
      assert where[0] !in Elements(front);
      SameSourcesIn(path, node, edited, front);
      s := EditedSources(path + [47] + last, node.entries[last], where[1..], at, b);
      s := DifferInside(s, at, was, b, tail, tail', head, []);
      assert head + tail + [] == head + tail && head + tail' + [] == head' + tail';
    } else {
      s := EditedSourcesIn(path, node, where, at, b, front);
      s := DifferInside(s, at, was, b, head, head', [], tail);
      assert [] + head + tail == head + tail && [] + head' + tail == head' + tail';
    }
  }

  /** One input of the list with one byte of one of its files changed. */
  ghost function EditedInputs(inputs: seq<Input>, k: nat, where: seq<Bytes>, at: nat, b: byte): seq<Input>
    requires k < |inputs| && inputs[k].node.Some? && Locates(inputs[k].node.value, where, at)
  {
    inputs[k := inputs[k].(node := Some(Edited(inputs[k].node.value, where, at, b)))]
  }

  lemma {:induction false} EditedAllSources(inputs: seq<Input>, k: nat, where: seq<Bytes>, at: nat, b: byte, n: nat)
    returns (s: Spot)
    requires k < n <= |inputs| && inputs[k].node.Some? && Locates(inputs[k].node.value, where, at)
    ensures Differ(s, at, ByteAt(inputs[k].node.value, where, at), b, AllSources(inputs, n),
                   AllSources(EditedInputs(inputs, k, where, at, b), n))
    decreases n
  {
    var inputs' := EditedInputs(inputs, k, where, at, b);
    var was := ByteAt(inputs[k].node.value, where, at);
    var head, head' := AllSources(inputs, n - 1), AllSources(inputs', n - 1);
    if n - 1 == k {
      SameAllSources(inputs, inputs', k);
      s := EditedSources(inputs[k].path, inputs[k].node.value, where, at, b);
      var tail, tail' := Sources(inputs[k].path, inputs[k].node.value), Sources(inputs[k].path, inputs'[k].node.value);
      s := DifferInside(s, at, was, b, tail, tail', head, []);
      assert head + tail + [] == head + tail && head + tail' + [] == head' + tail';
    } else {
      var last := inputs[n - 1];
      var tail := if last.node.Some? then Sources(last.path, last.node.value) else [];
      s := EditedAllSources(inputs, k, where, at, b, n - 1);
      s := DifferInside(s, at, was, b, head, head', [], tail);
      assert [] + head + tail == head + tail && [] + head' + tail == head' + tail;
    }
  }

  lemma {:induction false} SameAllSources(inputs: seq<Input>, inputs': seq<Input>, n: nat)
    requires n <= |inputs| && n <= |inputs'| && forall i :: 0 <= i < n ==> inputs[i] == inputs'[i]
    ensures AllSources(inputs, n) == AllSources(inputs', n)
    decreases n
  {
    if n > 0 { SameAllSources(inputs, inputs', n - 1); }
  }

  /** The printed fingerprint changes with any one byte of any one file of the inputs. */
  lemma {:induction false} EditChangesTheFingerprint(inputs: seq<Input>, k: nat, where: seq<Bytes>, at: nat, b: byte)
    requires k < |inputs| && inputs[k].node.Some? && Locates(inputs[k].node.value, where, at)
    requires ByteAt(inputs[k].node.value, where, at) != b
    ensures Text(Fold(OFFSET, Stream(AllSources(inputs, |inputs|))))
         != Text(Fold(OFFSET, Stream(AllSources(EditedInputs(inputs, k, where, at, b), |inputs|))))
  {
    var s := EditedAllSources(inputs, k, where, at, b, |inputs|);
    EditChangesTheText(s.pre, s.file, s.post, at, b);
  }

  lemma {:induction false} EditChangesTheText(pre: seq<Source>, f: Source, post: seq<Source>, at: nat, b: byte)
    requires at < |f.content| && f.content[at] != b
    ensures Text(Fold(OFFSET, Stream(pre + [f] + post)))
         != Text(Fold(OFFSET, Stream(pre + [f.(content := f.content[at := b])] + post)))
  {
    var x, y := Stream(pre + [f] + post), Stream(pre + [f.(content := f.content[at := b])] + post);
    EditChangesTheHash(pre, f, post, at, b);
    FoldFits(OFFSET, x);
    FoldFits(OFFSET, y);
    Pow16Is();
    if Text(Fold(OFFSET, x)) == Text(Fold(OFFSET, y)) {
      HexIsInjective(Fold(OFFSET, x), Fold(OFFSET, y), DIGITS);
    }
  }
}
