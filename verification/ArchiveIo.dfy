/** The loops of `archive.py` that read, hash, copy and extract, proved against the
    predicates of `Archive`. A hash object is the bytes fed to it so far. */
module ArchiveIo {
  import opened Octets
  import opened Records
  import opened Archive
  import Names
  import Texts
  import TarSize
  import Publish

  const CHUNK := 1024 * 1024
  const COPY_BUFFER := 16 * 1024

  function Min(a: nat, b: nat): nat {
    if a <= b then a else b
  }

  // ---------- Reading ----------

  datatype Summary = Summary(sha256: Digest, count: nat)

  /** `digest_stream`: the digest and length of the whole stream, or a refusal exactly when
      there is more than `maximum` of it. */
  method DigestStream(c: Codec, content: Bytes, maximum: int) returns (r: Option<Summary>)
    ensures r.Some? <==> content == [] || |content| <= maximum
    ensures r.Some? ==> r.value == Summary(c.hash(content), |content|)
  {
    var fed: Bytes, count := [], 0;
    while count < |content|
      invariant count <= |content| && fed == content[..count]
      invariant count == 0 || count <= maximum
    {
      var chunk := content[count..Min(count + CHUNK, |content|)];
      count := count + |chunk|;
      if count > maximum { return None; }
      fed := fed + chunk;
    }
    assert content[..count] == content;
    return Some(Summary(c.hash(fed), count));
  }

  /** `VerifiedReader`: hashes and counts exactly the bytes its caller was given. */
  class VerifiedReader {
    const content: Bytes
    var position: nat
    var fed: Bytes
    var count: nat

    ghost predicate Valid()
      reads this
    {
      position <= |content| && fed == content[..position] && count == |fed|
    }

    constructor (content: Bytes)
      ensures Valid() && this.content == content && position == 0
    {
      this.content := content;
      position, fed, count := 0, [], 0;
    }

    /** A negative `size` reads to the end. */
    method Read(size: int) returns (chunk: Bytes)
      requires Valid()
      modifies this
      ensures Valid()
      ensures old(position) <= position && chunk == content[old(position)..position]
      ensures position == if size < 0 then |content| else Min(old(position) + size, |content|)
    {
      var end := if size < 0 then |content| else Min(position + size, |content|);
      chunk := content[position..end];
      position := end;
      fed := fed + chunk;
      count := count + |chunk|;
    }
  }

  /** `TarFile.addfile`: copies `size` bytes in buffers, refusing a short read. */
  method AddFile(reader: VerifiedReader, size: nat) returns (r: Option<Bytes>)
    requires reader.Valid() && reader.position == 0
    modifies reader
    ensures reader.Valid()
    ensures r.Some? <==> size <= |reader.content|
    ensures r.Some? ==> r.value == reader.content[..size] == reader.fed
  {
    var written: Bytes := [];
    while |written| < size
      invariant reader.Valid() && reader.position == |written| <= size
      invariant written == reader.content[..reader.position]
    {
      var wanted := Min(COPY_BUFFER, size - |written|);
      var buffer := reader.Read(wanted);
      if |buffer| < wanted { return None; }
      written := written + buffer;
    }
    return Some(written);
  }

  // ---------- encrypt_archive ----------

  datatype Receipt = Receipt(sha256: Digest, bytes: nat, files: nat)

  /** A native age recipient: `age1` and 58 lower-case letters or digits. */
  predicate IsRecipient(s: string) {
    && |s| == 62 && s[..4] == "age1"
    && forall i :: 4 <= i < 62 ==> 'a' <= s[i] <= 'z' || '0' <= s[i] <= '9'
  }

  lemma {:induction false} TotalGrows(items: seq<Item>, k: nat, n: nat)
    requires k <= n <= |items|
    ensures TotalTo(items, k) <= TotalTo(items, n)
  {
    if k < n { TotalGrows(items, k, n - 1); }
  }

  /** What the first pass does with one file. */
  method InspectOne(c: Codec, item: Item, left: nat) returns (r: Option<Declaration>)
    ensures r.Some? <==> Inspected(item) && FirstLen(item) <= left
    ensures r.Some? ==> r.value == Declare(c, item)
  {
    if !Names.Accepts(item.name) || "offline" in item.path || item.first.Refused? { return None; }
    var summary := DigestStream(c, item.first.content, left);
    if summary.None? || summary.value.count != item.first.statSize { return None; }
    return Some(Declaration(item.name, summary.value.sha256, summary.value.count));
  }

  /** What the second pass does with one file. */
  method CopyOne(c: Codec, item: Item, entry: Declaration) returns (r: Option<Member>)
    requires item.first.Opened? && entry == Declare(c, item)
    ensures r.Some? <==> Unchanged(c, item)
    ensures r.Some? ==> r.value == CopiedMember(item)
  {
    if item.second.Refused? || item.second.statSize != entry.size { return None; }
    var reader := new VerifiedReader(item.second.content);
    var copied := AddFile(reader, item.second.statSize);
    if copied.None? || reader.count != item.second.statSize || c.hash(reader.fed) != entry.sha256 { return None; }
    return Some(Member(item.name, true, copied.value));
  }

  /** The first pass goes through for the first `k` files. */
  ghost predicate FirstPass(items: seq<Item>, k: nat, maximum: nat)
    requires k <= |items|
  {
    && (forall i {:trigger Inspected(items[i])} :: 0 <= i < k ==> Inspected(items[i]))
    && TotalTo(items, k) <= maximum
  }

  lemma {:induction false} FirstPassShrinks(items: seq<Item>, k: nat, maximum: nat)
    requires k <= |items|
    ensures FirstPass(items, |items|, maximum) ==> FirstPass(items, k, maximum)
  {
    TotalGrows(items, k, |items|);
  }

  /** One step of the first pass. */
  method InspectAt(c: Codec, items: seq<Item>, k: nat, total: nat, maximum: nat) returns (r: Option<Declaration>)
    requires k < |items| && FirstPass(items, k, maximum) && total == TotalTo(items, k)
    ensures r.Some? <==> FirstPass(items, k + 1, maximum)
    ensures r.Some? ==> r.value == Declare(c, items[k]) && total + r.value.size == TotalTo(items, k + 1)
  {
    r := InspectOne(c, items[k], maximum - total);
  }

  /** First pass: inventory and total, refused exactly when some file is not inspectable or
      the total is over the limit. */
  method Inspect(c: Codec, items: seq<Item>, maximum: nat) returns (r: Option<seq<Declaration>>)
    ensures r.Some? <==> FirstPass(items, |items|, maximum)
    ensures r.Some? ==> r.value == Declared(c, items)
  {
    var inventory: seq<Declaration>, total := [], 0;
    for k := 0 to |items|
      invariant FirstPass(items, k, maximum) && total == TotalTo(items, k)
      invariant |inventory| == k && forall i :: 0 <= i < k ==> inventory[i] == Declare(c, items[i])
    {
      var entry := InspectAt(c, items, k, total, maximum);
      if entry.None? {
        FirstPassShrinks(items, k + 1, maximum);
        return None;
      }
      inventory := inventory + [entry.value];
      total := total + entry.value.size;
    }
    assert inventory == Declared(c, items);
    return Some(inventory);
  }

  /** Second pass: the tar members, refused exactly when some file no longer has the size
      and the digest the first pass recorded. */
  method CopyAll(c: Codec, items: seq<Item>, inventory: seq<Declaration>) returns (r: Option<seq<Member>>)
    requires inventory == Declared(c, items)
    requires forall i :: 0 <= i < |items| ==> items[i].first.Opened?
    ensures r.Some? <==> forall i :: 0 <= i < |items| ==> Unchanged(c, items[i])
    ensures r.Some? ==> r.value == CopiedMembers(items)
  {
    var members: seq<Member> := [];
    for k := 0 to |items|
      invariant |members| == k && forall i :: 0 <= i < k ==> members[i] == CopiedMember(items[i])
      invariant forall i :: 0 <= i < k ==> Unchanged(c, items[i])
    {
      var copied := CopyOne(c, items[k], inventory[k]);
      if copied.None? { return None; }
      members := members + [copied.value];
    }
    assert members == CopiedMembers(items);
    return Some(members);
  }

  /** `encrypt_archive` with what it meets on the way: both passes over the inputs, whether
      the destination can be linked, whether age exits cleanly, and whether the directory
      can be synced after the link. It publishes exactly when the request is archivable and
      the steps up to the link succeed, and then publishes the sealed payload; it returns a
      receipt with the digest exactly when the last step succeeds too. */
  method EncryptArchive(c: Codec, items: seq<Item>, metadata: Bytes, recipients: seq<string>, maximum: nat,
                        destinationFree: bool, ageSucceeds: bool, syncSucceeds: bool)
    returns (receipt: Option<Receipt>, artifact: Option<Bytes>)
    requires Sorted(items)
    ensures artifact.Some? <==>
              && 1 <= |recipients| <= 10 && (forall i :: 0 <= i < |recipients| ==> IsRecipient(recipients[i]))
              && destinationFree && ageSucceeds
              && Archivable(c, items, metadata, maximum)
              && |c.seal(PayloadOf(c, items, metadata))| <= CiphertextLimit(maximum)
    ensures artifact.Some? ==> artifact.value == c.seal(PayloadOf(c, items, metadata))
    ensures receipt.Some? <==> artifact.Some? && syncSucceeds
    ensures receipt.Some? ==> receipt.value == Receipt(c.hash(artifact.value), |artifact.value|, |items|)
  {
    if !(1 <= |items| <= TarSize.MAX_FILES) || !(1 <= |recipients| <= 10) { return None, None; }
    if exists i :: 0 <= i < |recipients| && !IsRecipient(recipients[i]) { return None, None; }
    if !destinationFree { return None, None; }
    var inspected := Inspect(c, items, maximum);
    if inspected.None? { return None, None; }
    var inventory := inspected.value;
    DeclaredHasNoRepeats(c, items);
    var manifest := c.render(Manifest(metadata, inventory));
    if |manifest| > TarSize.MAX_MANIFEST { return None, None; }
    assert forall i :: 0 <= i < |items| ==> Inspected(items[i]);
    var copied := CopyAll(c, items, inventory);
    if copied.None? { return None, None; }
    if !ageSucceeds { return None, None; }
    var payload := Payload(TarSize.PayloadLen(|manifest|, MemberSizes(inventory)),
                           [Member("manifest.json", true, manifest)] + copied.value);
    var ciphertext := c.seal(payload);
    var summary := DigestStream(c, ciphertext, CiphertextLimit(maximum));
    if summary.None? { return None, None; }
    if !syncSucceeds { return None, Some(ciphertext); }
    return Some(Receipt(summary.value.sha256, summary.value.count, |inventory|)), Some(ciphertext);
  }

  // ---------- decrypt_archive ----------

  /** Whether `target` can be created in the staged tree: no file where it needs a directory
      and no directory or file in its own place. */
  predicate Free(tree: map<Path, Bytes>, target: Path) {
    && target !in tree
    && forall p :: p in tree ==> !Publish.Proper(p, target) && !Publish.Proper(target, p)
  }

  lemma {:induction false} FreeOfEarlier(ms: seq<Member>, m: Member, i: nat)
    requires Free(Extracted(ms), Names.Parts(m.name)) && i < |ms|
    ensures Compatible(ms[i], m)
  {
    ExtractedPointwise(ms, Names.Parts(ms[i].name));
  }

  lemma {:induction false} EarlierIsOutOfTheWay(m: Member, n: Member)
    requires Names.Accepts(m.name) && Names.Accepts(n.name) && Compatible(m, n)
    ensures Names.Parts(m.name) != Names.Parts(n.name)
  {
  }

  /** A name that clashes with no earlier member has a free path. */
  lemma {:induction false} CompatibleIsFree(c: Codec, files: Inventory, ms: seq<Member>, k: nat)
    requires k < |ms| && Names.Accepts(ms[k].name)
    requires forall i :: 0 <= i < k ==> Matches(c, files, ms[i]) && Compatible(ms[i], ms[k])
    ensures Free(Extracted(ms[..k]), Names.Parts(ms[k].name))
  {
    var front := ms[..k];
    forall p | p in Extracted(front)
      ensures p != Names.Parts(ms[k].name)
      ensures !Publish.Proper(p, Names.Parts(ms[k].name)) && !Publish.Proper(Names.Parts(ms[k].name), p)
    {
      ExtractedPointwise(front, p);
      var i :| 0 <= i < |front| && Names.Parts(front[i].name) == p;
      assert front[i] == ms[i];
      EarlierIsOutOfTheWay(ms[i], ms[k]);
    }
  }

  /** The copy of one member to its file, hashing as it goes. */
  method ExtractFile(c: Codec, data: Bytes) returns (written: Bytes, sha256: Digest)
    ensures written == data && sha256 == c.hash(data)
  {
    written := [];
    while |written| < |data|
      invariant |written| <= |data| && written == data[..|written|]
    {
      written := written + data[|written|..Min(|written| + CHUNK, |data|)];
    }
    sha256 := c.hash(written);
  }

  ghost predicate WellDeclaredTo(files: seq<Declaration>, k: nat)
    requires k <= |files|
  {
    forall i {:trigger WellDeclared(files[i])} :: 0 <= i < k ==> WellDeclared(files[i])
  }

  method CheckDeclaration(files: seq<Declaration>, k: nat) returns (ok: bool)
    requires k < |files| && WellDeclaredTo(files, k)
    ensures ok <==> WellDeclaredTo(files, k + 1)
  {
    ok := WellDeclared(files[k]);
  }

  lemma {:induction false} WellDeclaredShrinks(m: Manifest, k: nat, maximum: nat)
    requires k <= |m.files|
    ensures Acceptable(m, maximum) ==> WellDeclaredTo(m.files, k)
  {
  }

  /** The declarations, one by one, and their sum. */
  method CheckManifest(m: Manifest, maximum: nat) returns (ok: bool)
    ensures ok <==> Acceptable(m, maximum)
  {
    if !(1 <= |m.files| <= TarSize.MAX_FILES) { return false; }
    var sum := 0;
    for k := 0 to |m.files|
      invariant WellDeclaredTo(m.files, k)
      invariant sum == SumTo(m.files, k)
    {
      var good := CheckDeclaration(m.files, k);
      if !good {
        WellDeclaredShrinks(m, k + 1, maximum);
        return false;
      }
      sum := sum + m.files[k].size;
    }
    return sum <= maximum;
  }

  /** The first `k` members clash nowhere. */
  ghost predicate ApartUpTo(ms: seq<Member>, k: nat)
    requires k <= |ms|
  {
    forall i, j :: 0 <= i < j < k ==> Compatible(ms[i], ms[j])
  }

  lemma {:induction false} ApartNext(ms: seq<Member>, k: nat)
    requires k < |ms| && ApartUpTo(ms, k)
    requires Free(Extracted(ms[..k]), Names.Parts(ms[k].name))
    ensures ApartUpTo(ms, k + 1)
  {
    forall i, j | 0 <= i < j < k + 1
      ensures Compatible(ms[i], ms[j])
    {
      if j == k { FreeOfEarlier(ms[..k], ms[k], i); }
    }
  }

  lemma {:induction false} BlockedIsNotExact(c: Codec, files: Inventory, ms: seq<Member>, k: nat)
    requires k < |ms| && Names.Accepts(ms[k].name) && !Free(Extracted(ms[..k]), Names.Parts(ms[k].name))
    ensures !Exact(c, files, ms)
  {
    if Exact(c, files, ms) { CompatibleIsFree(c, files, ms, k); }
  }

  lemma {:induction false} SeenIsNotExact(c: Codec, files: Inventory, ms: seq<Member>, k: nat)
    requires k < |ms| && Holds(ms[..k], ms[k].name)
    ensures !Exact(c, files, ms)
  {
  }

  lemma {:induction false} SeenGrows(ms: seq<Member>, k: nat, seen: set<string>)
    requires k < |ms| && forall name :: name in seen <==> Holds(ms[..k], name)
    ensures forall name :: name in seen + {ms[k].name} <==> Holds(ms[..k + 1], name)
  {
  }

  /** What the loop does with one member. */
  method ExtractOne(c: Codec, files: Inventory, item: Member, seen: set<string>, tree: map<Path, Bytes>)
    returns (r: Option<map<Path, Bytes>>)
    ensures r.Some? <==> Matches(c, files, item) && item.name !in seen && Free(tree, Names.Parts(item.name))
    ensures r.Some? ==> r.value == tree[Names.Parts(item.name) := item.data]
  {
    if !Names.Accepts(item.name) || !item.regular || item.name in seen || !Declares(files, item.name) { return None; }
    var entry := Lookup(files, item.name);
    if |item.data| != entry.size { return None; }
    var target := Names.Parts(item.name);
    if !Free(tree, target) { return None; }
    var written, sha256 := ExtractFile(c, item.data);
    if sha256 != entry.sha256 { return None; }
    return Some(tree[target := written]);
  }

  /** A member the loop refuses spoils the payload. */
  lemma {:induction false} RefusedIsNotExact(c: Codec, files: Inventory, ms: seq<Member>, k: nat)
    requires k < |ms|
    requires !Matches(c, files, ms[k]) || Holds(ms[..k], ms[k].name)
             || !Free(Extracted(ms[..k]), Names.Parts(ms[k].name))
    ensures !Exact(c, files, ms)
  {
    if Matches(c, files, ms[k]) {
      if Holds(ms[..k], ms[k].name) { SeenIsNotExact(c, files, ms, k); } else { BlockedIsNotExact(c, files, ms, k); }
    }
  }

  ghost predicate MatchedUpTo(c: Codec, files: Inventory, ms: seq<Member>, k: nat)
    requires k <= |ms|
  {
    forall i :: 0 <= i < k ==> Matches(c, files, ms[i])
  }

  /** The extraction loop: stages every member or refuses. */
  method ExtractAll(c: Codec, files: Inventory, ms: seq<Member>) returns (r: Option<map<Path, Bytes>>)
    ensures r.Some? <==> Exact(c, files, ms)
    ensures r.Some? ==> r.value == Extracted(ms)
  {
    var seen: set<string>, tree: map<Path, Bytes> := {}, map[];
    for k := 0 to |ms|
      invariant MatchedUpTo(c, files, ms, k) && ApartUpTo(ms, k)
      invariant tree == Extracted(ms[..k])
      invariant forall name :: name in seen <==> Holds(ms[..k], name)
    {
      var step := ExtractOne(c, files, ms[k], seen, tree);
      if step.None? {
        RefusedIsNotExact(c, files, ms, k);
        return None;
      }
      ApartNext(ms, k);
      SeenGrows(ms, k, seen);
      ExtractedStep(ms, k);
      tree := step.value;
      seen := seen + {ms[k].name};
    }
    assert ms[..|ms|] == ms;
    if exists i :: 0 <= i < |files| && files[i].name !in seen { return None; }
    return Some(tree);
  }

  lemma {:induction false} ExtractedStep(ms: seq<Member>, k: nat)
    requires k < |ms|
    ensures Extracted(ms[..k + 1]) == Extracted(ms[..k])[Names.Parts(ms[k].name) := ms[k].data]
  {
    assert ms[..k + 1][..k] == ms[..k];
  }

  /** `decrypt_archive` up to publication: accepts exactly the ciphertexts that carry the
      pinned digest, authenticate and open to a valid payload, and stages exactly its tree,
      which is fit to publish. */
  method DecryptArchive(c: Codec, ciphertext: Bytes, expected: Digest, maximum: nat)
    returns (manifest: Option<Manifest>, tree: map<Path, Bytes>)
    ensures manifest.Some? <==>
              && Texts.IsDigest(expected) && |ciphertext| <= CiphertextLimit(maximum) && c.hash(ciphertext) == expected
              && c.open(ciphertext).Some? && Valid(c, c.open(ciphertext).value, maximum)
    ensures manifest.Some? ==>
              && manifest.value == ManifestIn(c, c.open(ciphertext).value)
              && tree == Extracted(c.open(ciphertext).value.members[1..])
              && Publish.Publishable(tree)
  {
    tree := map[];
    if !Texts.IsDigest(expected) { return None, tree; }
    var summary := DigestStream(c, ciphertext, CiphertextLimit(maximum));
    if summary.None? || summary.value.sha256 != expected { return None, tree; }
    var plain := c.open(ciphertext);
    if plain.None? { return None, tree; }
    var p := plain.value;
    if p.length > PayloadLimit(maximum) { return None, tree; }
    if !HasManifest(c, p) { return None, tree; }
    var m := ManifestIn(c, p);
    var ok := CheckManifest(m, maximum);
    if !ok { return None, tree; }
    var extracted := ExtractAll(c, m.files, p.members[1..]);
    if extracted.None? { return None, tree; }
    VerifiedIsPublishable(c, m.files, p.members[1..]);
    return Some(m), extracted.value;
  }

  /** The declared names in manifest order, as paths. */
  function PathsOf(files: seq<Declaration>): (paths: seq<Path>)
    ensures |paths| == |files| && forall i :: 0 <= i < |files| ==> paths[i] == Names.Parts(files[i].name)
  {
    seq(|files|, i requires 0 <= i < |files| => Names.Parts(files[i].name))
  }

  lemma {:induction false} DeclaredIsExtracted(c: Codec, files: Inventory, ms: seq<Member>, q: Path)
    requires Exact(c, files, ms)
    ensures q in PathsOf(files) <==> q in Extracted(ms)
  {
    ExtractedPointwise(ms, q);
    if q in PathsOf(files) {
      var i :| 0 <= i < |files| && PathsOf(files)[i] == q;
      assert Holds(ms, files[i].name);
      var k :| 0 <= k < |ms| && ms[k].name == files[i].name;
      assert Names.Parts(ms[k].name) == q;
    }
    if q in Extracted(ms) {
      var k :| 0 <= k < |ms| && Names.Parts(ms[k].name) == q;
      assert Matches(c, files, ms[k]);
      var i :| 0 <= i < |files| && files[i].name == ms[k].name;
      assert PathsOf(files)[i] == q;
    }
  }

  /** `decrypt_archive` as a whole: at every moment a crash leaves the destination absent,
      marked incomplete, empty or complete; on success it holds exactly the verified tree,
      durably and without the marker, and on refusal it was never created. */
  method DecryptAndPublish(c: Codec, ciphertext: Bytes, expected: Digest, maximum: nat)
    returns (manifest: Option<Manifest>, fs: Publish.FileSystem)
    ensures fresh(fs)
    ensures manifest.Some? <==>
              && Texts.IsDigest(expected) && |ciphertext| <= CiphertextLimit(maximum) && c.hash(ciphertext) == expected
              && c.open(ciphertext).Some? && Valid(c, c.open(ciphertext).value, maximum)
    ensures Publish.AllSafe(fs.history, fs.inv)
    ensures manifest.None? ==> fs.disk == Publish.Disk(map[], map[])
    ensures manifest.Some? ==>
              && fs.inv == Extracted(c.open(ciphertext).value.members[1..])
              && Publish.Complete(fs.disk.vol, fs.inv) && fs.disk.dur == fs.disk.vol && Publish.MARK !in fs.disk.vol
  {
    var tree;
    manifest, tree := DecryptArchive(c, ciphertext, expected, maximum);
    fs := new Publish.FileSystem(tree);
    if manifest.Some? {
      ghost var ms := c.open(ciphertext).value.members[1..];
      forall q
        ensures q in PathsOf(manifest.value.files) <==> q in tree
      {
        DeclaredIsExtracted(c, manifest.value.files, ms, q);
      }
      fs.PublishTree(PathsOf(manifest.value.files));
    }
  }
}
