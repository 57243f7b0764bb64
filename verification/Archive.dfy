/** What an archive means: the tar payload `encrypt_archive` writes and the payloads
    `decrypt_archive` accepts, as predicates and functions on values. A payload is its
    length and its tar members; SHA-256, JSON, tar framing and age are one `Codec`. */
module Archive {
  import opened Octets
  import opened Records
  import Names
  import Texts
  import TarSize
  import Publish

  type Path = seq<string>

  /** One line of the manifest's `files` object. */
  datatype Declaration = Declaration(name: string, sha256: Digest, size: int)

  predicate NoRepeats(files: seq<Declaration>) {
    forall i, j :: 0 <= i < j < |files| ==> files[i].name != files[j].name
  }

  /** A JSON object read into a dictionary: keys in order, each once. */
  type Inventory = files: seq<Declaration> | NoRepeats(files) witness []

  datatype Manifest = Manifest(metadata: Bytes, files: Inventory)

  datatype Member = Member(name: string, regular: bool, data: Bytes)

  datatype Payload = Payload(length: nat, members: seq<Member>)

  /** `parse` also stands for the checks that the JSON has format 1, the three keys and
      one object with a digest and an integer size for each file. */
  datatype Codec = Codec(
    hash: Bytes -> Digest,
    render: Manifest -> Bytes,
    parse: Bytes -> Option<Manifest>,
    seal: Payload -> Bytes,
    open: Bytes -> Option<Payload>)

  /** Archives may be as large as this for a given limit on the files' total size. */
  function PayloadLimit(maximum: nat): nat {
    maximum + TarSize.MAX_MANIFEST + TarSize.MAX_FILES * 2048
  }

  function CiphertextLimit(maximum: nat): nat {
    PayloadLimit(maximum) + 1024 * 1024
  }

  // ---------- Order of names ----------

  /** `str` comparison by code points. */
  predicate Less(a: string, b: string) {
    if b == "" then false
    else if a == "" then true
    else a[0] < b[0] || (a[0] == b[0] && Less(a[1..], b[1..]))
  }

  lemma {:induction false} LessIsStrict(a: string)
    ensures !Less(a, a)
    decreases |a|
  {
    if a != "" { LessIsStrict(a[1..]); }
  }

  // ---------- What encrypt_archive sees ----------

  /** One opening of an input: refused, or its `st_size` and the bytes its reads return.
      Two openings of one path are unrelated, so any concurrent writer is allowed for. */
  datatype Opening = Refused | Opened(statSize: nat, content: Bytes)

  /** One file of the request with the local path's components and both openings. */
  datatype Item = Item(name: string, path: Path, first: Opening, second: Opening)

  /** `sorted(files.items())`. */
  predicate Sorted(items: seq<Item>) {
    forall i, j :: 0 <= i < j < |items| ==> Less(items[i].name, items[j].name)
  }

  /** What the first pass demands of one file. */
  predicate Inspected(item: Item) {
    && Names.Accepts(item.name)
    && "offline" !in item.path
    && item.first.Opened?
    && |item.first.content| == item.first.statSize
  }

  /** What the second pass demands of a file the first pass inspected. */
  predicate Unchanged(c: Codec, item: Item) {
    && item.first.Opened? && item.second.Opened?
    && item.second.statSize == |item.first.content| <= |item.second.content|
    && c.hash(item.second.content[..item.second.statSize]) == c.hash(item.first.content)
  }

  function FirstLen(item: Item): nat {
    if item.first.Opened? then |item.first.content| else 0
  }

  /** The sizes of the first `k` files. */
  function TotalTo(items: seq<Item>, k: nat): nat
    requires k <= |items|
  {
    if k == 0 then 0 else TotalTo(items, k - 1) + FirstLen(items[k - 1])
  }

  function Total(items: seq<Item>): nat {
    TotalTo(items, |items|)
  }

  function Declare(c: Codec, item: Item): Declaration {
    if item.first.Opened? then Declaration(item.name, c.hash(item.first.content), |item.first.content|)
    else Declaration(item.name, "", 0)
  }

  function Declared(c: Codec, items: seq<Item>): (files: seq<Declaration>)
    ensures |files| == |items|
    ensures forall i :: 0 <= i < |items| ==> files[i] == Declare(c, items[i])
  {
    seq(|items|, i requires 0 <= i < |items| => Declare(c, items[i]))
  }

  lemma {:induction false} DeclaredHasNoRepeats(c: Codec, items: seq<Item>)
    requires Sorted(items)
    ensures NoRepeats(Declared(c, items))
  {
    forall i, j | 0 <= i < j < |items|
      ensures items[i].name != items[j].name
    {
      LessIsStrict(items[i].name);
    }
  }

  function ManifestOf(c: Codec, items: seq<Item>, metadata: Bytes): Manifest
    requires Sorted(items)
  {
    DeclaredHasNoRepeats(c, items);
    Manifest(metadata, Declared(c, items))
  }

  /** The bytes the second pass copies for one file. */
  function Copied(item: Item): Bytes {
    if item.second.Opened? && item.second.statSize <= |item.second.content|
    then item.second.content[..item.second.statSize] else []
  }

  function CopiedMember(item: Item): Member {
    Member(item.name, true, Copied(item))
  }

  function CopiedMembers(items: seq<Item>): (ms: seq<Member>)
    ensures |ms| == |items|
    ensures forall i :: 0 <= i < |items| ==> ms[i] == CopiedMember(items[i])
  {
    seq(|items|, i requires 0 <= i < |items| => CopiedMember(items[i]))
  }

  function MemberSizes(files: seq<Declaration>): (ms: seq<TarSize.Member>)
    ensures |ms| == |files|
  {
    seq(|files|, i requires 0 <= i < |files| =>
      TarSize.Member(files[i].name, if files[i].size >= 0 then files[i].size else 0))
  }

  /** The payload of a completed run: the manifest of the first pass, the bytes of the second. */
  function PayloadOf(c: Codec, items: seq<Item>, metadata: Bytes): Payload
    requires Sorted(items)
  {
    var manifest := c.render(ManifestOf(c, items, metadata));
    Payload(TarSize.PayloadLen(|manifest|, MemberSizes(Declared(c, items))),
            [Member("manifest.json", true, manifest)] + CopiedMembers(items))
  }

  /** Every condition `encrypt_archive` puts on its inputs and on what it reads. */
  predicate Archivable(c: Codec, items: seq<Item>, metadata: Bytes, maximum: nat)
    requires Sorted(items)
  {
    && 1 <= |items| <= TarSize.MAX_FILES
    && (forall i :: 0 <= i < |items| ==> Inspected(items[i]))
    && Total(items) <= maximum
    && |c.render(ManifestOf(c, items, metadata))| <= TarSize.MAX_MANIFEST
    && (forall i :: 0 <= i < |items| ==> Unchanged(c, items[i]))
  }

  // ---------- What decrypt_archive accepts ----------

  predicate WellDeclared(d: Declaration) {
    Names.Accepts(d.name) && d.size >= 0 && Texts.IsDigest(d.sha256)
  }

  function SumTo(files: seq<Declaration>, k: nat): int
    requires k <= |files|
  {
    if k == 0 then 0 else SumTo(files, k - 1) + files[k - 1].size
  }

  function SumSizes(files: seq<Declaration>): int {
    SumTo(files, |files|)
  }

  predicate Declares(files: seq<Declaration>, name: string) {
    exists i :: 0 <= i < |files| && files[i].name == name
  }

  /** `inventory[name]`. */
  function Lookup(files: Inventory, name: string): (d: Declaration)
    requires Declares(files, name)
    ensures d in files && d.name == name
  {
    var i :| 0 <= i < |files| && files[i].name == name;
    files[i]
  }

  lemma {:induction false} LookupIs(files: Inventory, i: nat)
    requires i < |files|
    ensures Declares(files, files[i].name) && Lookup(files, files[i].name) == files[i]
  {
  }

  /** One member agrees with the manifest. */
  predicate Matches(c: Codec, files: Inventory, m: Member) {
    && Names.Accepts(m.name) && m.regular && Declares(files, m.name)
    && |m.data| == Lookup(files, m.name).size
    && c.hash(m.data) == Lookup(files, m.name).sha256
  }

  /** Neither is a directory of the other. */
  predicate Apart(m: Member, n: Member) {
    && !Publish.Proper(Names.Parts(m.name), Names.Parts(n.name))
    && !Publish.Proper(Names.Parts(n.name), Names.Parts(m.name))
  }

  predicate Compatible(m: Member, n: Member) {
    m.name != n.name && Apart(m, n)
  }

  predicate HasManifest(c: Codec, p: Payload) {
    && p.members != []
    && p.members[0].name == "manifest.json" && p.members[0].regular
    && |p.members[0].data| <= TarSize.MAX_MANIFEST
    && c.parse(p.members[0].data).Some?
  }

  function ManifestIn(c: Codec, p: Payload): Manifest
    requires HasManifest(c, p)
  {
    c.parse(p.members[0].data).value
  }

  predicate Acceptable(m: Manifest, maximum: nat) {
    && 1 <= |m.files| <= TarSize.MAX_FILES
    && (forall i :: 0 <= i < |m.files| ==> WellDeclared(m.files[i]))
    && SumSizes(m.files) <= maximum
  }

  predicate Holds(members: seq<Member>, name: string) {
    exists i :: 0 <= i < |members| && members[i].name == name
  }

  /** The members after the manifest are exactly the declared files, each once, with the
      declared sizes and digests, and none where another needs a directory. */
  predicate Exact(c: Codec, files: Inventory, members: seq<Member>) {
    && (forall i :: 0 <= i < |members| ==> Matches(c, files, members[i]))
    && (forall i, j :: 0 <= i < j < |members| ==> Compatible(members[i], members[j]))
    && (forall i :: 0 <= i < |files| ==> Holds(members, files[i].name))
  }

  predicate Valid(c: Codec, p: Payload, maximum: nat) {
    && p.length <= PayloadLimit(maximum)
    && HasManifest(c, p)
    && Acceptable(ManifestIn(c, p), maximum)
    && Exact(c, ManifestIn(c, p).files, p.members[1..])
  }

  /** Name to bytes. */
  function Contents(members: seq<Member>): map<string, Bytes> {
    if members == [] then map[]
    else Contents(members[..|members| - 1])[members[|members| - 1].name := members[|members| - 1].data]
  }

  /** The same, as the staged tree: component path to bytes. */
  function Extracted(members: seq<Member>): map<Path, Bytes> {
    if members == [] then map[]
    else Extracted(members[..|members| - 1])[Names.Parts(members[|members| - 1].name) := members[|members| - 1].data]
  }

  lemma {:induction false} ContentsPointwise(members: seq<Member>)
    requires forall i, j :: 0 <= i < j < |members| ==> members[i].name != members[j].name
    ensures forall name :: name in Contents(members) <==> Holds(members, name)
    ensures forall i :: 0 <= i < |members| ==>
              members[i].name in Contents(members) && Contents(members)[members[i].name] == members[i].data
    decreases |members|
  {
    if members != [] {
      var front, last := members[..|members| - 1], members[|members| - 1];
      ContentsPointwise(front);
      forall name
        ensures name in Contents(members) <==> Holds(members, name)
      {
        if Holds(front, name) {
          var i :| 0 <= i < |front| && front[i].name == name;
          assert members[i].name == name;
        }
        if Holds(members, name) && name != last.name {
          var i :| 0 <= i < |members| && members[i].name == name;
          assert front[i].name == name;
        }
        if name == last.name {
          assert members[|members| - 1].name == name;
        }
      }
      forall i | 0 <= i < |members|
        ensures members[i].name in Contents(members) && Contents(members)[members[i].name] == members[i].data
      {
        if i < |front| { assert front[i] == members[i]; }
      }
    }
  }

  lemma {:induction false} ExtractedPointwise(members: seq<Member>, path: Path)
    ensures path in Extracted(members) <==> exists i :: 0 <= i < |members| && Names.Parts(members[i].name) == path
    decreases |members|
  {
    if members != [] {
      var front, last := members[..|members| - 1], members[|members| - 1];
      ExtractedPointwise(front, path);
      if path in Extracted(front) {
        var i :| 0 <= i < |front| && Names.Parts(front[i].name) == path;
        assert Names.Parts(members[i].name) == path;
      }
      if i :| 0 <= i < |members| && Names.Parts(members[i].name) == path {
        if i < |front| { assert Names.Parts(front[i].name) == path; }
      }
    }
  }

  // ---------- The round trip ----------

  /** What the round trip needs of the foreign programs, for this one archive: age and tar give
      back what they were given, JSON reads back what it printed, its text is as long as the
      compact format makes it, and digests are hexadecimal. Nothing is assumed about
      collisions. */
  ghost predicate Faithful(c: Codec, items: seq<Item>, metadata: Bytes)
    requires Sorted(items)
  {
    && (forall b :: Texts.IsDigest(c.hash(b)))
    && RendersWell(c, ManifestOf(c, items, metadata))
    && c.open(c.seal(PayloadOf(c, items, metadata))) == Some(PayloadOf(c, items, metadata))
  }

  predicate RendersWell(c: Codec, m: Manifest) {
    && c.parse(c.render(m)) == Some(m)
    && |c.render(m)| == TarSize.ManifestLen(MemberSizes(m.files), |m.metadata|)
  }

  predicate PrefixFree(items: seq<Item>) {
    forall i, j :: 0 <= i < |items| && 0 <= j < |items| ==>
      !Publish.Proper(Names.Parts(items[i].name), Names.Parts(items[j].name))
  }

  lemma {:induction false} SumsAgreeTo(c: Codec, items: seq<Item>, k: nat)
    requires k <= |items| && forall i :: 0 <= i < |items| ==> items[i].first.Opened?
    ensures SumTo(Declared(c, items), k) == TotalTo(items, k) == TarSize.Sizes(MemberSizes(Declared(c, items))[..k])
  {
    if k > 0 {
      SumsAgreeTo(c, items, k - 1);
      var sizes := MemberSizes(Declared(c, items));
      assert sizes[..k][..k - 1] == sizes[..k - 1];
    }
  }

  lemma {:induction false} SumsAgree(c: Codec, items: seq<Item>)
    requires forall i :: 0 <= i < |items| ==> items[i].first.Opened?
    ensures SumSizes(Declared(c, items)) == Total(items) == TarSize.Sizes(MemberSizes(Declared(c, items)))
  {
    SumsAgreeTo(c, items, |items|);
    assert MemberSizes(Declared(c, items))[..|items|] == MemberSizes(Declared(c, items));
  }

  lemma {:induction false} ManifestIsWellDeclared(c: Codec, items: seq<Item>, metadata: Bytes)
    requires Sorted(items) && Faithful(c, items, metadata)
    requires forall i :: 0 <= i < |items| ==> Inspected(items[i])
    ensures forall i :: 0 <= i < |items| ==> WellDeclared(ManifestOf(c, items, metadata).files[i])
    ensures RendersWell(c, ManifestOf(c, items, metadata))
  {
  }

  /** Each archived entry has the size and the digest its manifest line declares, whatever
      happened to the inputs between and during the two passes. Without hash collisions it
      is what the first pass read. */
  lemma {:induction false} EntriesMatchTheManifest(c: Codec, items: seq<Item>, metadata: Bytes, maximum: nat, i: nat)
    requires Sorted(items) && Archivable(c, items, metadata, maximum) && i < |items|
    ensures var entry := PayloadOf(c, items, metadata).members[i + 1];
            var files := ManifestOf(c, items, metadata).files;
            entry.name == items[i].name && Matches(c, files, entry) && Lookup(files, entry.name) == files[i]
    ensures (forall a, b :: c.hash(a) == c.hash(b) ==> a == b) ==>
              PayloadOf(c, items, metadata).members[i + 1].data == items[i].first.content
  {
    var files := ManifestOf(c, items, metadata).files;
    assert files[i] == Declare(c, items[i]);
    LookupIs(files, i);
    assert Inspected(items[i]) && Unchanged(c, items[i]);
    assert PayloadOf(c, items, metadata).members[i + 1] == CopiedMember(items[i]);
  }

  lemma {:induction false} PayloadFits(c: Codec, items: seq<Item>, metadata: Bytes, maximum: nat)
    requires Sorted(items) && Faithful(c, items, metadata) && Archivable(c, items, metadata, maximum)
    ensures PayloadOf(c, items, metadata).length <= PayloadLimit(maximum)
  {
    ManifestIsWellDeclared(c, items, metadata);
    SumsAgree(c, items);
    TarSize.LimitsAgree(MemberSizes(Declared(c, items)), |metadata|, maximum);
  }

  lemma {:induction false} CopiesAreExact(c: Codec, items: seq<Item>, metadata: Bytes, maximum: nat)
    requires Sorted(items) && Archivable(c, items, metadata, maximum) && PrefixFree(items)
    ensures Exact(c, ManifestOf(c, items, metadata).files, CopiedMembers(items))
  {
    var files := ManifestOf(c, items, metadata).files;
    var ms := CopiedMembers(items);
    forall i | 0 <= i < |ms|
      ensures Matches(c, files, ms[i])
    {
      EntriesMatchTheManifest(c, items, metadata, maximum, i);
    }
    forall i, j | 0 <= i < j < |ms|
      ensures Compatible(ms[i], ms[j])
    {
      LessIsStrict(items[i].name);
    }
    forall i | 0 <= i < |files|
      ensures Holds(ms, files[i].name)
    {
      assert ms[i].name == files[i].name;
    }
  }

  lemma {:induction false} CopiedContents(items: seq<Item>)
    requires Sorted(items)
    ensures var contents := Contents(CopiedMembers(items));
            && (forall name :: name in contents ==> exists i :: 0 <= i < |items| && items[i].name == name)
            && (forall i :: 0 <= i < |items| ==>
                  items[i].name in contents && contents[items[i].name] == Copied(items[i]))
  {
    var ms := CopiedMembers(items);
    forall i, j | 0 <= i < j < |ms|
      ensures ms[i].name != ms[j].name
    {
      LessIsStrict(items[i].name);
    }
    ContentsPointwise(ms);
    forall name | name in Contents(ms)
      ensures exists i :: 0 <= i < |items| && items[i].name == name
    {
      var i :| 0 <= i < |ms| && ms[i].name == name;
      assert items[i].name == name;
    }
    forall i | 0 <= i < |items|
      ensures items[i].name in Contents(ms) && Contents(ms)[items[i].name] == Copied(items[i])
    {
      assert ms[i].name == items[i].name;
    }
  }

  lemma {:induction false} PayloadShape(c: Codec, items: seq<Item>, metadata: Bytes, maximum: nat)
    requires Sorted(items) && Faithful(c, items, metadata) && Archivable(c, items, metadata, maximum)
    ensures var p := PayloadOf(c, items, metadata);
            && HasManifest(c, p) && ManifestIn(c, p) == ManifestOf(c, items, metadata)
            && p.members[1..] == CopiedMembers(items)
            && Acceptable(ManifestOf(c, items, metadata), maximum)
  {
    ManifestIsWellDeclared(c, items, metadata);
    SumsAgree(c, items);
  }

  /** The round trip: what `encrypt_archive` sealed opens to a payload that `decrypt_archive`
      accepts for the same limit exactly when no name is a directory of another, under the
      manifest that was written, and whose contents are the bytes copied for each name. */
  lemma {:induction false} RoundTrip(c: Codec, items: seq<Item>, metadata: Bytes, maximum: nat)
    requires Sorted(items) && Faithful(c, items, metadata) && Archivable(c, items, metadata, maximum)
    ensures var p := PayloadOf(c, items, metadata);
            && c.open(c.seal(p)) == Some(p)
            && (Valid(c, p, maximum) <==> PrefixFree(items))
            && HasManifest(c, p) && ManifestIn(c, p) == ManifestOf(c, items, metadata)
    ensures var contents := Contents(PayloadOf(c, items, metadata).members[1..]);
            && (forall name :: name in contents ==> exists i :: 0 <= i < |items| && items[i].name == name)
            && (forall i :: 0 <= i < |items| ==>
                  items[i].name in contents && contents[items[i].name] == Copied(items[i]))
  {
    PayloadShape(c, items, metadata, maximum);
    PayloadFits(c, items, metadata, maximum);
    CopiedContents(items);
    if PrefixFree(items) {
      CopiesAreExact(c, items, metadata, maximum);
    }
    if Valid(c, PayloadOf(c, items, metadata), maximum) {
      ExactIsPrefixFree(c, ManifestOf(c, items, metadata).files, items);
    }
  }

  lemma {:induction false} ExactIsPrefixFree(c: Codec, files: Inventory, items: seq<Item>)
    requires Exact(c, files, CopiedMembers(items))
    ensures PrefixFree(items)
  {
  }

  // ---------- What acceptance rules out ----------

  /** The manifest determines the contents: two payloads accepted under one manifest hold
      the same names, and the same bytes unless two different byte strings collide. */
  lemma {:induction false} ManifestDeterminesContents(c: Codec, files: Inventory, a: seq<Member>, b: seq<Member>)
    requires Exact(c, files, a) && Exact(c, files, b)
    ensures |a| == |b| == |files|
    ensures Contents(a).Keys == Contents(b).Keys
    ensures forall name :: name in Contents(a) ==>
              |Contents(a)[name]| == |Contents(b)[name]| && c.hash(Contents(a)[name]) == c.hash(Contents(b)[name])
  {
    ExactCounts(c, files, a);
    ExactCounts(c, files, b);
    ContentsPointwise(a);
    ContentsPointwise(b);
    forall name
      ensures name in Contents(a) <==> Declares(files, name)
      ensures name in Contents(b) <==> Declares(files, name)
    {
      HoldsIsDeclared(c, files, a, name);
      HoldsIsDeclared(c, files, b, name);
    }
    forall name | name in Contents(a)
      ensures |Contents(a)[name]| == |Contents(b)[name]| && c.hash(Contents(a)[name]) == c.hash(Contents(b)[name])
    {
      assert name in Contents(b);
      DeclaredContent(c, files, a, name);
      DeclaredContent(c, files, b, name);
    }
  }

  /** Accepted contents have the declared size and digest. */
  lemma {:induction false} DeclaredContent(c: Codec, files: Inventory, ms: seq<Member>, name: string)
    requires Exact(c, files, ms) && name in Contents(ms)
    ensures Declares(files, name)
    ensures |Contents(ms)[name]| == Lookup(files, name).size && c.hash(Contents(ms)[name]) == Lookup(files, name).sha256
  {
    ContentsPointwise(ms);
    var i :| 0 <= i < |ms| && ms[i].name == name;
    assert Matches(c, files, ms[i]);
    assert Contents(ms)[ms[i].name] == ms[i].data;
  }

  lemma {:induction false} HoldsIsDeclared(c: Codec, files: Inventory, ms: seq<Member>, name: string)
    requires Exact(c, files, ms)
    ensures Holds(ms, name) <==> Declares(files, name)
  {
  }

  function MemberNames(ms: seq<Member>): (s: set<string>)
    ensures forall name :: name in s <==> Holds(ms, name)
  {
    set i | 0 <= i < |ms| :: ms[i].name
  }

  lemma {:induction false} NamesOfFront(ms: seq<Member>)
    requires ms != []
    ensures MemberNames(ms) == MemberNames(ms[..|ms| - 1]) + {ms[|ms| - 1].name}
  {
    var front, last := ms[..|ms| - 1], ms[|ms| - 1];
    forall name
      ensures Holds(ms, name) <==> Holds(front, name) || name == last.name
    {
      if i :| 0 <= i < |ms| && ms[i].name == name {
        if i < |front| { assert front[i].name == name; }
      }
      if i :| 0 <= i < |front| && front[i].name == name { assert ms[i].name == name; }
      if name == last.name { assert ms[|ms| - 1].name == name; }
    }
  }

  lemma {:induction false} NamesCount(ms: seq<Member>)
    requires forall i, j :: 0 <= i < j < |ms| ==> ms[i].name != ms[j].name
    ensures |MemberNames(ms)| == |ms|
    decreases |ms|
  {
    if ms != [] {
      NamesCount(ms[..|ms| - 1]);
      NamesOfFront(ms);
    }
  }

  /** As many members as declarations. */
  lemma {:induction false} ExactCounts(c: Codec, files: Inventory, ms: seq<Member>)
    requires Exact(c, files, ms)
    ensures |ms| == |files|
  {
    var asMembers := seq(|files|, i requires 0 <= i < |files| => Member(files[i].name, true, []));
    forall i, j | 0 <= i < j < |ms|
      ensures ms[i].name != ms[j].name
    {
      assert Compatible(ms[i], ms[j]);
    }
    NamesCount(ms);
    NamesCount(asMembers);
    forall name
      ensures name in MemberNames(ms) <==> name in MemberNames(asMembers)
    {
      HoldsIsDeclared(c, files, ms, name);
      if Declares(files, name) {
        var i :| 0 <= i < |files| && files[i].name == name;
        assert asMembers[i].name == name;
      }
      if Holds(asMembers, name) {
        var i :| 0 <= i < |asMembers| && asMembers[i].name == name;
        assert files[i].name == name;
      }
    }
    assert MemberNames(ms) == MemberNames(asMembers);
  }

  /** Damage to an accepted archive is never accepted: a member dropped, repeated or added,
      or bytes that hash differently. */
  lemma {:induction false} DamageIsRefused(c: Codec, files: Inventory, ms: seq<Member>, at: nat, extra: Member)
    requires Exact(c, files, ms) && at < |ms|
    ensures !Exact(c, files, ms[..at] + ms[at + 1..])
    ensures !Exact(c, files, ms[..at] + [extra] + ms[at..])
    ensures extra.name == ms[at].name && c.hash(extra.data) != c.hash(ms[at].data) ==> !Exact(c, files, ms[at := extra])
  {
    ExactCounts(c, files, ms);
    if Exact(c, files, ms[..at] + ms[at + 1..]) {
      ExactCounts(c, files, ms[..at] + ms[at + 1..]);
    }
    if Exact(c, files, ms[..at] + [extra] + ms[at..]) {
      ExactCounts(c, files, ms[..at] + [extra] + ms[at..]);
    }
    if extra.name == ms[at].name && Exact(c, files, ms[at := extra]) {
      assert Matches(c, files, ms[at := extra][at]) && Matches(c, files, ms[at]);
    }
  }

  /** A member that delivers one declared file. */
  predicate Delivers(c: Codec, m: Member, d: Declaration) {
    m.name == d.name && m.regular && |m.data| == d.size && c.hash(m.data) == d.sha256
  }

  predicate Delivered(c: Codec, d: Declaration, ms: seq<Member>) {
    exists k :: 0 <= k < |ms| && Delivers(c, ms[k], d)
  }

  predicate NamesAreApart(files: seq<Declaration>) {
    forall i, j :: 0 <= i < |files| && 0 <= j < |files| ==>
      !Publish.Proper(Names.Parts(files[i].name), Names.Parts(files[j].name))
  }

  /** Acceptance counted out: there are as many members as declarations and each declaration is
      delivered by some member, under names that do not get in each other's way. That nothing
      is repeated, nothing undeclared and nothing irregular follows, and is not looked for. */
  lemma {:induction false} AcceptedIsOneMemberEach(c: Codec, files: Inventory, ms: seq<Member>)
    requires forall i :: 0 <= i < |files| ==> Names.Accepts(files[i].name)
    ensures Exact(c, files, ms) <==>
              && |ms| == |files| && NamesAreApart(files)
              && forall i :: 0 <= i < |files| ==> Delivered(c, files[i], ms)
  {
    if Exact(c, files, ms) {
      ExactCounts(c, files, ms);
      forall i | 0 <= i < |files|
        ensures Delivered(c, files[i], ms)
      {
        ExactDelivers(c, files, ms, i);
      }
      ExactIsApart(c, files, ms);
    }
    if |ms| == |files| && NamesAreApart(files) && forall i :: 0 <= i < |files| ==> Delivered(c, files[i], ms) {
      DeliveredIsExact(c, files, ms);
    }
  }

  lemma {:induction false} ExactDelivers(c: Codec, files: Inventory, ms: seq<Member>, i: nat)
    requires Exact(c, files, ms) && i < |files|
    ensures Delivered(c, files[i], ms)
  {
    assert Holds(ms, files[i].name);
    var k :| 0 <= k < |ms| && ms[k].name == files[i].name;
    assert Matches(c, files, ms[k]);
    LookupIs(files, i);
    assert Delivers(c, ms[k], files[i]);
  }

  lemma {:induction false} ExactIsApart(c: Codec, files: Inventory, ms: seq<Member>)
    requires Exact(c, files, ms)
    ensures NamesAreApart(files)
  {
    forall i, j | 0 <= i < |files| && 0 <= j < |files|
      ensures !Publish.Proper(Names.Parts(files[i].name), Names.Parts(files[j].name))
    {
      assert Holds(ms, files[i].name) && Holds(ms, files[j].name);
      var k :| 0 <= k < |ms| && ms[k].name == files[i].name;
      var l :| 0 <= l < |ms| && ms[l].name == files[j].name;
      if k < l { assert Compatible(ms[k], ms[l]); }
      if l < k { assert Compatible(ms[l], ms[k]); }
    }
  }

  function DeclaredNames(files: seq<Declaration>): (s: set<string>)
    ensures forall name :: name in s <==> Declares(files, name)
  {
    set i | 0 <= i < |files| :: files[i].name
  }

  lemma {:induction false} DeclaredNamesCount(files: Inventory)
    ensures |DeclaredNames(files)| == |files|
  {
    var ms := seq(|files|, i requires 0 <= i < |files| => Member(files[i].name, true, []));
    NamesCount(ms);
    forall name
      ensures name in DeclaredNames(files) <==> name in MemberNames(ms)
    {
      if Declares(files, name) {
        var i :| 0 <= i < |files| && files[i].name == name;
        assert ms[i].name == name;
      }
      if Holds(ms, name) {
        var i :| 0 <= i < |ms| && ms[i].name == name;
        assert files[i].name == name;
      }
    }
    assert DeclaredNames(files) == MemberNames(ms);
  }

  lemma {:induction false} FewerNamesThanMembers(ms: seq<Member>)
    ensures |MemberNames(ms)| <= |ms|
    decreases |ms|
  {
    if ms != [] {
      FewerNamesThanMembers(ms[..|ms| - 1]);
      NamesOfFront(ms);
    }
  }

  /** As many names as members means that none is repeated. */
  lemma {:induction false} FullNamesAreDistinct(ms: seq<Member>, i: nat, j: nat)
    requires |MemberNames(ms)| == |ms| && i < j < |ms|
    ensures ms[i].name != ms[j].name
    decreases |ms|
  {
    var front, last := ms[..|ms| - 1], ms[|ms| - 1];
    FewerNamesThanMembers(front);
    NamesOfFront(ms);
    if j < |front| {
      FullNamesAreDistinct(front, i, j);
    } else {
      assert front[i].name in MemberNames(front);
    }
  }

  /** A set within another of the same size is that set. */
  lemma {:induction false} SameSizeSameSet<T>(a: set<T>, b: set<T>)
    requires a <= b && |a| >= |b|
    ensures a == b
  {
    assert b == a + (b - a);
  }

  lemma {:induction false} DeliveredIsExact(c: Codec, files: Inventory, ms: seq<Member>)
    requires forall i :: 0 <= i < |files| ==> Names.Accepts(files[i].name)
    requires |ms| == |files| && NamesAreApart(files) && forall i :: 0 <= i < |files| ==> Delivered(c, files[i], ms)
    ensures Exact(c, files, ms)
  {
    DeclaredNamesAreHeld(c, files, ms);
    DeclaredNamesCount(files);
    FewerNamesThanMembers(ms);
    SameSizeSameSet(DeclaredNames(files), MemberNames(ms));
    forall i, j | 0 <= i < j < |ms|
      ensures ms[i].name != ms[j].name
    {
      FullNamesAreDistinct(ms, i, j);
    }
    forall k | 0 <= k < |ms|
      ensures Matches(c, files, ms[k])
    {
      DeliveredMatches(c, files, ms, k);
    }
    forall k, l | 0 <= k < l < |ms|
      ensures Compatible(ms[k], ms[l])
    {
      DeliveredIsApart(files, ms[k], ms[l]);
    }
  }

  lemma {:induction false} DeclaredNamesAreHeld(c: Codec, files: Inventory, ms: seq<Member>)
    requires forall i :: 0 <= i < |files| ==> Delivered(c, files[i], ms)
    ensures DeclaredNames(files) <= MemberNames(ms)
    ensures forall i :: 0 <= i < |files| ==> Holds(ms, files[i].name)
  {
    forall i | 0 <= i < |files|
      ensures Holds(ms, files[i].name)
    {
      var k :| 0 <= k < |ms| && Delivers(c, ms[k], files[i]);
      assert ms[k].name == files[i].name;
    }
  }

  lemma {:induction false} DeliveredMatches(c: Codec, files: Inventory, ms: seq<Member>, k: nat)
    requires k < |ms| && Declares(files, ms[k].name)
    requires forall i :: 0 <= i < |files| ==> Names.Accepts(files[i].name) && Delivered(c, files[i], ms)
    requires forall i, j :: 0 <= i < j < |ms| ==> ms[i].name != ms[j].name
    ensures Matches(c, files, ms[k])
  {
    var i :| 0 <= i < |files| && files[i].name == ms[k].name;
    assert Delivered(c, files[i], ms);
    var l :| 0 <= l < |ms| && Delivers(c, ms[l], files[i]);
    assert l == k;
    LookupIs(files, i);
  }

  lemma {:induction false} DeliveredIsApart(files: Inventory, m: Member, n: Member)
    requires NamesAreApart(files) && Declares(files, m.name) && Declares(files, n.name) && m.name != n.name
    ensures Compatible(m, n)
  {
    var i :| 0 <= i < |files| && files[i].name == m.name;
    var j :| 0 <= j < |files| && files[j].name == n.name;
    assert !Publish.Proper(Names.Parts(files[i].name), Names.Parts(files[j].name));
    assert !Publish.Proper(Names.Parts(files[j].name), Names.Parts(files[i].name));
  }

  // ---------- What is published ----------

  lemma {:induction false} PathsAreApart(ms: seq<Member>, p: Path, q: Path)
    requires forall i, j :: 0 <= i < j < |ms| ==> Compatible(ms[i], ms[j])
    requires p in Extracted(ms) && q in Extracted(ms)
    ensures !Publish.Proper(p, q)
  {
    ExtractedPointwise(ms, p);
    ExtractedPointwise(ms, q);
    var i :| 0 <= i < |ms| && Names.Parts(ms[i].name) == p;
    var j :| 0 <= j < |ms| && Names.Parts(ms[j].name) == q;
    if i < j { assert Compatible(ms[i], ms[j]); }
    if j < i { assert Compatible(ms[j], ms[i]); }
  }

  lemma {:induction false} PathsAreAllowlisted(ms: seq<Member>, q: Path)
    requires forall i :: 0 <= i < |ms| ==> Names.Accepts(ms[i].name)
    requires q in Extracted(ms)
    ensures q != [] && q[0] != Publish.MARK[0]
  {
    ExtractedPointwise(ms, q);
    var i :| 0 <= i < |ms| && Names.Parts(ms[i].name) == q;
    assert q[0] in Names.ROOTS && ".incomplete" !in Names.ROOTS;
  }

  /** The verified tree meets what publishing it needs, so it appears all or nothing. */
  lemma {:induction false} VerifiedIsPublishable(c: Codec, files: Inventory, ms: seq<Member>)
    requires Exact(c, files, ms) && files != []
    ensures Publish.Publishable(Extracted(ms))
  {
    assert Holds(ms, files[0].name);
    ExtractedPointwise(ms, Names.Parts(files[0].name));
    forall q | q in Extracted(ms)
      ensures q != [] && q[0] != Publish.MARK[0]
    {
      assert forall i :: 0 <= i < |ms| ==> Matches(c, files, ms[i]);
      PathsAreAllowlisted(ms, q);
    }
    forall p, q | p in Extracted(ms) && q in Extracted(ms)
      ensures !Publish.Proper(p, q)
    {
      PathsAreApart(ms, p, q);
    }
  }
}
