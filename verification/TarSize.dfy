/** How long the tar payload of an accepted inventory can be. `encrypt_archive` bounds the
    file sizes and the manifest; `decrypt_archive` bounds the payload. The two limits agree
    because every header byte beyond 2 KiB per file is paid for by the manifest, which
    repeats each name. Layout as Python's `tarfile` writes it in its default pax format. */
module TarSize {

  const MAX_FILES := 100_000
  const MAX_MANIFEST := 4 * 1024 * 1024
  const BLOCK := 512

  datatype Member = Member(name: string, size: nat)

  /** Padded to whole blocks. */
  function ToBlocks(n: nat): (r: nat)
    ensures n <= r < n + 512
  {
    (n + 511) / 512 * 512
  }

  /** Padded to whole tar records of twenty blocks. */
  function ToRecords(n: nat): (r: nat)
    ensures n <= r < n + 10_240
  {
    (n + 10_239) / 10_240 * 10_240
  }

  /** Decimal digits of `n`. */
  function Digits(n: nat): (d: nat)
    ensures 1 <= d
    ensures n >= 1 ==> d <= n
  {
    if n < 10 then 1 else 1 + Digits(n / 10)
  }

  /** UTF-8 bytes of one character. */
  function Utf8(c: char): nat {
    if c as int < 0x80 then 1 else if c as int < 0x800 then 2 else if c as int < 0x10000 then 3 else 4
  }

  /** Characters `json.dumps` writes for one character that is not a control character. */
  function Json(c: char): nat {
    if c == '"' || c == '\\' then 2
    else if 32 <= c as int < 127 then 1
    else if c as int < 0x10000 then 6
    else 12
  }

  function Utf8Len(s: string): nat {
    if s == "" then 0 else Utf8(s[0]) + Utf8Len(s[1..])
  }

  function JsonLen(s: string): nat {
    if s == "" then 0 else Json(s[0]) + JsonLen(s[1..])
  }

  predicate Ascii(s: string) {
    forall i :: 0 <= i < |s| ==> s[i] as int < 0x80
  }

  /** One pax record `"<length> <keyword>=<value>\n"`; `l` counts everything but the length digits. */
  function PaxRecord(l: nat): nat {
    if Digits(l + Digits(l)) == Digits(l) then l + Digits(l) else l + Digits(l) + 1
  }

  /** The extended header data: the path if it is long or not ASCII, the size from 8 GiB on. */
  function PaxData(m: Member): nat {
    (if |m.name| > 100 || !Ascii(m.name) then PaxRecord(7 + Utf8Len(m.name)) else 0)
    + (if m.size >= 0x2_0000_0000 then PaxRecord(7 + Digits(m.size)) else 0)
  }

  /** One member: extended header if any, header block, padded data. */
  function MemberLen(m: Member): nat {
    (if PaxData(m) > 0 then BLOCK + ToBlocks(PaxData(m)) else 0) + BLOCK + ToBlocks(m.size)
  }

  function MembersLen(ms: seq<Member>): nat {
    if ms == [] then 0 else MembersLen(ms[..|ms| - 1]) + MemberLen(ms[|ms| - 1])
  }

  function Sizes(ms: seq<Member>): nat {
    if ms == [] then 0 else Sizes(ms[..|ms| - 1]) + ms[|ms| - 1].size
  }

  /** The whole payload: manifest, members, two zero blocks, padded to a tar record. */
  function PayloadLen(manifestLen: nat, ms: seq<Member>): nat {
    ToRecords(BLOCK + ToBlocks(manifestLen) + MembersLen(ms) + 2 * BLOCK)
  }

  /** `"<name>":{"sha256":"<64 digits>","size":<size>}`. */
  function DeclarationLen(m: Member): nat {
    88 + JsonLen(m.name) + Digits(m.size)
  }

  function DeclarationsLen(ms: seq<Member>): nat {
    if ms == [] then 0 else DeclarationsLen(ms[..|ms| - 1]) + DeclarationLen(ms[|ms| - 1])
  }

  /** The compact JSON manifest around the declarations and the metadata. */
  function ManifestLen(ms: seq<Member>, metadataLen: nat): nat {
    35 + DeclarationsLen(ms) + (if ms == [] then 0 else |ms| - 1) + metadataLen
  }

  lemma {:induction false} Utf8FitsJson(s: string)
    ensures Utf8Len(s) <= JsonLen(s)
    decreases |s|
  {
    if s != "" { Utf8FitsJson(s[1..]); }
  }

  /** A member's headers and padding cost at most 2 KiB plus twice its manifest declaration. */
  lemma {:induction false} MemberOverhead(m: Member)
    ensures MemberLen(m) <= m.size + 2046 + 2 * DeclarationLen(m)
  {
    Utf8FitsJson(m.name);
    assert PaxRecord(7 + Utf8Len(m.name)) <= 2 * (7 + Utf8Len(m.name)) + 1;
    assert PaxRecord(7 + Digits(m.size)) <= 2 * (7 + Digits(m.size)) + 1;
    assert PaxData(m) <= 2 * DeclarationLen(m);
  }

  lemma {:induction false} MembersOverhead(ms: seq<Member>)
    ensures MembersLen(ms) <= Sizes(ms) + 2046 * |ms| + 2 * DeclarationsLen(ms)
    ensures 89 * |ms| <= DeclarationsLen(ms)
    decreases |ms|
  {
    if ms != [] {
      MembersOverhead(ms[..|ms| - 1]);
      MemberOverhead(ms[|ms| - 1]);
    }
  }

  /** Every inventory `encrypt_archive` accepts gives a payload `decrypt_archive` accepts for
      the same `maximum`: the manifest cap alone bounds the number of files and all their names. */
  lemma {:induction false} LimitsAgree(ms: seq<Member>, metadataLen: nat, maximum: nat)
    requires Sizes(ms) <= maximum
    requires ManifestLen(ms, metadataLen) <= MAX_MANIFEST
    ensures PayloadLen(ManifestLen(ms, metadataLen), ms) <= maximum + MAX_MANIFEST + MAX_FILES * 2048
    ensures |ms| <= 47_127
  {
    MembersOverhead(ms);
  }
}
