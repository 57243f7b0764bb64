/** The client fingerprint of the console build: FNV-1a over length-framed paths and contents
    of sorted directory trees. `u64` wrap-around is written out. */
module Fingerprint {
  import opened Octets

  const M: nat := 0x1_0000_0000_0000_0000
  const PRIME: nat := 0x100_0000_01b3
  const OFFSET: nat := 0xcbf2_9ce4_8422_2325
  const WIDTH: nat := 8   // bytes of a `u64`
  const BITS: nat := 64
  const INVERSE: nat := 0xce96_5057_aff6_957b   // of PRIME modulo 2^64

  // ---------- One step ----------

  function Pow2(n: nat): nat {
    if n == 0 then 1 else 2 * Pow2(n - 1)
  }

  function Differ(a: nat, b: nat): nat {
    if a == b then 0 else 1
  }

  /** Bitwise exclusive or of the low `n` bits. */
  function Xor(x: nat, y: nat, n: nat): nat {
    if n == 0 then 0 else Differ(x % 2, y % 2) + 2 * Xor(x / 2, y / 2, n - 1)
  }

  lemma {:induction false} XorUnfolds(x: nat, y: nat, n: nat)
    requires n > 0
    ensures Xor(x, y, n) % 2 == Differ(x % 2, y % 2) && Xor(x, y, n) / 2 == Xor(x / 2, y / 2, n - 1)
  {
  }

  lemma {:induction false} XorFits(x: nat, y: nat, n: nat)
    ensures Xor(x, y, n) < Pow2(n)
  {
    if n > 0 { XorFits(x / 2, y / 2, n - 1); }
  }

  lemma {:induction false} XorCancels(x: nat, y: nat, n: nat)
    requires x < Pow2(n)
    ensures Xor(Xor(x, y, n), y, n) == x
    decreases n
  {
    if n > 0 {
      XorCancels(x / 2, y / 2, n - 1);
      var z := Xor(x, y, n);
      XorUnfolds(x, y, n);
      XorUnfolds(z, y, n);
      SameHalves(Xor(z, y, n), x);
    }
  }

  lemma {:induction false} XorCommutes(x: nat, y: nat, n: nat)
    ensures Xor(x, y, n) == Xor(y, x, n)
  {
    if n > 0 { XorCommutes(x / 2, y / 2, n - 1); }
  }

  lemma {:induction false} SameHalves(a: nat, b: nat)
    requires a % 2 == b % 2 && a / 2 == b / 2
    ensures a == b
  {
  }

  lemma {:induction false} PowAdd(a: nat, b: nat)
    ensures Pow2(a + b) == Pow2(a) * Pow2(b)
  {
    if a > 0 {
      PowAdd(a - 1, b);
      assert Pow2(a + b) == 2 * (Pow2(a - 1) * Pow2(b)) == (2 * Pow2(a - 1)) * Pow2(b);
    }
  }

  lemma {:induction false} Pow64()
    ensures Pow2(8) == 256 && Pow2(BITS) == M
  {
    assert Pow2(2) == 4;
    PowAdd(2, 2);
    PowAdd(4, 4);
    PowAdd(8, 8);
    PowAdd(16, 16);
    PowAdd(32, 32);
  }

  /** `hash ^= byte; hash = hash.wrapping_mul(PRIME)`. */
  function Step(h: nat, b: byte): nat {
    Xor(h, b as nat, BITS) * PRIME % M
  }

  lemma {:induction false} MulIsInjective(x: nat, y: nat)
    requires x < M && y < M && x * PRIME % M == y * PRIME % M
    ensures x == y
  {
    Recovers(x);
    Recovers(y);
  }

  /** Multiplying by the odd prime is undone by its inverse. */
  lemma {:induction false} Recovers(x: nat)
    requires x < M
    ensures (x * PRIME % M) * INVERSE % M == x
  {
    var q := x * PRIME / M;
    var r := x * PRIME % M;
    assert x * PRIME == q * M + r;
    assert r * INVERSE == x + M * (x * 0xce_9650_590f - q * INVERSE);
  }

  /** A step loses nothing of the state. */
  lemma {:induction false} StepKeepsStates(h: nat, k: nat, b: byte)
    requires h < M && k < M && Step(h, b) == Step(k, b)
    ensures h == k
  {
    Pow64();
    XorFits(h, b as nat, BITS);
    XorFits(k, b as nat, BITS);
    MulIsInjective(Xor(h, b as nat, BITS), Xor(k, b as nat, BITS));
    XorCancels(h, b as nat, BITS);
    XorCancels(k, b as nat, BITS);
  }

  /** A step tells bytes apart. */
  lemma {:induction false} StepSeparatesBytes(h: nat, b: byte, c: byte)
    requires h < M && Step(h, b) == Step(h, c)
    ensures b == c
  {
    Pow64();
    XorFits(h, b as nat, BITS);
    XorFits(h, c as nat, BITS);
    MulIsInjective(Xor(h, b as nat, BITS), Xor(h, c as nat, BITS));
    XorCommutes(h, b as nat, BITS);
    XorCommutes(h, c as nat, BITS);
    XorCancels(b as nat, h, BITS);
    XorCancels(c as nat, h, BITS);
  }

  // ---------- Whole streams ----------

  function Fold(h: nat, s: Bytes): nat {
    if s == [] then h else Step(Fold(h, s[..|s| - 1]), s[|s| - 1])
  }

  lemma {:induction false} FoldAppend(h: nat, a: Bytes, b: Bytes)
    ensures Fold(h, a + b) == Fold(Fold(h, a), b)
    decreases |b|
  {
    if b == [] {
      assert a + b == a;
    } else {
      FoldAppend(h, a, b[..|b| - 1]);
      assert (a + b)[..|a + b| - 1] == a + b[..|b| - 1];
    }
  }

  lemma {:induction false} FoldFits(h: nat, s: Bytes)
    requires h < M
    ensures Fold(h, s) < M
    decreases |s|
  {
  }

  lemma {:induction false} FoldKeepsStates(h: nat, k: nat, s: Bytes)
    requires h < M && k < M && Fold(h, s) == Fold(k, s)
    ensures h == k
    decreases |s|
  {
    if s != [] {
      var front := s[..|s| - 1];
      FoldFits(h, front);
      FoldFits(k, front);
      StepKeepsStates(Fold(h, front), Fold(k, front), s[|s| - 1]);
      FoldKeepsStates(h, k, front);
    }
  }

  lemma {:induction false} FoldAt(h: nat, pre: Bytes, b: byte, post: Bytes)
    ensures Fold(h, pre + [b] + post) == Fold(Step(Fold(h, pre), b), post)
  {
    FoldAppend(h, pre + [b], post);
    assert (pre + [b])[..|pre|] == pre;
  }

  /** Streams that differ in exactly one byte never collide. */
  lemma {:induction false} OneByteChangesTheHash(h: nat, a: Bytes, b: Bytes, at: nat)
    requires h < M && |a| == |b| && at < |a| && a[at] != b[at]
    requires forall i :: 0 <= i < |a| && i != at ==> a[i] == b[i]
    ensures Fold(h, a) != Fold(h, b)
  {
    var pre, post := a[..at], a[at + 1..];
    assert a == pre + [a[at]] + post && b == pre + [b[at]] + post;
    FoldAt(h, pre, a[at], post);
    FoldAt(h, pre, b[at], post);
    FoldFits(h, pre);
    if Fold(h, a) == Fold(h, b) {
      FoldKeepsStates(Step(Fold(h, pre), a[at]), Step(Fold(h, pre), b[at]), post);
      StepSeparatesBytes(Fold(h, pre), a[at], b[at]);
    }
  }

  // ---------- Framing ----------

  /** `to_le_bytes`, `k` of them. */
  function LeBytes(n: nat, k: nat): (s: Bytes)
    ensures |s| == k
  {
    if k == 0 then [] else [(n % 256) as byte] + LeBytes(n / 256, k - 1)
  }

  function LeValue(s: Bytes): nat {
    if s == [] then 0 else s[0] as nat + 256 * LeValue(s[1..])
  }

  function Pow256(k: nat): nat {
    if k == 0 then 1 else 256 * Pow256(k - 1)
  }

  lemma {:induction false} LeRoundTrip(n: nat, k: nat)
    requires n < Pow256(k)
    ensures LeValue(LeBytes(n, k)) == n
  {
    if k > 0 {
      LeRoundTrip(n / 256, k - 1);
      assert LeBytes(n, k)[1..] == LeBytes(n / 256, k - 1);
    }
  }

  lemma {:induction false} Pow256Is()
    ensures Pow256(8) == M
  {
  }

  /** `(len as u64).to_le_bytes()`: the low eight bytes. */
  function Length(n: nat): (s: Bytes)
    ensures |s| == 8
  {
    LeBytes(n, WIDTH)
  }

  /** The bytes `hash_bytes` feeds: a 64-bit length, then the bytes. */
  function Frame(b: Bytes): Bytes {
    Length(|b|) + b
  }

  function Frames(fields: seq<Bytes>): Bytes {
    if fields == [] then [] else Frame(fields[0]) + Frames(fields[1..])
  }

  datatype Split = Malformed | Fields(value: seq<Bytes>)

  /** Reads frames back until the stream is used up. */
  function Unframe(s: Bytes): Split
    decreases |s|
  {
    if s == [] then Fields([])
    else if |s| < 8 || |s| < 8 + LeValue(s[..8]) then Malformed
    else
      var n := LeValue(s[..8]);
      match Unframe(s[8 + n..])
      case Malformed => Malformed
      case Fields(rest) => Fields([s[8..8 + n]] + rest)
  }

  predicate Addressable(fields: seq<Bytes>) {
    forall i :: 0 <= i < |fields| ==> |fields[i]| < M
  }

  lemma {:induction false} FrameHead(b: Bytes, rest: Bytes)
    requires |b| < M
    ensures var s := Frame(b) + rest;
            |s| >= 8 + |b| && LeValue(s[..8]) == |b| && s[8..8 + |b|] == b && s[8 + |b|..] == rest
  {
    var s := Frame(b) + rest;
    Pow256Is();
    LeRoundTrip(|b|, 8);
    assert s[..8] == Length(|b|);
  }

  /** The framing is uniquely decodable. */
  lemma {:induction false} UnframeFrames(fields: seq<Bytes>)
    requires Addressable(fields)
    ensures Unframe(Frames(fields)) == Fields(fields)
    decreases |fields|
  {
    if fields != [] {
      UnframeFrames(fields[1..]);
      FrameHead(fields[0], Frames(fields[1..]));
      assert fields == [fields[0]] + fields[1..];
    }
  }

  // ---------- Sources ----------

  datatype Source = Source(path: Bytes, content: Bytes)

  function FieldsOf(sources: seq<Source>): seq<Bytes> {
    if sources == [] then [] else [sources[0].path, sources[0].content] + FieldsOf(sources[1..])
  }

  function Stream(sources: seq<Source>): Bytes {
    Frames(FieldsOf(sources))
  }

  lemma {:induction false} FieldsAreInjective(a: seq<Source>, b: seq<Source>)
    requires FieldsOf(a) == FieldsOf(b)
    ensures a == b
    decreases |a|
  {
    if a == [] || b == [] {
      assert |FieldsOf(a)| == 0 <==> a == [];
      assert |FieldsOf(b)| == 0 <==> b == [];
    } else {
      var fa, fb := FieldsOf(a), FieldsOf(b);
      assert fa[0] == a[0].path && fa[1] == a[0].content && fa[2..] == FieldsOf(a[1..]);
      assert fb[0] == b[0].path && fb[1] == b[0].content && fb[2..] == FieldsOf(b[1..]);
      FieldsAreInjective(a[1..], b[1..]);
      assert a == [a[0]] + a[1..] && b == [b[0]] + b[1..];
    }
  }

  /** Equal hashed streams come from the same paths and contents in the same order. */
  lemma {:induction false} StreamsAreInjective(a: seq<Source>, b: seq<Source>)
    requires Addressable(FieldsOf(a)) && Addressable(FieldsOf(b)) && Stream(a) == Stream(b)
    ensures a == b
  {
    UnframeFrames(FieldsOf(a));
    UnframeFrames(FieldsOf(b));
    FieldsAreInjective(a, b);
  }

  lemma {:induction false} Regroup(a: Bytes, b: Bytes, c: Bytes, d: Bytes, e: Bytes)
    ensures a + (b + c) == (a + b) + c
    ensures a + (b + (c + d)) + e == a + b + c + d + e
  {
  }

  lemma {:induction false} FramesAppend(a: seq<Bytes>, b: seq<Bytes>)
    ensures Frames(a + b) == Frames(a) + Frames(b)
    decreases |a|
  {
    if a == [] {
      assert a + b == b;
    } else {
      FramesAppend(a[1..], b);
      assert (a + b)[1..] == a[1..] + b;
      Regroup(Frame(a[0]), Frames(a[1..]), Frames(b), [], []);
    }
  }

  lemma {:induction false} FieldsAppend(a: seq<Source>, b: seq<Source>)
    ensures FieldsOf(a + b) == FieldsOf(a) + FieldsOf(b)
    decreases |a|
  {
    if a == [] {
      assert a + b == b;
    } else {
      FieldsAppend(a[1..], b);
      assert (a + b)[1..] == a[1..] + b;
    }
  }

  lemma {:induction false} StreamAppend(a: seq<Source>, b: seq<Source>)
    ensures Stream(a + b) == Stream(a) + Stream(b)
  {
    FieldsAppend(a, b);
    FramesAppend(FieldsOf(a), FieldsOf(b));
  }

  lemma {:induction false} StreamOfOne(f: Source)
    ensures Stream([f]) == Frame(f.path) + Frame(f.content)
  {
    assert FieldsOf([f]) == [f.path, f.content];
    assert Frames([f.path, f.content]) == Frame(f.path) + Frames([f.content]);
    assert Frames([f.content]) == Frame(f.content) + Frames([]);
  }

  /** Changing one byte of one file always changes the fingerprint. */
  lemma {:induction false} EditChangesTheHash(pre: seq<Source>, f: Source, post: seq<Source>, at: nat, b: byte)
    requires at < |f.content| && f.content[at] != b
    ensures Fold(OFFSET, Stream(pre + [f] + post))
         != Fold(OFFSET, Stream(pre + [f.(content := f.content[at := b])] + post))
  {
    var g := f.(content := f.content[at := b]);
    var head, tail := Stream(pre) + Frame(f.path) + Length(|f.content|), Stream(post);
    Surround(pre, f, post);
    Surround(pre, g, post);
    var x, y := head + f.content + tail, head + g.content + tail;
    assert x[|head| + at] == f.content[at] && y[|head| + at] == b;
    OneByteChangesTheHash(OFFSET, x, y, |head| + at);
  }

  lemma {:induction false} Surround(pre: seq<Source>, f: Source, post: seq<Source>)
    ensures Stream(pre + [f] + post) == Stream(pre) + Frame(f.path) + Length(|f.content|) + f.content + Stream(post)
  {
    StreamAppend(pre + [f], post);
    StreamAppend(pre, [f]);
    StreamOfOne(f);
    Regroup(Stream(pre), Frame(f.path), Length(|f.content|), f.content, Stream(post));
  }
}
