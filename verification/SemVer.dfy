/** Release versions: the grammar `VERSION` matches, the ordering key of `version_precedence`
    and item 11 of Semantic Versioning 2.0.0, which it is meant to implement. */
module SemVer {
  import opened Records
  import Texts

  // ---------- The grammar ----------

  predicate IsDigit(c: char) {
    '0' <= c <= '9'
  }

  predicate IsWord(c: char) {
    IsDigit(c) || 'a' <= c <= 'z' || 'A' <= c <= 'Z' || c == '-'
  }

  predicate Digits(s: string) {
    s != "" && forall i :: 0 <= i < |s| ==> IsDigit(s[i])
  }

  /** `0|[1-9][0-9]*`. */
  predicate Number(s: string) {
    Digits(s) && (|s| > 1 ==> s[0] != '0')
  }

  /** `[0-9]*[A-Za-z-][0-9A-Za-z-]*`. */
  predicate Label(s: string) {
    exists k :: 0 <= k < |s| && (forall i :: 0 <= i < k ==> IsDigit(s[i]))
             && !IsDigit(s[k]) && forall i :: k <= i < |s| ==> IsWord(s[i])
  }

  predicate Identifier(s: string) {
    Number(s) || Label(s)
  }

  predicate Identifiers(parts: seq<string>) {
    parts != [] && forall i :: 0 <= i < |parts| ==> Identifier(parts[i])
  }

  /** The groups of a match. */
  datatype Groups = Groups(major: string, minor: string, patch: string, prerelease: Option<seq<string>>)

  predicate WellFormed(g: Groups) {
    && Number(g.major) && Number(g.minor) && Number(g.patch)
    && (g.prerelease.Some? ==> Identifiers(g.prerelease.value))
  }

  /** The text of a match. */
  function Text(g: Groups): string {
    Core(g) + Suffix(g)
  }

  function Core(g: Groups): string {
    Texts.Join([g.major, g.minor, g.patch], '.')
  }

  function Suffix(g: Groups): string {
    if g.prerelease.None? then "" else ['-'] + Texts.Join(g.prerelease.value, '.')
  }

  // ---------- Matching ----------

  function Before(s: string, c: char): (k: nat)
    ensures k <= |s| && c !in s[..k] && (k < |s| ==> s[k] == c)
  {
    if s == "" || s[0] == c then 0
    else
      var k := 1 + Before(s[1..], c);
      assert s[..k] == [s[0]] + s[1..][..k - 1];
      k
  }

  /** `VERSION.fullmatch`: the core ends at the first hyphen, both sides split at dots. */
  function Match(s: string): Option<Groups> {
    var k := Before(s, '-');
    var core := Texts.Split(s[..k], '.');
    if |core| != 3 then None
    else
      var g := Groups(core[0], core[1], core[2],
                      if k == |s| then None else Some(Texts.Split(s[k + 1..], '.')));
      if WellFormed(g) then Some(g) else None
  }

  /** A match spells the whole input. */
  lemma {:induction false} MatchSpells(s: string)
    requires Match(s).Some?
    ensures WellFormed(Match(s).value) && Text(Match(s).value) == s
  {
    var k := Before(s, '-');
    var g := Match(s).value;
    ThreeParts(s[..k]);
    assert Core(g) == s[..k];
    if k < |s| {
      Texts.JoinSplit(s[k + 1..], '.');
      assert Suffix(g) == ['-'] + s[k + 1..];
      assert s == s[..k] + (['-'] + s[k + 1..]);
    } else {
      assert s == s[..k] + "";
    }
  }

  lemma {:induction false} ThreeParts(s: string)
    requires |Texts.Split(s, '.')| == 3
    ensures var p := Texts.Split(s, '.'); Texts.Join([p[0], p[1], p[2]], '.') == s
  {
    var p := Texts.Split(s, '.');
    Texts.JoinSplit(s, '.');
    assert p == [p[0], p[1], p[2]];
  }

  lemma {:induction false} NumbersArePlain(s: string)
    requires Number(s)
    ensures '.' !in s && '-' !in s
  {
  }

  lemma {:induction false} IdentifiersArePlain(s: string)
    requires Identifier(s)
    ensures '.' !in s && s != "" && forall i :: 0 <= i < |s| ==> IsWord(s[i])
  {
  }

  lemma {:induction false} BeforeIs(a: string, c: char, b: string)
    requires c !in a
    ensures Before(a + [c] + b, c) == |a| && Before(a, c) == |a|
    decreases |a|
  {
    if a == "" {
      assert a + [c] + b == [c] + b;
    } else {
      assert a[0] in a;
      BeforeIs(a[1..], c, b);
      assert (a + [c] + b)[1..] == a[1..] + [c] + b;
    }
  }

  lemma {:induction false} CoreHasNoHyphen(g: Groups)
    requires WellFormed(g)
    ensures '-' !in Core(g) && Texts.Split(Core(g), '.') == [g.major, g.minor, g.patch]
  {
    NumbersArePlain(g.major);
    NumbersArePlain(g.minor);
    NumbersArePlain(g.patch);
    Texts.SplitJoin([g.major, g.minor, g.patch], '.');
    assert [g.major, g.minor, g.patch][1..] == [g.minor, g.patch];
    assert [g.minor, g.patch][1..] == [g.patch];
    assert Texts.Join([g.minor, g.patch], '.') == g.minor + ['.'] + Texts.Join([g.patch], '.');
  }

  lemma {:induction false} IdentifiersSplit(parts: seq<string>)
    requires Identifiers(parts)
    ensures Texts.Split(Texts.Join(parts, '.'), '.') == parts
  {
    forall i | 0 <= i < |parts|
      ensures '.' !in parts[i]
    {
      IdentifiersArePlain(parts[i]);
    }
    Texts.SplitJoin(parts, '.');
  }

  /** What the matcher finds in a text whose two sides are known. */
  lemma {:induction false} MatchOf(s: string, g: Groups)
    requires WellFormed(g) && Texts.Split(s[..Before(s, '-')], '.') == [g.major, g.minor, g.patch]
    requires if Before(s, '-') == |s| then g.prerelease.None?
             else g.prerelease == Some(Texts.Split(s[Before(s, '-') + 1..], '.'))
    ensures Match(s) == Some(g)
  {
  }

  /** Every spelling of well-formed groups is matched, with exactly those groups. */
  lemma {:induction false} TextMatches(g: Groups)
    requires WellFormed(g)
    ensures Match(Text(g)) == Some(g)
  {
    var s, core := Text(g), Core(g);
    CoreHasNoHyphen(g);
    if g.prerelease.None? {
      assert s == core;
      BeforeIs(core, '-', "");
      assert s[..|s|] == core;
    } else {
      var rest := Texts.Join(g.prerelease.value, '.');
      assert s == core + ['-'] + rest;
      BeforeIs(core, '-', rest);
      assert s[..|core|] == core && s[|core| + 1..] == rest;
      IdentifiersSplit(g.prerelease.value);
    }
    MatchOf(s, g);
  }

  /** `fullmatch` succeeds exactly on the texts of the grammar, and in one way only. */
  lemma {:induction false} MatchIsTheGrammar(s: string)
    ensures Match(s).Some? <==> exists g :: WellFormed(g) && Text(g) == s
    ensures forall g, g' :: WellFormed(g) && WellFormed(g') && Text(g) == Text(g') ==> g == g'
  {
    if Match(s).Some? { MatchSpells(s); }
    forall g | WellFormed(g)
      ensures Match(Text(g)) == Some(g)
    {
      TextMatches(g);
    }
  }

  // ---------- Numbers ----------

  function Digit(c: char): nat
    requires IsDigit(c)
  {
    c as nat - '0' as nat
  }

  /** `int(part)`. */
  function Value(s: string): nat
    requires forall i :: 0 <= i < |s| ==> IsDigit(s[i])
  {
    if s == "" then 0 else 10 * Value(s[..|s| - 1]) + Digit(s[|s| - 1])
  }

  function Decimal(n: nat): string {
    if n < 10 then ['0' + n as char] else Decimal(n / 10) + ['0' + (n % 10) as char]
  }

  lemma {:induction false} PositiveValue(s: string)
    requires Digits(s) && s[0] != '0'
    ensures Value(s) > 0
    decreases |s|
  {
    if |s| > 1 { PositiveValue(s[..|s| - 1]); }
  }

  /** A canonical number is the print of its value. */
  lemma {:induction false} DecimalOfValue(s: string)
    requires Number(s)
    ensures Decimal(Value(s)) == s
    decreases |s|
  {
    var front, last := s[..|s| - 1], s[|s| - 1];
    assert s == front + [last];
    if |s| == 1 {
      assert Value(front) == 0;
    } else {
      PositiveValue(front);
      DecimalOfValue(front);
      assert Value(s) / 10 == Value(front) && Value(s) % 10 == Digit(last);
    }
  }

  // ---------- The key ----------

  datatype Ident = Numeric(value: nat) | Alpha(text: string)

  datatype Key = Key(major: nat, minor: nat, patch: nat, release: bool, identifiers: seq<Ident>)

  function IdentOf(part: string): Ident {
    if Digits(part) then Numeric(Value(part)) else Alpha(part)
  }

  function IdentsOf(parts: seq<string>): (r: seq<Ident>)
    ensures |r| == |parts| && forall i :: 0 <= i < |parts| ==> r[i] == IdentOf(parts[i])
  {
    seq(|parts|, i requires 0 <= i < |parts| => IdentOf(parts[i]))
  }

  function KeyOf(g: Groups): Key
    requires WellFormed(g)
  {
    Key(Value(g.major), Value(g.minor), Value(g.patch), g.prerelease.None?,
        if g.prerelease.Some? then IdentsOf(g.prerelease.value) else [])
  }

  const U64_MAX: nat := 0xffff_ffff_ffff_ffff

  predicate Fits(g: Groups)
    requires WellFormed(g)
  {
    Value(g.major) <= U64_MAX && Value(g.minor) <= U64_MAX && Value(g.patch) <= U64_MAX
  }

  /** `version_precedence`; a refusal is a ValueError. */
  function VersionPrecedence(s: string): Option<Key> {
    var m := Match(s);
    if m.None? then None else if !Fits(m.value) then None else Some(KeyOf(m.value))
  }

  // ---------- The order of keys ----------

  predicate TextLess(a: string, b: string) {
    if b == "" then false
    else if a == "" then true
    else a[0] < b[0] || (a[0] == b[0] && TextLess(a[1..], b[1..]))
  }

  /** The pairs `(0, int)` and `(1, str)`. */
  predicate IdentLess(a: Ident, b: Ident) {
    match (a, b)
    case (Numeric(x), Numeric(y)) => x < y
    case (Numeric(_), Alpha(_)) => true
    case (Alpha(_), Numeric(_)) => false
    case (Alpha(x), Alpha(y)) => TextLess(x, y)
  }

  /** Tuple comparison. */
  predicate IdentsLess(a: seq<Ident>, b: seq<Ident>) {
    if b == [] then false
    else if a == [] then true
    else IdentLess(a[0], b[0]) || (a[0] == b[0] && IdentsLess(a[1..], b[1..]))
  }

  predicate KeyLess(a: Key, b: Key) {
    a.major < b.major || (a.major == b.major &&
      (a.minor < b.minor || (a.minor == b.minor &&
        (a.patch < b.patch || (a.patch == b.patch &&
          ((!a.release && b.release) || (a.release == b.release && IdentsLess(a.identifiers, b.identifiers))))))))
  }

  // ---------- Item 11 of Semantic Versioning 2.0.0 ----------

  predicate LessAt(a: string, b: string, k: nat) {
    k < |a| && k < |b| && a[..k] == b[..k] && a[k] < b[k]
  }

  /** Lexically in ASCII order: at the first difference, or by being a proper prefix. */
  ghost predicate LexicallyBefore(a: string, b: string) {
    || (exists k: nat :: LessAt(a, b, k))
    || (|a| < |b| && a == b[..|a|])
  }

  /** 11.4.1 to 11.4.3, on the identifiers as written. */
  ghost predicate FieldBefore(a: string, b: string) {
    || (Digits(a) && Digits(b) && Value(a) < Value(b))
    || (!Digits(a) && !Digits(b) && LexicallyBefore(a, b))
    || (Digits(a) && !Digits(b))
  }

  ghost predicate FieldBeforeAt(a: seq<string>, b: seq<string>, k: nat) {
    k < |a| && k < |b| && a[..k] == b[..k] && FieldBefore(a[k], b[k])
  }

  /** 11.4: left to right until a difference; 11.4.4: more fields if all preceding are equal. */
  ghost predicate PrereleaseBefore(a: seq<string>, b: seq<string>) {
    || (exists k: nat :: FieldBeforeAt(a, b, k))
    || (|a| < |b| && a == b[..|a|])
  }

  function Numbers(g: Groups): seq<nat>
    requires WellFormed(g)
  {
    [Value(g.major), Value(g.minor), Value(g.patch)]
  }

  /** 11.2 and 11.3. */
  ghost predicate Precedes(a: Groups, b: Groups)
    requires WellFormed(a) && WellFormed(b)
  {
    || (exists k :: 0 <= k < 3 && Numbers(a)[..k] == Numbers(b)[..k] && Numbers(a)[k] < Numbers(b)[k])
    || (Numbers(a) == Numbers(b) && a.prerelease.Some? && b.prerelease.None?)
    || (Numbers(a) == Numbers(b) && a.prerelease.Some? && b.prerelease.Some?
        && PrereleaseBefore(a.prerelease.value, b.prerelease.value))
  }

  // ---------- A strict total order ----------

  lemma {:induction false} TextLessIsTotal(a: string, b: string)
    ensures !(TextLess(a, b) && TextLess(b, a))
    ensures a == b <==> !TextLess(a, b) && !TextLess(b, a)
    decreases |a|
  {
    if a != "" && b != "" && a[0] == b[0] {
      TextLessIsTotal(a[1..], b[1..]);
      assert a == [a[0]] + a[1..] && b == [b[0]] + b[1..];
    }
  }

  lemma {:induction false} TextLessIsTransitive(a: string, b: string, c: string)
    requires TextLess(a, b) && TextLess(b, c)
    ensures TextLess(a, c)
    decreases |a|
  {
    if a != "" && a[0] == b[0] == c[0] { TextLessIsTransitive(a[1..], b[1..], c[1..]); }
  }

  lemma {:induction false} IdentLessIsTotal(a: Ident, b: Ident)
    ensures !(IdentLess(a, b) && IdentLess(b, a))
    ensures a == b <==> !IdentLess(a, b) && !IdentLess(b, a)
  {
    if a.Alpha? && b.Alpha? { TextLessIsTotal(a.text, b.text); }
  }

  lemma {:induction false} IdentLessIsTransitive(a: Ident, b: Ident, c: Ident)
    requires IdentLess(a, b) && IdentLess(b, c)
    ensures IdentLess(a, c)
  {
    if a.Alpha? { TextLessIsTransitive(a.text, b.text, c.text); }
  }

  lemma {:induction false} IdentsLessIsTotal(a: seq<Ident>, b: seq<Ident>)
    ensures !(IdentsLess(a, b) && IdentsLess(b, a))
    ensures a == b <==> !IdentsLess(a, b) && !IdentsLess(b, a)
    decreases |a|
  {
    if a != [] && b != [] {
      IdentLessIsTotal(a[0], b[0]);
      IdentsLessIsTotal(a[1..], b[1..]);
      assert a == [a[0]] + a[1..] && b == [b[0]] + b[1..];
    }
  }

  lemma {:induction false} IdentsLessIsTransitive(a: seq<Ident>, b: seq<Ident>, c: seq<Ident>)
    requires IdentsLess(a, b) && IdentsLess(b, c)
    ensures IdentsLess(a, c)
    decreases |a|
  {
    if a != [] {
      if IdentLess(a[0], b[0]) && IdentLess(b[0], c[0]) {
        IdentLessIsTransitive(a[0], b[0], c[0]);
      } else if a[0] == b[0] == c[0] {
        IdentLessIsTotal(a[0], b[0]);
        IdentLessIsTotal(b[0], c[0]);
        IdentsLessIsTransitive(a[1..], b[1..], c[1..]);
      }
    }
  }

  /** The key order is a strict total order. */
  lemma {:induction false} KeyLessIsTotal(a: Key, b: Key)
    ensures !(KeyLess(a, b) && KeyLess(b, a))
    ensures a == b <==> !KeyLess(a, b) && !KeyLess(b, a)
  {
    IdentsLessIsTotal(a.identifiers, b.identifiers);
  }

  lemma {:induction false} KeyLessIsTransitive(a: Key, b: Key, c: Key)
    requires KeyLess(a, b) && KeyLess(b, c)
    ensures KeyLess(a, c)
  {
    if IdentsLess(a.identifiers, b.identifiers) && IdentsLess(b.identifiers, c.identifiers) {
      IdentsLessIsTransitive(a.identifiers, b.identifiers, c.identifiers);
    }
  }

  // ---------- Agreement with item 11 ----------

  lemma {:induction false} TextLessIsLexical(a: string, b: string)
    ensures TextLess(a, b) <==> LexicallyBefore(a, b)
    decreases |a|
  {
    if a != "" && b != "" {
      TextLessIsLexical(a[1..], b[1..]);
      assert a == [a[0]] + a[1..] && b == [b[0]] + b[1..];
      if a[0] == b[0] { LexicalTail(a, b); }
      if a[0] < b[0] { assert LessAt(a, b, 0); }
    }
  }

  /** Equal first characters do not matter. */
  lemma {:induction false} LexicalTail(a: string, b: string)
    requires a != "" && b != "" && a[0] == b[0]
    ensures LexicallyBefore(a, b) <==> LexicallyBefore(a[1..], b[1..])
  {
    if k: nat :| LessAt(a, b, k) {
      SameTails(a, b, k);
      assert LessAt(a[1..], b[1..], k - 1);
    }
    if k: nat :| LessAt(a[1..], b[1..], k) {
      SameTails(a, b, k + 1);
      assert LessAt(a, b, k + 1);
    }
    PrefixTail(a, b);
  }

  /** Equal beginnings are equal first elements and equal beginnings of the rest. */
  lemma {:induction false} SameTails<T>(a: seq<T>, b: seq<T>, k: nat)
    requires 0 < k <= |a| && k <= |b| && a[0] == b[0]
    ensures a[..k] == b[..k] <==> a[1..][..k - 1] == b[1..][..k - 1]
  {
    var x, y := a[1..][..k - 1], b[1..][..k - 1];
    assert a[..k] == [a[0]] + x && b[..k] == [b[0]] + y;
    assert a[..k][1..] == x && b[..k][1..] == y;
  }

  lemma {:induction false} PrefixTail<T>(a: seq<T>, b: seq<T>)
    requires a != [] && b != [] && a[0] == b[0]
    ensures |a| < |b| && a == b[..|a|] <==> |a[1..]| < |b[1..]| && a[1..] == b[1..][..|a[1..]|]
  {
    var x, y := a[1..], b[1..];
    assert a == [a[0]] + x && b == [a[0]] + y;
    if |a| < |b| && a == b[..|a|] { assert x == b[..|a|][1..] == y[..|x|]; }
    if |x| < |y| && x == y[..|x|] { assert a == [a[0]] + y[..|x|] == b[..|a|]; }
  }

  /** Identifiers are told apart by their ordering element. */
  lemma {:induction false} IdentIsInjective(a: string, b: string)
    requires Identifier(a) && Identifier(b) && IdentOf(a) == IdentOf(b)
    ensures a == b
  {
    LabelIsNoNumber(a);
    LabelIsNoNumber(b);
    if Digits(a) {
      DecimalOfValue(a);
      DecimalOfValue(b);
    }
  }

  lemma {:induction false} LabelIsNoNumber(s: string)
    requires Identifier(s)
    ensures Digits(s) <==> Number(s)
  {
  }

  lemma {:induction false} IdentAgrees(a: string, b: string)
    ensures IdentLess(IdentOf(a), IdentOf(b)) <==> FieldBefore(a, b)
  {
    if !Digits(a) && !Digits(b) { TextLessIsLexical(a, b); }
  }

  lemma {:induction false} PrereleaseTail(a: seq<string>, b: seq<string>)
    requires a != [] && b != [] && a[0] == b[0] && !FieldBefore(a[0], b[0])
    ensures PrereleaseBefore(a, b) <==> PrereleaseBefore(a[1..], b[1..])
  {
    if k: nat :| FieldBeforeAt(a, b, k) {
      SameTails(a, b, k);
      assert FieldBeforeAt(a[1..], b[1..], k - 1);
    }
    if k: nat :| FieldBeforeAt(a[1..], b[1..], k) {
      SameTails(a, b, k + 1);
      assert FieldBeforeAt(a, b, k + 1);
    }
    PrefixTail(a, b);
  }

  lemma {:induction false} IdentsAgree(a: seq<string>, b: seq<string>)
    requires forall i :: 0 <= i < |a| ==> Identifier(a[i])
    requires forall i :: 0 <= i < |b| ==> Identifier(b[i])
    ensures IdentsLess(IdentsOf(a), IdentsOf(b)) <==> PrereleaseBefore(a, b)
    decreases |a|
  {
    if a != [] && b != [] {
      assert IdentsOf(a)[1..] == IdentsOf(a[1..]) && IdentsOf(b)[1..] == IdentsOf(b[1..]);
      IdentAgrees(a[0], b[0]);
      if FieldBefore(a[0], b[0]) {
        assert FieldBeforeAt(a, b, 0);
      } else if a[0] == b[0] {
        IdentsAgree(a[1..], b[1..]);
        PrereleaseTail(a, b);
      } else {
        DifferentFirst(a, b);
        if IdentOf(a[0]) == IdentOf(b[0]) { IdentIsInjective(a[0], b[0]); }
      }
    }
  }

  lemma {:induction false} DifferentFirst(a: seq<string>, b: seq<string>)
    requires a != [] && b != [] && a[0] != b[0] && !FieldBefore(a[0], b[0])
    ensures !PrereleaseBefore(a, b)
  {
  }

  lemma {:induction false} NumbersAgree(a: Groups, b: Groups)
    requires WellFormed(a) && WellFormed(b)
    ensures (exists k :: 0 <= k < 3 && Numbers(a)[..k] == Numbers(b)[..k] && Numbers(a)[k] < Numbers(b)[k]) <==>
            (Value(a.major) < Value(b.major) || (Value(a.major) == Value(b.major) &&
              (Value(a.minor) < Value(b.minor)
               || (Value(a.minor) == Value(b.minor) && Value(a.patch) < Value(b.patch)))))
  {
    var x, y := Numbers(a), Numbers(b);
    if k :| 0 <= k < 3 && x[..k] == y[..k] && x[k] < y[k] {
      if k > 0 { assert x[..k][0] == y[..k][0]; }
      if k > 1 { assert x[..k][1] == y[..k][1]; }
    }
    if x[0] < y[0] { assert x[..0] == y[..0]; }
    if x[0] == y[0] && x[1] < y[1] { assert x[..1] == y[..1]; }
    if x[0] == y[0] && x[1] == y[1] && x[2] < y[2] { assert x[..2] == y[..2]; }
  }

  /** On all well-formed versions the key order is item 11. */
  lemma {:induction false} KeyAgreesWithItem11(a: Groups, b: Groups)
    requires WellFormed(a) && WellFormed(b)
    ensures KeyLess(KeyOf(a), KeyOf(b)) <==> Precedes(a, b)
  {
    NumbersAgree(a, b);
    if a.prerelease.Some? && b.prerelease.Some? {
      IdentsAgree(a.prerelease.value, b.prerelease.value);
    }
  }

  // ---------- Printing ----------

  function PrintIdent(i: Ident): string {
    match i case Numeric(n) => Decimal(n) case Alpha(t) => t
  }

  function PrintIdents(ids: seq<Ident>): seq<string> {
    seq(|ids|, i requires 0 <= i < |ids| => PrintIdent(ids[i]))
  }

  /** The version text a key stands for. */
  function Print(k: Key): string {
    Text(Groups(Decimal(k.major), Decimal(k.minor), Decimal(k.patch),
                if k.release then None else Some(PrintIdents(k.identifiers))))
  }

  lemma {:induction false} PrintIdentOf(part: string)
    requires Identifier(part)
    ensures PrintIdent(IdentOf(part)) == part
  {
    LabelIsNoNumber(part);
    if Digits(part) { DecimalOfValue(part); }
  }

  /** Printing the key gives the version text back. */
  lemma {:induction false} PrintOfKey(s: string)
    requires VersionPrecedence(s).Some?
    ensures Print(VersionPrecedence(s).value) == s
  {
    MatchSpells(s);
    var g := Match(s).value;
    DecimalOfValue(g.major);
    DecimalOfValue(g.minor);
    DecimalOfValue(g.patch);
    if g.prerelease.Some? {
      var parts := g.prerelease.value;
      forall i | 0 <= i < |parts|
        ensures PrintIdent(IdentsOf(parts)[i]) == parts[i]
      {
        PrintIdentOf(parts[i]);
      }
      assert PrintIdents(IdentsOf(parts)) == parts;
    }
  }

  /** On accepted texts: exactly one of before, after and the same text; and before is item 11. */
  lemma {:induction false} VersionsAreTotallyOrdered(s: string, t: string)
    requires VersionPrecedence(s).Some? && VersionPrecedence(t).Some?
    ensures var a, b := VersionPrecedence(s).value, VersionPrecedence(t).value;
            && (KeyLess(a, b) || KeyLess(b, a) || s == t)
            && !(KeyLess(a, b) && KeyLess(b, a))
            && (a == b <==> s == t)
            && (KeyLess(a, b) <==> Precedes(Match(s).value, Match(t).value))
  {
    PrintOfKey(s);
    PrintOfKey(t);
    KeyLessIsTotal(VersionPrecedence(s).value, VersionPrecedence(t).value);
    KeyAgreesWithItem11(Match(s).value, Match(t).value);
  }

  // ---------- validate_version_range ----------

  /** `validate_version_range`: refuses unaccepted texts and a floor above the version. */
  function ValidRange(version: string, floor: string): bool {
    && VersionPrecedence(floor).Some? && VersionPrecedence(version).Some?
    && !KeyLess(VersionPrecedence(version).value, VersionPrecedence(floor).value)
  }

  /** The range is valid exactly when the floor is the version or precedes it, and valid
      ranges chain. */
  lemma {:induction false} RangesChain(version: string, floor: string, lower: string)
    ensures ValidRange(version, floor) <==>
              && VersionPrecedence(version).Some? && VersionPrecedence(floor).Some?
              && (floor == version || Precedes(Match(floor).value, Match(version).value))
    ensures ValidRange(version, floor) && ValidRange(floor, lower) ==> ValidRange(version, lower)
  {
    if VersionPrecedence(version).Some? && VersionPrecedence(floor).Some? {
      var v, f := VersionPrecedence(version).value, VersionPrecedence(floor).value;
      VersionsAreTotallyOrdered(floor, version);
      if VersionPrecedence(lower).Some? {
        var l := VersionPrecedence(lower).value;
        KeyLessIsTotal(l, f);
        if KeyLess(v, l) && KeyLess(l, f) { KeyLessIsTransitive(v, l, f); }
      }
    }
  }
}
