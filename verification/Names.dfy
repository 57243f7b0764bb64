/** Archive names: `relative_name`, with the part of `PurePosixPath` it relies on. */
module Names {
  import Texts

  const ROOTS: set<string> := {"control", "relays", "deployment", "database"}
  const MAX_NAME := 1024

  // ---------- PurePosixPath ----------

  /** `str.split("/")`. */
  function Split(s: string): (r: seq<string>)
    ensures |r| >= 1
  {
    Texts.Split(s, '/')
  }

  /** `"/".join(parts)`. */
  function Join(parts: seq<string>): string {
    Texts.Join(parts, '/')
  }

  predicate Kept(part: string) {
    part != "" && part != "."
  }

  function Keep(parts: seq<string>): seq<string> {
    if parts == [] then []
    else if Kept(parts[0]) then [parts[0]] + Keep(parts[1..])
    else Keep(parts[1..])
  }

  predicate IsAbsolute(s: string) {
    s != "" && s[0] == '/'
  }

  /** `path.parts`, for a path that is not absolute. */
  function Parts(s: string): seq<string> {
    Keep(Split(s))
  }

  /** `str(path)`; an absolute path keeps one or two leading slashes. */
  function Text(s: string): string {
    if IsAbsolute(s) then
      (if |s| >= 2 && s[1] == '/' && (|s| == 2 || s[2] != '/') then "//" else "/") + Join(Parts(s))
    else if Parts(s) == [] then "."
    else Join(Parts(s))
  }

  // ---------- relative_name ----------

  predicate Printable(s: string) {
    forall i :: 0 <= i < |s| ==> s[i] as int >= 32
  }

  /** How `relative_name` ends: it returns its argument, or raises one of two exceptions. */
  datatype Ending = Returned | ArchiveError | IndexError

  /** `relative_name`, check by check. `path.parts[0]` is looked up without asking whether
      there is a first part. */
  function RelativeName(s: string): Ending {
    if s == "" || |s| > MAX_NAME || IsAbsolute(s) || Text(s) != s || ".." in Parts(s) then ArchiveError
    else if Parts(s) == [] then IndexError
    else if Parts(s)[0] !in ROOTS || "offline" in Parts(s) || !Printable(s) then ArchiveError
    else Returned
  }

  predicate Accepts(s: string) {
    RelativeName(s).Returned?
  }

  /** The wrong exception is raised for the one name that is canonical and has no parts. */
  lemma {:induction false} IndexErrorIsTheDot(s: string)
    ensures RelativeName(s).IndexError? <==> s == "."
  {
    if s == "." {
      assert Texts.Split(s, '/') == ["."] by { Texts.SplitPlain(s, '/'); }
      assert Keep(["."]) == [];
    }
  }

  // ---------- What acceptance means ----------

  /** A path that needs no interpretation: plain components under an allowlisted root. */
  predicate Plain(parts: seq<string>) {
    && parts != [] && parts[0] in ROOTS
    && forall i :: 0 <= i < |parts| ==>
         && parts[i] != "" && '/' !in parts[i]
         && parts[i] != "." && parts[i] != ".." && parts[i] != "offline"
  }

  lemma {:induction false} SplitJoin(parts: seq<string>)
    requires parts != [] && forall i :: 0 <= i < |parts| ==> '/' !in parts[i]
    ensures Split(Join(parts)) == parts
  {
    Texts.SplitJoin(parts, '/');
  }

  lemma {:induction false} KeepAll(parts: seq<string>)
    requires forall i :: 0 <= i < |parts| ==> Kept(parts[i])
    ensures Keep(parts) == parts
    decreases |parts|
  {
    if parts != [] { KeepAll(parts[1..]); }
  }

  lemma {:induction false} KeepIs(parts: seq<string>)
    ensures forall part :: part in Keep(parts) ==> Kept(part) && part in parts
    decreases |parts|
  {
    if parts != [] { KeepIs(parts[1..]); }
  }

  lemma {:induction false} PartsAreComponents(s: string)
    ensures forall i :: 0 <= i < |Parts(s)| ==> '/' !in Parts(s)[i] && Kept(Parts(s)[i])
  {
    KeepIs(Split(s));
    Texts.PartsArePlain(s, '/');
    forall i | 0 <= i < |Parts(s)|
      ensures '/' !in Parts(s)[i] && Kept(Parts(s)[i])
    {
      assert Parts(s)[i] in Split(s);
    }
  }

  /** The print of plain components reads back as exactly those components. */
  lemma {:induction false} PartsOfJoin(parts: seq<string>)
    requires Plain(parts)
    ensures Parts(Join(parts)) == parts && Text(Join(parts)) == Join(parts) && !IsAbsolute(Join(parts))
            && Join(parts) != ""
  {
    SplitJoin(parts);
    KeepAll(parts);
    assert Join(parts)[0] == parts[0][0];
  }

  /** `relative_name` accepts a string exactly when it is the canonical print of plain
      components, short enough and without control characters. */
  lemma {:induction false} AcceptsCanonicalNames(s: string)
    ensures Accepts(s) ==> Plain(Parts(s)) && s == Join(Parts(s))
    ensures (exists parts :: Plain(parts) && s == Join(parts)) && |s| <= MAX_NAME && Printable(s) ==> Accepts(s)
  {
    PartsAreComponents(s);
    if Accepts(s) {
      forall i | 0 <= i < |Parts(s)|
        ensures Parts(s)[i] != ".." && Parts(s)[i] != "offline"
      {
        assert Parts(s)[i] in Parts(s);
      }
    }
    if parts :| Plain(parts) && s == Join(parts) {
      PartsOfJoin(parts);
    }
  }

  /** Distinct accepted names are distinct component paths, so no two entries of an archive
      can name the same file. */
  lemma {:induction false} NamesAreInjective(s: string, t: string)
    requires Accepts(s) && Accepts(t) && Parts(s) == Parts(t)
    ensures s == t
  {
  }

  // ---------- Joining below a root ----------

  /** Where the kernel ends up following `parts` from `at`. */
  function Walk(at: seq<string>, parts: seq<string>): seq<string>
    decreases |parts|
  {
    if parts == [] then at
    else if parts[0] == "" || parts[0] == "." then Walk(at, parts[1..])
    else if parts[0] == ".." then Walk(if at == [] then [] else at[..|at| - 1], parts[1..])
    else Walk(at + [parts[0]], parts[1..])
  }

  lemma {:induction false} WalkPlain(at: seq<string>, parts: seq<string>)
    requires forall i :: 0 <= i < |parts| ==> Kept(parts[i]) && parts[i] != ".."
    ensures Walk(at, parts) == at + parts
    decreases |parts|
  {
    if parts != [] {
      WalkPlain(at + [parts[0]], parts[1..]);
      assert at + [parts[0]] + parts[1..] == at + parts;
    }
  }

  /** Joining an accepted name to any root stays strictly below it, under an allowlisted
      first component, and never visits an `offline` directory below the root. */
  lemma {:induction false} JoinStaysBelow(root: seq<string>, s: string)
    requires Accepts(s)
    ensures var target := Walk(root, Split(s));
            && |target| > |root| && target[..|root|] == root
            && target[|root|] in ROOTS
            && "offline" !in target[|root|..]
            && target == root + Parts(s)
  {
    AcceptsCanonicalNames(s);
    SplitJoin(Parts(s));
    WalkPlain(root, Parts(s));
    assert (root + Parts(s))[|root|..] == Parts(s);
  }
}
