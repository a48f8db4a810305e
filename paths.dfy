/** Models of the two `pathlib.PurePosixPath` properties the front ends use:
    `name` (the final path component) and `suffix` (its extension). */
module Paths {
  import opened Wrappers
  import opened Strings

  predicate NoSlash(s: string) {
    forall i :: 0 <= i < |s| ==> s[i] != '/'
  }

  predicate NoDot(s: string) {
    forall i :: 0 <= i < |s| ==> s[i] != '.'
  }

  /** The characters after the last `/` of `p`. */
  function LastSegment(p: string): (r: string)
    ensures IsSuffix(r, p) && NoSlash(r)
    ensures |r| < |p| ==> p[|p| - |r| - 1] == '/'
    decreases |p|
  {
    if p == [] || p[|p| - 1] == '/' then []
    else LastSegment(p[..|p| - 1]) + [p[|p| - 1]]
  }

  /** `PurePosixPath(p).name`: the last component of `p`, where trailing
      slashes and `.` components do not count as components. */
  function Name(p: string): (r: string)
    ensures NoSlash(r)
    decreases |p|
  {
    if p == [] then []
    else if p[|p| - 1] == '/' then Name(p[..|p| - 1])
    else if p == "." || (|p| >= 2 && p[|p| - 2..] == "/.") then Name(p[..|p| - 1])
    else LastSegment(p)
  }

  /** `s.rfind(c)`, with `None` for Python's -1. */
  function LastIndexOf(s: string, c: char): (r: Option<nat>)
    ensures r.None? ==> forall i :: 0 <= i < |s| ==> s[i] != c
    ensures r.Some? ==> r.value < |s| && s[r.value] == c
    ensures r.Some? ==> forall i :: r.value < i < |s| ==> s[i] != c
    decreases |s|
  {
    if s == [] then None
    else if s[|s| - 1] == c then Some(|s| - 1)
    else LastIndexOf(s[..|s| - 1], c)
  }

  /** The shape of every non-empty suffix: a dot followed by at least one
      character, none of which is a dot or a slash. */
  predicate IsExtension(e: string) {
    |e| >= 2 && e[0] == '.' && NoDot(e[1..]) && NoSlash(e)
  }

  /** `PurePosixPath(p).suffix`: from the last dot of the name to its end,
      provided that dot is neither the name's first nor its last character;
      otherwise the empty string. */
  function Suffix(p: string): (r: string)
    ensures r == [] || (IsExtension(r) && IsSuffix(r, Name(p)) && |r| < |Name(p)|)
    ensures forall i :: IsLastDot(Name(p), i) && 0 < i < |Name(p)| - 1 ==> r == Name(p)[i..]
  {
    var name := Name(p);
    match LastIndexOf(name, '.')
    case Some(i) =>
      LastDotUnique(name, i);
      if 0 < i < |name| - 1 then
        assert name[i..][1..] == name[i + 1..];
        name[i..]
      else ""
    case None => ""
  }

  /** Position `i` of `s` holds a dot and no dot follows it. */
  predicate IsLastDot(s: string, i: int) {
    0 <= i < |s| && s[i] == '.' && NoDot(s[i + 1..])
  }

  /** The dot `rfind` finds is the only last dot. */
  lemma LastDotUnique(s: string, i: nat)
    requires i < |s| && s[i] == '.' && forall j :: i < j < |s| ==> s[j] != '.'
    ensures forall j :: IsLastDot(s, j) <==> j == i
  {
  }

  lemma {:induction false} LastSegmentAfterSlash(d: string, b: string)
    requires NoSlash(b)
    ensures LastSegment(d + "/" + b) == b
    decreases |b|
  {
    var p := d + "/" + b;
    if b != [] {
      assert p[..|p| - 1] == d + "/" + b[..|b| - 1];
      LastSegmentAfterSlash(d, b[..|b| - 1]);
    }
  }

  /** The name `tempfile` gives a temporary file: a directory, a slash, a
      random base without dots or slashes, then the suffix it was asked for. */
  function TempPath(dir: string, base: string, original: string): string {
    dir + "/" + base + Suffix(original)
  }

  predicate IsTempBase(base: string) {
    base != [] && NoDot(base) && NoSlash(base)
  }

  lemma NameAfterSlash(d: string, b: string)
    requires NoSlash(b) && b != [] && b[|b| - 1] != '.'
    ensures Name(d + "/" + b) == b
  {
    LastSegmentAfterSlash(d, b);
  }

  lemma LastDotOfExtension(base: string, e: string)
    requires IsTempBase(base) && IsExtension(e)
    ensures LastIndexOf(base + e, '.') == Some(|base|)
  {
    var be := base + e;
    assert be[|base|] == '.';
    var k := LastIndexOf(be, '.');
    assert k.Some?;
  }

  /** A name made of a dot-free base and an extension has that extension
      as its suffix. */
  lemma SuffixOfNamed(dir: string, base: string, e: string)
    requires IsTempBase(base) && (e == [] || IsExtension(e))
    ensures Suffix(dir + "/" + base + e) == e
  {
    var be := base + e;
    assert dir + "/" + base + e == dir + "/" + be;
    assert NoSlash(be) by {
      assert forall i :: 0 <= i < |be| ==> be[i] == (if i < |base| then base[i] else e[i - |base|]);
    }
    if e == [] {
      assert be == base;
      NameAfterSlash(dir, be);
    } else {
      assert be[|be| - 1] == e[1..][|e| - 2];
      NameAfterSlash(dir, be);
      LastDotOfExtension(base, e);
      assert be[|base|..] == e;
    }
  }

  /** Only the last extension of a name with several dots is its suffix. */
  lemma DottedNameSuffix(p: string)
    requires p == "d/a.b.pdf"
    ensures Suffix(p) == ".pdf"
  {
    assert p == "d" + "/" + "a.b.pdf";
    NameAfterSlash("d", "a.b.pdf");
    assert IsLastDot(Name(p), 3);
    assert Name(p)[3..] == ".pdf";
  }

  /** A temporary file made with the suffix of `original` has that same
      suffix, so classifying the temporary path or the original name agrees. */
  lemma TempPathKeepsSuffix(dir: string, base: string, original: string)
    requires IsTempBase(base)
    ensures Suffix(TempPath(dir, base, original)) == Suffix(original)
  {
    SuffixOfNamed(dir, base, Suffix(original));
  }
}
