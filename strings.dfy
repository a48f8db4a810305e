/** Models of the Python `str` operations the core relies on: membership,
    `startswith`, `split(p)[0]`, the text after a separator, `strip()`,
    `lower()`, `str(n)` for naturals, and `re.sub(pat, "", s)` for patterns
    that match a fixed-length run of characters. */
module Strings {

  /** Python's `str.isspace()`: exactly the characters `str.strip()` removes. */
  predicate IsSpace(c: char) {
    ('\t' <= c <= '\r') || ('\U{1C}' <= c <= '\U{1F}') || c == ' '
    || c == '\U{85}' || c == '\U{A0}' || c == '\U{1680}'
    || ('\U{2000}' <= c <= '\U{200A}') || c == '\U{2028}' || c == '\U{2029}'
    || c == '\U{202F}' || c == '\U{205F}' || c == '\U{3000}'
  }

  /** `s.startswith(p)` */
  predicate IsPrefix(p: string, s: string) {
    |p| <= |s| && s[..|p|] == p
  }

  /** `s.endswith(p)` */
  predicate IsSuffix(p: string, s: string) {
    |p| <= |s| && s[|s| - |p|..] == p
  }

  /** `p in s`: `p` occurs in `s` as a contiguous piece. */
  predicate Contains(s: string, p: string)
    decreases |s|
  {
    IsPrefix(p, s) || (s != [] && Contains(s[1..], p))
  }

  /** A string that `strip()` leaves unchanged. */
  predicate IsStripped(s: string) {
    s == [] || (!IsSpace(s[0]) && !IsSpace(s[|s| - 1]))
  }

  predicate AllSpace(s: string) {
    forall i :: 0 <= i < |s| ==> IsSpace(s[i])
  }

  // ---------------------------------------------------------------------------
  // Containment facts

  lemma PrefixTrans(a: string, b: string, c: string)
    requires IsPrefix(a, b) && IsPrefix(b, c)
    ensures IsPrefix(a, c)
  {
    assert c[..|a|] == c[..|b|][..|a|];
  }

  /** A piece of a prefix of `s` is a piece of `s`. */
  lemma {:induction false} PrefixContains(t: string, s: string, p: string)
    requires IsPrefix(t, s) && Contains(t, p)
    ensures Contains(s, p)
    decreases |t|
  {
    if IsPrefix(p, t) {
      PrefixTrans(p, t, s);
    } else {
      assert t[1..] == s[1..][..|t| - 1];
      PrefixContains(t[1..], s[1..], p);
    }
  }

  /** A suffix of `s` is a piece of `s`. */
  lemma {:induction false} SuffixContained(t: string, s: string)
    requires IsSuffix(t, s)
    ensures Contains(s, t)
    decreases |s|
  {
    if |t| == |s| {
      assert s[..|t|] == s;
    } else {
      assert s[1..][|s| - 1 - |t|..] == s[|s| - |t|..];
      SuffixContained(t, s[1..]);
    }
  }

  /** Whatever surrounds `p`, the result contains `p`. */
  lemma ContainsMiddle(a: string, p: string, b: string)
    ensures Contains(a + p + b, p)
  {
    var s := a + p + b;
    assert IsSuffix(p + b, s) by { assert s[|s| - |p + b|..] == p + b; }
    SuffixContained(p + b, s);
    assert IsPrefix(p, p + b) by { assert (p + b)[..|p|] == p; }
    ContainsTrans(s, p + b, p);
  }

  /** Being a piece of is transitive. */
  lemma {:induction false} ContainsTrans(s: string, t: string, p: string)
    requires Contains(s, t) && Contains(t, p)
    ensures Contains(s, p)
    decreases |s|
  {
    if IsPrefix(t, s) {
      PrefixContains(t, s, p);
    } else {
      ContainsTrans(s[1..], t, p);
    }
  }

  /** A string that does not contain `p` has no piece that contains `p`. */
  lemma PieceAvoids(s: string, t: string, p: string)
    requires Contains(s, t) && !Contains(s, p)
    ensures !Contains(t, p)
  {
    if Contains(t, p) {
      ContainsTrans(s, t, p);
    }
  }

  // ---------------------------------------------------------------------------
  // strip()

  /** The end of the run of whitespace that starts at `k`. */
  function SpacesFrom(s: string, k: nat): (n: nat)
    requires k <= |s|
    ensures k <= n <= |s|
    ensures forall i :: k <= i < n ==> IsSpace(s[i])
    ensures n == |s| || !IsSpace(s[n])
    decreases |s| - k
  {
    if k < |s| && IsSpace(s[k]) then SpacesFrom(s, k + 1) else k
  }

  /** The start of the run of whitespace that ends at `k`. */
  function SpacesUntil(s: string, k: nat): (n: nat)
    requires k <= |s|
    ensures n <= k
    ensures forall i :: n <= i < k ==> IsSpace(s[i])
    ensures n == 0 || !IsSpace(s[n - 1])
  {
    if k > 0 && IsSpace(s[k - 1]) then SpacesUntil(s, k - 1) else k
  }

  /** `s.lstrip()` */
  function TrimStart(s: string): (r: string)
    ensures IsSuffix(r, s)
    ensures AllSpace(s[..|s| - |r|])
    ensures r == [] || !IsSpace(r[0])
  {
    s[SpacesFrom(s, 0)..]
  }

  /** `s.rstrip()` */
  function TrimEnd(s: string): (r: string)
    ensures IsPrefix(r, s)
    ensures AllSpace(s[|r|..])
    ensures r == [] || !IsSpace(r[|r| - 1])
  {
    s[..SpacesUntil(s, |s|)]
  }

  /** `s.strip()`: the piece of `s` left after removing leading and trailing
      whitespace. It is empty exactly when `s` is all whitespace. */
  function Strip(s: string): (r: string)
    ensures Contains(s, r)
    ensures IsStripped(r)
    ensures r == [] <==> AllSpace(s)
  {
    var t := TrimStart(s);
    var r := TrimEnd(t);
    StripFacts(s, SpacesFrom(s, 0), t, r);
    r
  }

  lemma StripFacts(s: string, a: nat, t: string, r: string)
    requires a == SpacesFrom(s, 0) && t == s[a..] && r == TrimEnd(t)
    ensures Contains(s, r)
    ensures IsStripped(r)
    ensures r == [] <==> AllSpace(s)
  {
    assert IsSuffix(t, s) by { assert s[|s| - |t|..] == t; }
    SuffixContained(t, s);
    assert Contains(t, r);
    ContainsTrans(s, t, r);
    // a non-empty `t` starts with a non-space, so `TrimEnd` keeps it non-empty
    assert t[0..] == t;
    assert t != [] ==> t[0] == s[a];
    assert r != [] ==> r[0] == t[0];
  }

  /** A run of whitespace ending where a non-space starts is skipped whole. */
  lemma {:induction false} SpacesFromIs(s: string, k: nat, n: nat)
    requires k <= n <= |s|
    requires forall i :: k <= i < n ==> IsSpace(s[i])
    requires n == |s| || !IsSpace(s[n])
    ensures SpacesFrom(s, k) == n
    decreases n - k
  {
    if k < n {
      SpacesFromIs(s, k + 1, n);
    }
  }

  lemma {:induction false} SpacesUntilIs(s: string, k: nat, n: nat)
    requires n <= k <= |s|
    requires forall i :: n <= i < k ==> IsSpace(s[i])
    requires n == 0 || !IsSpace(s[n - 1])
    ensures SpacesUntil(s, k) == n
    decreases k - n
  {
    if n < k {
      SpacesUntilIs(s, k - 1, n);
    }
  }

  lemma TrimStartSpaces(l: string, t: string)
    requires AllSpace(l) && (t == [] || !IsSpace(t[0]))
    ensures TrimStart(l + t) == t
  {
    var s := l + t;
    assert forall i :: 0 <= i < |l| ==> s[i] == l[i];
    assert |l| < |s| ==> s[|l|] == t[0];
    SpacesFromIs(s, 0, |l|);
    assert s[|l|..] == t;
  }

  lemma TrimEndSpaces(t: string, r: string)
    requires AllSpace(r) && (t == [] || !IsSpace(t[|t| - 1]))
    ensures TrimEnd(t + r) == t
  {
    var s := t + r;
    assert forall i :: |t| <= i < |s| ==> s[i] == r[i - |t|];
    assert |t| > 0 ==> s[|t| - 1] == t[|t| - 1];
    SpacesUntilIs(s, |s|, |t|);
    assert s[..|t|] == t;
  }

  /** `strip()` removes exactly the whitespace around a stripped core. */
  lemma StripAround(l: string, core: string, r: string)
    requires AllSpace(l) && AllSpace(r) && IsStripped(core) && core != []
    ensures Strip(l + core + r) == core
  {
    assert l + core + r == l + (core + r);
    TrimStartSpaces(l, core + r);
    TrimEndSpaces(core, r);
  }

  lemma StripIdempotent(s: string)
    ensures Strip(Strip(s)) == Strip(s)
  {
    StrippedUnchanged(Strip(s));
  }

  lemma StrippedUnchanged(s: string)
    requires IsStripped(s)
    ensures Strip(s) == s
  {
  }

  // ---------------------------------------------------------------------------
  // split(p)[0] and the text after the first occurrence of `p`

  /** `s.split(p)[0]`: the text before the first occurrence of `p`, or all of
      `s` when `p` does not occur. */
  function Before(s: string, p: string): (r: string)
    requires p != []
    ensures IsPrefix(r, s)
    ensures !Contains(r, p)
    ensures Contains(s, p) ==> IsPrefix(r + p, s)
    ensures !Contains(s, p) ==> r == s
    ensures forall k :: 0 <= k < |r| ==> !IsPrefix(p, s[k..])
    decreases |s|
  {
    if IsPrefix(p, s) then []
    else if s == [] then []
    else
      var rest := Before(s[1..], p);
      ConsPrefix(s, rest);
      ConsAvoids(s, p, rest);
      ConsBeforeMarker(s, p, rest);
      ConsWhole(s, p, rest);
      NoEarlierMatch(s, p, |rest| + 1);
      [s[0]] + rest
  }

  // The recursive step of `Before`: when `p` does not start `s`, the first
  // character followed by the piece before `p` in `s[1..]` is the piece
  // before `p` in `s`. One lemma per postcondition of `Before`.

  lemma ConsAvoids(s: string, p: string, rest: string)
    requires s != [] && !IsPrefix(p, s) && IsPrefix(rest, s[1..]) && !Contains(rest, p)
    ensures !Contains([s[0]] + rest, p)
  {
    var r := [s[0]] + rest;
    ConsPrefix(s, rest);
    assert r[1..] == rest;
    assert !IsPrefix(p, r) by {
      if IsPrefix(p, r) { PrefixTrans(p, r, s); }
    }
  }

  lemma ConsBeforeMarker(s: string, p: string, rest: string)
    requires s != [] && !IsPrefix(p, s)
    requires Contains(s[1..], p) ==> IsPrefix(rest + p, s[1..])
    ensures Contains(s, p) ==> IsPrefix([s[0]] + rest + p, s)
  {
    if Contains(s, p) {
      ConsPrefix(s, rest + p);
      assert [s[0]] + rest + p == [s[0]] + (rest + p);
    }
  }

  lemma ConsWhole(s: string, p: string, rest: string)
    requires s != [] && !IsPrefix(p, s)
    requires !Contains(s[1..], p) ==> rest == s[1..]
    ensures !Contains(s, p) ==> [s[0]] + rest == s
  {
  }

  /** The first character of `s` before a prefix of `s[1..]` is a prefix of `s`. */
  lemma ConsPrefix(s: string, t: string)
    requires s != [] && IsPrefix(t, s[1..])
    ensures IsPrefix([s[0]] + t, s)
  {
    assert s[..|t| + 1] == [s[0]] + s[1..][..|t|];
  }

  /** When `p` does not start `s`, nor any of the first `n - 1` suffixes of
      `s[1..]`, it starts none of the first `n` suffixes of `s`. */
  lemma NoEarlierMatch(s: string, p: string, n: nat)
    requires s != [] && !IsPrefix(p, s) && n <= |s|
    requires forall k :: 0 <= k < n - 1 ==> !IsPrefix(p, s[1..][k..])
    ensures forall k :: 0 <= k < n ==> !IsPrefix(p, s[k..])
  {
    assert forall k :: 1 <= k < n ==> s[k..] == s[1..][k - 1..];
  }

  /** The text after the first occurrence of `p` in `s`, so that `s` is the
      text before it, then `p`, then this. */
  function After(s: string, p: string): (r: string)
    requires p != [] && Contains(s, p)
    ensures s == Before(s, p) + p + r
    decreases |s|
  {
    if IsPrefix(p, s) then s[|p|..]
    else
      var r := After(s[1..], p);
      assert s == [s[0]] + s[1..];
      r
  }

  // ---------------------------------------------------------------------------
  // lower()

  function LowerChar(c: char): char {
    if 'A' <= c <= 'Z' then (c as int + 32) as char else c
  }

  /** `s.lower()` on the ASCII letters; every other character is kept. */
  function Lower(s: string): string {
    seq(|s|, i requires 0 <= i < |s| => LowerChar(s[i]))
  }

  // ---------------------------------------------------------------------------
  // str(n)

  predicate IsDigit(c: char) {
    '0' <= c <= '9'
  }

  function DigitChar(d: nat): char
    requires d < 10
  {
    ('0' as int + d) as char
  }

  /** `str(n)` for a natural number: its decimal digits, most significant first. */
  function Decimal(n: nat): (r: string)
    ensures r != []
    ensures forall i :: 0 <= i < |r| ==> IsDigit(r[i])
  {
    if n < 10 then [DigitChar(n)] else Decimal(n / 10) + [DigitChar(n % 10)]
  }

  /** Different numbers print differently. */
  lemma {:induction false} DecimalInjective(a: nat, b: nat)
    requires Decimal(a) == Decimal(b)
    ensures a == b
  {
    if a >= 10 && b >= 10 {
      var da, db := Decimal(a), Decimal(b);
      assert da[..|da| - 1] == Decimal(a / 10);
      assert db[..|db| - 1] == Decimal(b / 10);
      DecimalInjective(a / 10, b / 10);
      assert da[|da| - 1] == DigitChar(a % 10);
      assert db[|db| - 1] == DigitChar(b % 10);
    }
  }

  // ---------------------------------------------------------------------------
  // re.sub(pattern, "", s) for fixed-length patterns

  /** A pattern that matches runs of a fixed length: each position accepts
      a set of characters (a literal, or the case variants of a letter). */
  type Pattern = seq<set<char>>

  /** The pattern that matches exactly the text `p`. */
  function Literal(p: string): (pat: Pattern)
    ensures |pat| == |p|
    ensures forall i :: 0 <= i < |p| ==> pat[i] == {p[i]}
  {
    seq(|p|, i requires 0 <= i < |p| => {p[i]})
  }

  /** `pat` matches at the start of `s`. */
  predicate MatchesAt(s: string, pat: Pattern) {
    |pat| <= |s| && forall i :: 0 <= i < |pat| ==> s[i] in pat[i]
  }

  lemma LiteralMatches(s: string, p: string)
    ensures MatchesAt(s, Literal(p)) <==> IsPrefix(p, s)
  {
    if IsPrefix(p, s) {
      assert forall i :: 0 <= i < |p| ==> s[i] == s[..|p|][i];
    }
    if MatchesAt(s, Literal(p)) {
      assert s[..|p|] == p;
    }
  }

  /** `re.sub(pat, "", s)`: scanning from the left, every match of `pat` is
      removed and the scan resumes right after it; other characters are kept. */
  function RemoveAll(s: string, pat: Pattern): (r: string)
    requires pat != []
    ensures |r| <= |s|
    decreases |s|
  {
    if s == [] then []
    else if MatchesAt(s, pat) then RemoveAll(s[|pat|..], pat)
    else [s[0]] + RemoveAll(s[1..], pat)
  }

  /** Characters the pattern cannot start with pass through unchanged. */
  lemma {:induction false} RemoveAllSkip(u: string, v: string, pat: Pattern)
    requires pat != [] && forall i :: 0 <= i < |u| ==> u[i] !in pat[0]
    ensures RemoveAll(u + v, pat) == u + RemoveAll(v, pat)
    decreases |u|
  {
    if u == [] {
      assert u + v == v;
    } else {
      assert (u + v)[0] !in pat[0];
      assert !MatchesAt(u + v, pat);
      assert (u + v)[1..] == u[1..] + v;
      RemoveAllSkip(u[1..], v, pat);
      assert u == [u[0]] + u[1..];
    }
  }

  /** A character that does not fit its position of the pattern, or a text
      shorter than the pattern, rules out a match. */
  lemma NoMatchAt(s: string, pat: Pattern, k: nat)
    requires k < |pat| && (|s| < |pat| || s[k] !in pat[k])
    ensures !MatchesAt(s, pat)
  {
  }

  /** A match at the front is dropped and the scan goes on after it. */
  lemma RemoveAllMatch(m: string, v: string, pat: Pattern)
    requires pat != [] && |m| == |pat| && MatchesAt(m, pat)
    ensures RemoveAll(m + v, pat) == RemoveAll(v, pat)
  {
    assert MatchesAt(m + v, pat) by {
      assert forall i :: 0 <= i < |pat| ==> (m + v)[i] == m[i];
    }
    assert (m + v)[|pat|..] == v;
  }

  /** When no character from position `k` on fits position `k` of the
      pattern, nothing matches and nothing is removed. */
  lemma {:induction false} RemoveAllBlocked(s: string, pat: Pattern, k: nat)
    requires k < |pat| && forall i :: k <= i < |s| ==> s[i] !in pat[k]
    ensures RemoveAll(s, pat) == s
    decreases |s|
  {
    if s != [] {
      assert !MatchesAt(s, pat) by {
        if |pat| <= |s| { assert s[k] !in pat[k]; }
      }
      RemoveAllBlocked(s[1..], pat, k);
    }
  }
}
