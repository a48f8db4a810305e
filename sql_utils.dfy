/** The reply parser and query cleaner used by the table-question tool
    (src/utils/sql_utils.py). The model's reply is free text laid out by the
    prompt template as a `SQL_QUERY:` section followed by an `EXPLANATION:`
    section; a `PLOT_CODE:` marker only bounds the explanation. */
module SqlUtils {
  import opened Wrappers
  import opened Strings

  const SqlMarker: string := "SQL_QUERY:"
  const ExplanationMarker: string := "EXPLANATION:"
  const PlotMarker: string := "PLOT_CODE:"

  /** The parsed reply: a dictionary whose keys are always exactly `sql`,
      `explanation` and `plot`; a field is `None` when no text was found. */
  datatype Sections = Sections(sql: Option<string>, explanation: Option<string>, plot: Option<string>)

  /** `text.split(marker)[1].split(stop)[0].strip()`: the text strictly between
      the first and the second `marker` (or the end), cut at its first `stop`,
      without surrounding whitespace. */
  function Section(text: string, marker: string, stop: string): (r: string)
    requires marker != [] && stop != [] && Contains(text, marker)
    ensures !Contains(r, marker) && !Contains(r, stop)
    ensures IsStripped(r)
  {
    var piece := Before(After(text, marker), marker);
    var cut := Before(piece, stop);
    var r := Strip(cut);
    PieceAvoids(cut, r, stop);
    assert !Contains(cut, marker) by {
      if Contains(cut, marker) { PrefixContains(cut, piece, marker); }
    }
    PieceAvoids(cut, r, marker);
    r
  }

  /** `parse_llm_response`: `sql` is present exactly when the reply holds
      `SQL_QUERY:`, `explanation` exactly when it holds `EXPLANATION:`, and
      `plot` is never filled in. A present field holds neither its own marker
      nor the marker that ends it, and has no surrounding whitespace. */
  function ParseLlmResponse(text: string): (r: Sections)
    ensures r.sql.None? <==> !Contains(text, SqlMarker)
    ensures r.explanation.None? <==> !Contains(text, ExplanationMarker)
    ensures r.plot == None
    ensures r.sql.Some? ==>
      !Contains(r.sql.value, SqlMarker) && !Contains(r.sql.value, ExplanationMarker) && IsStripped(r.sql.value)
    ensures r.explanation.Some? ==>
      !Contains(r.explanation.value, ExplanationMarker) && !Contains(r.explanation.value, PlotMarker)
      && IsStripped(r.explanation.value)
  {
    var sql := if Contains(text, SqlMarker) then Some(Section(text, SqlMarker, ExplanationMarker)) else None;
    var explanation :=
      if Contains(text, ExplanationMarker) then Some(Section(text, ExplanationMarker, PlotMarker)) else None;
    Sections(sql, explanation, None)
  }

  /** Where a section comes from: `text` is `lead`, the first `marker`, `body`
      and `rest`, where `rest` is empty or begins with `marker` or `stop`; the
      section is `body` stripped, and `body` holds neither marker. */
  lemma SectionBounds(text: string, marker: string, stop: string) returns (lead: string, body: string, rest: string)
    requires marker != [] && stop != [] && Contains(text, marker)
    ensures text == lead + marker + body + rest
    ensures !Contains(lead, marker)
    ensures !Contains(body, marker) && !Contains(body, stop)
    ensures rest == [] || IsPrefix(marker, rest) || IsPrefix(stop, rest)
    ensures Section(text, marker, stop) == Strip(body)
  {
    lead := Before(text, marker);
    var a := After(text, marker);
    var piece := Before(a, marker);
    body := Before(piece, stop);
    var restA := Remainder(a, marker);
    var restB := Remainder(piece, stop);
    rest := restB + restA;
    assert text == lead + marker + a;
    assert a == piece + restA;
    assert piece == body + restB;
    Assoc4(lead + marker, body, restB, restA);
    assert !Contains(body, marker) by {
      if Contains(body, marker) { PrefixContains(body, piece, marker); }
    }
    if restB != [] {
      assert rest[..|stop|] == restB[..|stop|];
    }
  }

  lemma Assoc4(a: string, b: string, c: string, d: string)
    ensures a + ((b + c) + d) == a + b + (c + d)
  {
  }

  /** What follows `s.split(p)[0]` in `s`: empty, or `p` and the rest. */
  lemma Remainder(s: string, p: string) returns (rest: string)
    requires p != []
    ensures s == Before(s, p) + rest
    ensures rest == [] || IsPrefix(p, rest)
  {
    if Contains(s, p) {
      rest := p + After(s, p);
      assert rest[..|p|] == p;
    } else {
      rest := [];
    }
  }

  /** If no occurrence of `p` starts inside `u`, then `u` is what
      `(u + p + v).split(p)[0]` returns. */
  lemma {:induction false} BeforeFirst(u: string, v: string, p: string)
    requires p != [] && !Contains(u + p[..|p| - 1], p)
    ensures Before(u + p + v, p) == u
    decreases |u|
  {
    var s := u + p + v;
    var w := u + p[..|p| - 1];
    if u == [] {
      assert s[..|p|] == p;
    } else {
      assert !IsPrefix(p, s);
      assert s[1..] == u[1..] + p + v;
      assert w[1..] == u[1..] + p[..|p| - 1];
      BeforeFirst(u[1..], v, p);
    }
  }

  /** `p` is not in `s` when the character at position `k` of `p` is absent
      from every place of `s` where it would have to be. */
  lemma {:induction false} CharOutOfPlace(s: string, p: string, k: nat)
    requires k < |p|
    requires forall i :: k <= i <= |s| - |p| + k ==> s[i] != p[k]
    ensures !Contains(s, p)
    decreases |s|
  {
    if |p| <= |s| {
      assert s[k] != p[k];
      assert s[..|p|][k] != p[k];
    }
    if s != [] {
      CharOutOfPlace(s[1..], p, k);
    }
  }

  /** The reply layout the prompt template demands: the query after
      `SQL_QUERY:`, then the explanation after `EXPLANATION:`. */
  function Layout(query: string, explanation: string): string {
    SqlMarker + query + ExplanationMarker + explanation
  }

  lemma AfterPrefix(p: string, a: string)
    requires p != []
    ensures Contains(p + a, p) && After(p + a, p) == a
  {
    assert (p + a)[..|p|] == p;
  }

  /** Parsing inverts the layout: a reply laid out as the template asks, whose
      parts do not themselves hold the markers, parses back into the stripped
      query and the stripped explanation. */
  lemma LayoutRoundTrip(query: string, explanation: string)
    requires !Contains(SqlMarker + query + ExplanationMarker[..11], ExplanationMarker)
    requires !Contains(query + ExplanationMarker + explanation, SqlMarker)
    requires !Contains(explanation, ExplanationMarker) && !Contains(explanation, PlotMarker)
    ensures ParseLlmResponse(Layout(query, explanation))
         == Sections(Some(Strip(query)), Some(Strip(explanation)), None)
  {
    QuerySectionOfLayout(query, explanation);
    ExplanationSectionOfLayout(query, explanation);
  }

  /** The query section of a laid-out reply is the stripped query. */
  lemma QuerySectionOfLayout(query: string, explanation: string)
    requires !Contains(SqlMarker + query + ExplanationMarker[..11], ExplanationMarker)
    requires !Contains(query + ExplanationMarker + explanation, SqlMarker)
    ensures Contains(Layout(query, explanation), SqlMarker)
    ensures Section(Layout(query, explanation), SqlMarker, ExplanationMarker) == Strip(query)
  {
    var text := Layout(query, explanation);
    var a := query + ExplanationMarker + explanation;
    assert text == SqlMarker + a;
    AfterPrefix(SqlMarker, a);
    assert Before(a, SqlMarker) == a;
    QueryCut(query, explanation);
  }

  /** When no `EXPLANATION:` starts inside the query, the query is what
      comes before the first `EXPLANATION:`. */
  lemma QueryCut(query: string, explanation: string)
    requires !Contains(SqlMarker + query + ExplanationMarker[..11], ExplanationMarker)
    ensures Before(query + ExplanationMarker + explanation, ExplanationMarker) == query
  {
    var w := query + ExplanationMarker[..11];
    assert SqlMarker + query + ExplanationMarker[..11] == SqlMarker + w;
    assert IsSuffix(w, SqlMarker + w);
    SuffixContained(w, SqlMarker + w);
    PieceAvoids(SqlMarker + w, w, ExplanationMarker);
    BeforeFirst(query, explanation, ExplanationMarker);
  }

  /** The explanation section of a laid-out reply is the stripped
      explanation. */
  lemma ExplanationSectionOfLayout(query: string, explanation: string)
    requires !Contains(SqlMarker + query + ExplanationMarker[..11], ExplanationMarker)
    requires !Contains(explanation, ExplanationMarker) && !Contains(explanation, PlotMarker)
    ensures Contains(Layout(query, explanation), ExplanationMarker)
    ensures Section(Layout(query, explanation), ExplanationMarker, PlotMarker) == Strip(explanation)
  {
    var text := Layout(query, explanation);
    var lead := SqlMarker + query;
    assert text == lead + ExplanationMarker + explanation;
    ContainsMiddle(lead, ExplanationMarker, explanation);
    BeforeFirst(lead, explanation, ExplanationMarker);
    assert After(text, ExplanationMarker) == explanation;
  }

  /** The reply layout the prompt template asks for parses into its query
      and its explanation. */
  lemma WorkedExample(text: string)
    requires text == "SQL_QUERY:\nSELECT 1;\n\nEXPLANATION:\nok"
    ensures ParseLlmResponse(text) == Sections(Some("SELECT 1;"), Some("ok"), None)
  {
    var q, e := "\nSELECT 1;\n\n", "\nok";
    WorkedLayout(text, q, e);
    WorkedQueryFree(q, e);
    WorkedExplanationFree(e);
    WorkedStrips(q, e);
    LayoutRoundTrip(q, e);
  }

  lemma WorkedLayout(text: string, q: string, e: string)
    requires text == "SQL_QUERY:\nSELECT 1;\n\nEXPLANATION:\nok"
    requires q == "\nSELECT 1;\n\n" && e == "\nok"
    ensures text == Layout(q, e)
  {
  }

  lemma WorkedQueryFree(q: string, e: string)
    requires q == "\nSELECT 1;\n\n" && e == "\nok"
    ensures !Contains(SqlMarker + q + ExplanationMarker[..11], ExplanationMarker)
    ensures !Contains(q + ExplanationMarker + e, SqlMarker)
  {
    CharOutOfPlace(SqlMarker + q + ExplanationMarker[..11], ExplanationMarker, 11);
    CharOutOfPlace(q + ExplanationMarker + e, SqlMarker, 3);
  }

  lemma WorkedExplanationFree(e: string)
    requires e == "\nok"
    ensures !Contains(e, ExplanationMarker) && !Contains(e, PlotMarker)
  {
    CharOutOfPlace(e, ExplanationMarker, 0);
    CharOutOfPlace(e, PlotMarker, 0);
  }

  lemma WorkedStrips(q: string, e: string)
    requires q == "\nSELECT 1;\n\n" && e == "\nok"
    ensures Strip(q) == "SELECT 1;" && Strip(e) == "ok"
  {
    WorkedQueryStrips(q);
    WorkedExplanationStrips(e);
  }

  lemma WorkedQueryStrips(q: string)
    requires q == "\nSELECT 1;\n\n"
    ensures Strip(q) == "SELECT 1;"
  {
    var core := "SELECT 1;";
    assert IsStripped(core) by {
      assert core[0] == 'S' && core[|core| - 1] == ';';
    }
    StripPadded("\n", core, "\n\n", q);
  }

  lemma WorkedExplanationStrips(e: string)
    requires e == "\nok"
    ensures Strip(e) == "ok"
  {
    StripPadded("\n", "ok", "", e);
  }

  lemma StripPadded(l: string, core: string, r: string, s: string)
    requires s == l + core + r && AllSpace(l) && AllSpace(r) && IsStripped(core) && core != []
    ensures Strip(s) == core
  {
    StripAround(l, core, r);
  }

  // ---------------------------------------------------------------------------
  // clean_sql

  const Fence: string := "```"

  /** `re.sub(r"```sql", "", s, flags=re.IGNORECASE)` matches three backticks
      and then `sql` in any case; under Python's case folding `s` also matches
      U+017F LATIN SMALL LETTER LONG S. */
  const SqlFence: Pattern := [{'`'}, {'`'}, {'`'}, {'s', 'S', '\U{17F}'}, {'q', 'Q'}, {'l', 'L'}]

  /** The two `re.sub` calls of `clean_sql`: every fence tagged `sql` is
      removed, then every remaining fence; no fence is left. */
  function Unfenced(t: string): (u: string)
    ensures !Contains(u, Fence)
  {
    FenceFree(RemoveAll(t, SqlFence));
    RemoveAll(RemoveAll(t, SqlFence), Literal(Fence))
  }

  /** `clean_sql`: a falsy argument (`None` or the empty string) comes back
      as it is; otherwise the text with its fences removed comes back
      stripped, so no fence is left. The clause naming `Unfenced` only
      defines the value; what it means is stated by the other clauses and by
      the `Unfenced` lemmas and `CleanSqlIdempotent` below. */
  function CleanSql(sqlText: Option<string>): (r: Option<string>)
    ensures r.Some? <==> sqlText.Some?
    ensures sqlText == Some("") ==> r == Some("")
    ensures sqlText.Some? && sqlText.value != "" ==> r == Some(Strip(Unfenced(sqlText.value)))
    ensures r.Some? ==> !Contains(r.value, Fence) && IsStripped(r.value)
  {
    match sqlText
    case None => None
    case Some(t) =>
      if t == "" then sqlText
      else
        var unfenced := Unfenced(t);
        PieceAvoids(unfenced, Strip(unfenced), Fence);
        Some(Strip(unfenced))
  }

  /** Text without a backtick passes through the fence removal unchanged,
      so such a query is only stripped. */
  lemma UnfencedPlain(u: string, v: string)
    requires forall i :: 0 <= i < |u| ==> u[i] != '`'
    ensures Unfenced(u + v) == u + Unfenced(v)
  {
    RemoveAllSkip(u, v, SqlFence);
    RemoveAllSkip(u, RemoveAll(v, SqlFence), Literal(Fence));
  }

  /** A fence tagged `sql`, in any case, is removed with its tag. */
  lemma UnfencedTagged(m: string, v: string)
    requires |m| == |SqlFence| && MatchesAt(m, SqlFence)
    ensures Unfenced(m + v) == Unfenced(v)
  {
    RemoveAllMatch(m, v, SqlFence);
  }

  /** A fence that is not followed by a backtick or an `s` is removed alone,
      leaving whatever follows it. */
  lemma UnfencedBare(v: string)
    requires v == [] || (v[0] != '`' && v[0] !in SqlFence[3])
    ensures Unfenced(Fence + v) == Unfenced(v)
  {
    BareFenceKept(v);
    LiteralMatches(Fence, Fence);
    RemoveAllMatch(Fence, RemoveAll(v, SqlFence), Literal(Fence));
  }

  /** The first removal leaves a fence without the `sql` tag in place. */
  lemma BareFenceKept(v: string)
    requires v == [] || (v[0] != '`' && v[0] !in SqlFence[3])
    ensures RemoveAll(Fence + v, SqlFence) == Fence + RemoveAll(v, SqlFence)
  {
    var t1, t2, t3 := Fence + v, "``" + v, "`" + v;
    NoMatchAt(t1, SqlFence, 3);
    BacktickKept(t1, t2);
    NoMatchAt(t2, SqlFence, 2);
    BacktickKept(t2, t3);
    NoMatchAt(t3, SqlFence, 1);
    BacktickKept(t3, v);
    ThreeBackticks(RemoveAll(v, SqlFence));
  }

  lemma ThreeBackticks(w: string)
    ensures "`" + ("`" + ("`" + w)) == Fence + w
  {
    assert forall i :: 0 <= i < |Fence + w| ==> ("`" + ("`" + ("`" + w)))[i] == (Fence + w)[i];
  }

  /** A backtick where no tagged fence starts is kept by the first removal. */
  lemma BacktickKept(t: string, rest: string)
    requires t == "`" + rest && !MatchesAt(t, SqlFence)
    ensures RemoveAll(t, SqlFence) == "`" + RemoveAll(rest, SqlFence)
  {
    assert t[1..] == rest;
  }

  /** A query without backticks is only stripped. */
  lemma CleanSqlNoBacktick(t: string)
    requires forall i :: 0 <= i < |t| ==> t[i] != '`'
    ensures CleanSql(Some(t)) == Some(Strip(t))
  {
    if t != "" {
      UnfencedPlain(t, "");
      assert t + "" == t;
    }
  }

  /** A string that does not start with a backtick keeps its first
      character when fences are removed. */
  lemma KeepsHead(t: string)
    requires t != [] && t[0] != '`'
    ensures RemoveAll(t, Literal(Fence)) != [] && RemoveAll(t, Literal(Fence))[0] == t[0]
  {
    assert !MatchesAt(t, Literal(Fence)) by {
      assert t[0] !in Literal(Fence)[0];
    }
  }

  /** Removing every "```" leaves none: of each run of backticks only its
      length modulo three remains, and runs stay apart. */
  lemma {:induction false} FenceFree(s: string)
    ensures !Contains(RemoveAll(s, Literal(Fence)), Fence)
    decreases |s|
  {
    var f := Literal(Fence);
    if s == [] {
    } else if MatchesAt(s, f) {
      FenceFree(s[|f|..]);
    } else {
      var rest := RemoveAll(s[1..], f);
      var r := [s[0]] + rest;
      assert RemoveAll(s, f) == r;
      FenceFree(s[1..]);
      assert r[1..] == rest;
      LiteralMatches(s, Fence);
      assert !IsPrefix(Fence, r) by {
        if s[0] == '`' && |s| >= 3 {
          if s[1] != '`' {
            KeepsHead(s[1..]);
          } else {
            assert s[2] != '`';
            assert !MatchesAt(s[1..], f) by { assert s[1..][1] !in f[1]; }
            assert s[1..][1..] == s[2..];
            KeepsHead(s[2..]);
          }
        }
      }
    }
  }

  /** A pattern whose first three positions are backticks. */
  predicate FenceLed(pat: Pattern) {
    |pat| >= 3 && pat[0] == {'`'} && pat[1] == {'`'} && pat[2] == {'`'}
  }

  /** Without "```" in `s`, neither removal changes it. */
  lemma {:induction false} FenceFreeUnchanged(s: string, pat: Pattern)
    requires FenceLed(pat) && !Contains(s, Fence)
    ensures RemoveAll(s, pat) == s
    decreases |s|
  {
    if s != [] {
      FenceFreeUnchanged(s[1..], pat);
    }
  }

  /** Cleaning twice is cleaning once. */
  lemma CleanSqlIdempotent(sqlText: Option<string>)
    ensures CleanSql(CleanSql(sqlText)) == CleanSql(sqlText)
  {
    var once := CleanSql(sqlText);
    if once.Some? && once.value != "" {
      var r := once.value;
      FencePatterns();
      FenceFreeUnchanged(r, SqlFence);
      FenceFreeUnchanged(r, Literal(Fence));
      StrippedUnchanged(r);
      CleanSqlSteps(r, r, r);
    }
  }

  lemma FencePatterns()
    ensures FenceLed(SqlFence) && FenceLed(Literal(Fence))
  {
  }

  /** `CleanSql` on a non-empty text, given the outcome of its two removals. */
  lemma CleanSqlSteps(t: string, u: string, w: string)
    requires t != "" && RemoveAll(t, SqlFence) == u && RemoveAll(u, Literal(Fence)) == w
    ensures CleanSql(Some(t)) == Some(Strip(w))
  {
  }

  /** A fenced block tagged `sql` loses its fences, its tag and the line
      breaks around the query. */
  lemma CleanFencedBlock(s: string)
    requires s == "```sql\nSELECT * FROM t\n```"
    ensures CleanSql(Some(s)) == Some("SELECT * FROM t")
  {
    var body := "\nSELECT * FROM t\n";
    FencedTagRemoved(s, body);
    ClosingFenceRemoved(body);
    CleanSqlSteps(s, body + Fence, body);
    BodyStrips(body);
  }

  lemma FencedTagRemoved(s: string, body: string)
    requires s == "```sql\nSELECT * FROM t\n```" && body == "\nSELECT * FROM t\n"
    ensures RemoveAll(s, SqlFence) == body + Fence
  {
    FencedBlockSplit(s, body);
    RemoveAllMatch("```sql", body + Fence, SqlFence);
    NoBackticks(body);
    RemoveAllSkip(body, Fence, SqlFence);
    RemoveAllBlocked(Fence, SqlFence, 3);
  }

  lemma ClosingFenceRemoved(body: string)
    requires body == "\nSELECT * FROM t\n"
    ensures RemoveAll(body + Fence, Literal(Fence)) == body
  {
    var f := Literal(Fence);
    NoBackticks(body);
    RemoveAllSkip(body, Fence, f);
    RemoveAllMatch(Fence, [], f);
    assert Fence + [] == Fence;
    assert body + [] == body;
  }

  lemma FencedBlockSplit(s: string, body: string)
    requires s == "```sql\nSELECT * FROM t\n```" && body == "\nSELECT * FROM t\n"
    ensures s == "```sql" + (body + Fence)
    ensures MatchesAt("```sql", SqlFence)
  {
  }

  lemma NoBackticks(body: string)
    requires body == "\nSELECT * FROM t\n"
    ensures forall i :: 0 <= i < |body| ==> body[i] !in SqlFence[0] && body[i] !in Literal(Fence)[0]
  {
  }

  lemma BodyStrips(body: string)
    requires body == "\nSELECT * FROM t\n"
    ensures Strip(body) == "SELECT * FROM t"
  {
    assert body == "\n" + "SELECT * FROM t" + "\n";
    StripAround("\n", "SELECT * FROM t", "\n");
  }

  /** The tag is removed as a bare prefix of whatever word follows the
      fence, so a block tagged `sqlite` keeps only `ite`. */
  lemma CleanGluedTag(s: string)
    requires s == "```sqlite"
    ensures CleanSql(Some(s)) == Some("ite")
  {
    var rest := "ite";
    GluedTagRemoved(s, rest);
    TagTailKept(rest);
    CleanSqlSteps(s, rest, rest);
  }

  lemma TagTailKept(rest: string)
    requires rest == "ite"
    ensures RemoveAll(rest, Literal(Fence)) == rest && Strip(rest) == rest
  {
    assert forall i :: 0 <= i < |rest| ==> rest[i] !in Literal(Fence)[0];
    RemoveAllBlocked(rest, Literal(Fence), 0);
    assert IsStripped(rest);
    StrippedUnchanged(rest);
  }

  lemma GluedTagRemoved(s: string, rest: string)
    requires s == "```sqlite" && rest == "ite"
    ensures RemoveAll(s, SqlFence) == rest
  {
    assert s == "```sql" + rest;
    assert MatchesAt("```sql", SqlFence);
    RemoveAllMatch("```sql", rest, SqlFence);
    assert forall i :: 0 <= i < |rest| ==> rest[i] !in SqlFence[0];
    RemoveAllBlocked(rest, SqlFence, 0);
  }

  /** Only the `sql` tag is removed: any other language tag stays behind as
      ordinary text once the bare fences go. */
  lemma CleanOtherTag(s: string)
    requires s == "```python x```"
    ensures CleanSql(Some(s)) == Some("python x")
  {
    var body := "python x";
    OtherTagKept(s, body);
    OtherFencesRemoved(s, body);
    TagTailStripped(body);
    CleanSqlSteps(s, s, body);
  }

  lemma OtherTagKept(s: string, body: string)
    requires s == "```python x```" && body == "python x"
    ensures s == Fence + (body + Fence)
    ensures RemoveAll(s, SqlFence) == s
  {
    assert s == Fence + (body + Fence);
    NoTagLetter(body);
    NoTagLetter(Fence);
    var t := body + Fence;
    assert forall i :: 0 <= i < |t| ==> t[i] !in SqlFence[3] by {
      assert forall i :: 0 <= i < |t| ==> t[i] == if i < |body| then body[i] else Fence[i - |body|];
    }
    assert forall i :: 3 <= i < |s| ==> s[i] == t[i - 3];
    RemoveAllBlocked(s, SqlFence, 3);
  }

  /** Neither the body nor a fence holds a letter the `sql` tag starts with. */
  lemma NoTagLetter(s: string)
    requires s == "python x" || s == Fence
    ensures forall i :: 0 <= i < |s| ==> s[i] !in SqlFence[3]
  {
  }

  lemma OtherFencesRemoved(s: string, body: string)
    requires s == Fence + (body + Fence) && body == "python x"
    ensures RemoveAll(s, Literal(Fence)) == body
  {
    var f := Literal(Fence);
    LiteralMatches(Fence, Fence);
    RemoveAllMatch(Fence, body + Fence, f);
    assert forall i :: 0 <= i < |body| ==> body[i] !in f[0];
    RemoveAllSkip(body, Fence, f);
    RemoveAllMatch(Fence, [], f);
    assert Fence + [] == Fence;
    assert body + [] == body;
  }

  lemma TagTailStripped(body: string)
    requires body == "python x"
    ensures Strip(body) == body
  {
    assert IsStripped(body);
    StrippedUnchanged(body);
  }
}
