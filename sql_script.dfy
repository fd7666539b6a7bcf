/** Cutting a SQL script into statements, as the two runners do it:
    `sql.split(/;\s*[\r\n]/).map(s => s.trim()).filter(Boolean)` in
    src/config/db-postgres.js, and the same with `/;\s*[\r\n]+/` followed by a
    filter on `--` comments in migrate-database.js. */
module SqlScript {
  import opened Text
  import opened JsValues
  import opened Connections

  /** The two delimiter patterns: `;\s*[\r\n]` and `;\s*[\r\n]+`. */
  datatype Pattern = OneBreak | BreakRun

  /** Where the run of white space that starts at `j` ends. */
  function SpaceRunEnd(s: string, j: nat): (e: nat)
    requires j <= |s|
    ensures j <= e <= |s|
    ensures forall k | j <= k < e :: IsSpace(s[k])
    ensures e < |s| ==> !IsSpace(s[e])
    decreases |s| - j
  {
    if j < |s| && IsSpace(s[j]) then SpaceRunEnd(s, j + 1) else j
  }

  /** Where the run of line breaks that starts at `j` ends. */
  function BreakRunEnd(s: string, j: nat): (e: nat)
    requires j <= |s|
    ensures j <= e <= |s|
    ensures forall k | j <= k < e :: IsLineBreak(s[k])
    ensures e < |s| ==> !IsLineBreak(s[e])
    decreases |s| - j
  {
    if j < |s| && IsLineBreak(s[j]) then BreakRunEnd(s, j + 1) else j
  }

  /** The last line break in `s[j..e]`, if there is one. */
  function LastBreak(s: string, j: nat, e: nat): (r: Option<nat>)
    requires j <= e <= |s|
    ensures r.Some? ==> j <= r.value < e && IsLineBreak(s[r.value])
    ensures r.Some? ==> forall k | r.value < k < e :: !IsLineBreak(s[k])
    ensures r.None? ==> forall k | j <= k < e :: !IsLineBreak(s[k])
    decreases e - j
  {
    if e == j then None
    else if IsLineBreak(s[e - 1]) then Some(e - 1)
    else LastBreak(s, j, e - 1)
  }

  /** Where the delimiter that the regular expression matches at position `i`
      ends, if one starts there. After the `;`, `\s*` first takes the whole run
      of white space, then gives characters back until `[\r\n]` can match: the
      match ends just after the last line break of the run (none: no match
      here). With `[\r\n]+` the match goes on over the line breaks that follow
      that one. */
  function DelimiterEnd(s: string, i: nat, pat: Pattern): (r: Option<nat>)
    requires i <= |s|
    ensures r.Some? ==> i < r.value <= |s|
  {
    if i < |s| && s[i] == ';' then
      match LastBreak(s, i + 1, SpaceRunEnd(s, i + 1))
      case None => None
      case Some(b) => Some(if pat == OneBreak then b + 1 else BreakRunEnd(s, b))
    else None
  }

  /** Both patterns match at the same places and cover the same text: the
      last line break of a white-space run is followed by no other one. */
  lemma DelimitersAgree(s: string, i: nat)
    requires i <= |s|
    ensures DelimiterEnd(s, i, OneBreak) == DelimiterEnd(s, i, BreakRun)
  {
    if i < |s| && s[i] == ';' {
      var e := SpaceRunEnd(s, i + 1);
      var lb := LastBreak(s, i + 1, e);
      if lb.Some? {
        var b := lb.value;
        assert b + 1 == e || (b + 1 < e && !IsLineBreak(s[b + 1]));
        assert b + 1 < |s| ==> !IsLineBreak(s[b + 1]);
      }
    }
  }

  /** The first position at or after `q` where a delimiter starts. */
  function NextDelimiter(s: string, q: nat, pat: Pattern): (r: Option<nat>)
    requires q <= |s|
    ensures r.Some? ==> q <= r.value < |s| && DelimiterEnd(s, r.value, pat).Some?
    ensures r.Some? ==> forall k | q <= k < r.value :: DelimiterEnd(s, k, pat).None?
    ensures r.None? ==> forall k | q <= k <= |s| :: DelimiterEnd(s, k, pat).None?
    decreases |s| - q
  {
    if q == |s| then None
    else if DelimiterEnd(s, q, pat).Some? then Some(q)
    else NextDelimiter(s, q + 1, pat)
  }

  /** A piece of the script: the text between `start` and `end`. */
  datatype Span = Span(start: nat, end: nat)

  /** The pieces of `s[p..]` that `split` returns, as positions: they run from
      `p` to the end of `s`, consecutive pieces are separated by exactly one
      delimiter, and no delimiter starts inside a piece. */
  function Spans(s: string, p: nat, pat: Pattern): (r: seq<Span>)
    requires p <= |s|
    ensures |r| >= 1 && r[0].start == p && r[|r| - 1].end == |s|
    ensures forall i | 0 <= i < |r| :: r[i].start <= r[i].end <= |s|
    ensures forall i | 0 <= i < |r| - 1 :: DelimiterEnd(s, r[i].end, pat) == Some(r[i + 1].start)
    ensures forall i, k | 0 <= i < |r| && r[i].start <= k < r[i].end :: DelimiterEnd(s, k, pat).None?
    decreases |s| - p
  {
    match NextDelimiter(s, p, pat)
    case None => [Span(p, |s|)]
    case Some(q) => [Span(p, q)] + Spans(s, DelimiterEnd(s, q, pat).value, pat)
  }

  /** `s.split(pattern)` */
  function Split(s: string, pat: Pattern): (r: seq<string>)
    ensures var sp := Spans(s, 0, pat);
      |r| == |sp| && forall i | 0 <= i < |r| :: r[i] == s[sp[i].start..sp[i].end]
  {
    var sp := Spans(s, 0, pat);
    seq(|sp|, i requires 0 <= i < |sp| => s[sp[i].start..sp[i].end])
  }

  lemma {:induction false} SpansAgree(s: string, p: nat)
    requires p <= |s|
    ensures Spans(s, p, OneBreak) == Spans(s, p, BreakRun)
    decreases |s| - p
  {
    forall k | 0 <= k <= |s|
      ensures DelimiterEnd(s, k, OneBreak) == DelimiterEnd(s, k, BreakRun)
    {
      DelimitersAgree(s, k);
    }
    var n1 := NextDelimiter(s, p, OneBreak);
    var n2 := NextDelimiter(s, p, BreakRun);
    assert n1 == n2;
    if n1.Some? {
      SpansAgree(s, DelimiterEnd(s, n1.value, OneBreak).value);
    }
  }

  /** The `;\s*[\r\n]` of db-postgres.js and the `;\s*[\r\n]+` of
      migrate-database.js cut every script into the same pieces. */
  lemma SplitPatternsAgree(s: string)
    ensures Split(s, OneBreak) == Split(s, BreakRun)
  {
    SpansAgree(s, 0);
  }

  /** `.map(s => s.trim()).filter(Boolean)`: the trimmed pieces, in order,
      without the empty ones. */
  function TrimmedNonEmpty(pieces: seq<string>): (r: seq<string>)
    ensures |r| <= |pieces|
    ensures forall j | 0 <= j < |r| :: r[j] != "" && Trim(r[j]) == r[j]
    decreases |pieces|
  {
    if pieces == [] then []
    else
      var t := Trim(pieces[0]);
      var rest := TrimmedNonEmpty(pieces[1..]);
      if t == "" then rest
      else
        TrimIdempotent(pieces[0]);
        [t] + rest
  }

  /** A statement is kept exactly when it is the non-empty trim of a piece. */
  lemma {:induction false} TrimmedNonEmptyMembers(pieces: seq<string>, x: string)
    ensures x in TrimmedNonEmpty(pieces) <==> x != "" && exists i | 0 <= i < |pieces| :: Trim(pieces[i]) == x
    decreases |pieces|
  {
    if pieces != [] {
      var tail := pieces[1..];
      var t := Trim(pieces[0]);
      var rest := TrimmedNonEmpty(tail);
      assert TrimmedNonEmpty(pieces) == if t == "" then rest else [t] + rest;
      TrimmedNonEmptyMembers(tail, x);
      assert x in TrimmedNonEmpty(pieces) <==> (t != "" && x == t) || x in rest;
      var inTail := exists i | 0 <= i < |tail| :: Trim(tail[i]) == x;
      var inAll := exists i | 0 <= i < |pieces| :: Trim(pieces[i]) == x;
      assert inAll <==> Trim(pieces[0]) == x || inTail by {
        if inAll {
          var i :| 0 <= i < |pieces| && Trim(pieces[i]) == x;
          if i > 0 {
            assert Trim(tail[i - 1]) == x;
          }
        }
        if inTail {
          var i :| 0 <= i < |tail| && Trim(tail[i]) == x;
          assert Trim(pieces[i + 1]) == x;
        }
      }
    }
  }

  /** Order is kept: the statements of two consecutive parts of a script are
      those of the first followed by those of the second. */
  lemma {:induction false} TrimmedNonEmptyAppend(a: seq<string>, b: seq<string>)
    ensures TrimmedNonEmpty(a + b) == TrimmedNonEmpty(a) + TrimmedNonEmpty(b)
    decreases |a|
  {
    if a == [] {
      assert a + b == b;
    } else {
      assert (a + b)[1..] == a[1..] + b;
      TrimmedNonEmptyAppend(a[1..], b);
    }
  }

  /** The statements `runMigrations` executes (src/config/db-postgres.js). */
  function PostgresStatements(sql: string): (r: seq<string>)
    ensures forall j | 0 <= j < |r| :: r[j] != "" && Trim(r[j]) == r[j]
  {
    TrimmedNonEmpty(Split(sql, OneBreak))
  }

  /** The comment filter of migrate-database.js: a statement that starts with
      `--` is kept only when it mentions `INSERT` or `ALTER`. */
  predicate KeptByCommentFilter(stmt: string)
  {
    !StartsWith(stmt, "--") || Contains(stmt, "INSERT") || Contains(stmt, "ALTER")
  }

  /** `.filter(s => !s.startsWith('--') || s.includes('INSERT') || s.includes('ALTER'))` */
  function CommentFilter(stmts: seq<string>): (r: seq<string>)
    ensures |r| <= |stmts|
    ensures forall j | 0 <= j < |r| :: r[j] in stmts && KeptByCommentFilter(r[j])
    ensures forall j | 0 <= j < |stmts| :: KeptByCommentFilter(stmts[j]) ==> stmts[j] in r
    decreases |stmts|
  {
    if stmts == [] then []
    else (if KeptByCommentFilter(stmts[0]) then [stmts[0]] else []) + CommentFilter(stmts[1..])
  }

  /** The filter keeps a lone statement exactly when it passes. */
  lemma CommentFilterOne(stmt: string)
    ensures CommentFilter([stmt]) == if KeptByCommentFilter(stmt) then [stmt] else []
  {
    assert [stmt][1..] == [];
  }

  /** The filter works statement by statement: filtering a concatenation
      filters each part and keeps their order. With `CommentFilterOne` this
      says the result is the passing statements, in order, each as often as
      it occurs. */
  lemma {:induction false} CommentFilterAppend(a: seq<string>, b: seq<string>)
    ensures CommentFilter(a + b) == CommentFilter(a) + CommentFilter(b)
    decreases |a|
  {
    if a == [] {
      assert a + b == b;
    } else {
      assert (a + b)[0] == a[0];
      assert (a + b)[1..] == a[1..] + b;
      CommentFilterAppend(a[1..], b);
    }
  }

  /** The statements migrate-database.js executes. */
  function MigrationStatements(sql: string): (r: seq<string>)
    ensures forall j | 0 <= j < |r| :: r[j] != "" && Trim(r[j]) == r[j] && KeptByCommentFilter(r[j])
  {
    CommentFilter(TrimmedNonEmpty(Split(sql, BreakRun)))
  }

  /** The migration script runs what `runMigrations` would run, minus the
      comment-led statements that mention neither `INSERT` nor `ALTER`. */
  lemma MigrationIsFilteredPostgres(sql: string)
    ensures MigrationStatements(sql) == CommentFilter(PostgresStatements(sql))
  {
    SplitPatternsAgree(sql);
  }

  /** What a runner's loop sends for `stmts`, in order: `query(stmt)`, without
      parameters, for each statement that is not empty; empty ones are skipped. */
  function Sends(stmts: seq<string>): (r: seq<Call>)
    ensures |r| <= |stmts|
    ensures forall j | 0 <= j < |r| :: r[j].Send? && r[j].text != "" && r[j].params == []
    decreases |stmts|
  {
    if stmts == [] then []
    else
      var last := stmts[|stmts| - 1];
      Sends(stmts[..|stmts| - 1]) + (if last == "" then [] else [Send(last, [])])
  }

  /** When no statement is empty, each one is sent, at its own index. */
  lemma {:induction false} SendsEvery(stmts: seq<string>)
    requires forall j | 0 <= j < |stmts| :: stmts[j] != ""
    ensures |Sends(stmts)| == |stmts|
    ensures forall j | 0 <= j < |stmts| :: Sends(stmts)[j] == Send(stmts[j], [])
    decreases |stmts|
  {
    if stmts != [] {
      SendsEvery(stmts[..|stmts| - 1]);
    }
  }

  /** The calls for a prefix of the statements are a prefix of the calls for
      all of them. */
  /** A lone statement is sent exactly when it is not empty. */
  lemma SendsOne(stmt: string)
    ensures Sends([stmt]) == if stmt == "" then [] else [Send(stmt, [])]
  {
    assert [stmt][..0] == [];
  }

  /** The loop goes statement by statement: the calls for a concatenation are
      those of the first part, then those of the second. */
  lemma {:induction false} SendsAppend(a: seq<string>, b: seq<string>)
    ensures Sends(a + b) == Sends(a) + Sends(b)
    decreases |b|
  {
    if b == [] {
      assert a + b == a;
    } else {
      var init := b[..|b| - 1];
      assert (a + b)[..|a + b| - 1] == a + init;
      assert (a + b)[|a + b| - 1] == b[|b| - 1];
      SendsAppend(a, init);
    }
  }

  lemma {:induction false} SendsPrefix(stmts: seq<string>, i: nat)
    requires i <= |stmts|
    ensures Sends(stmts[..i]) <= Sends(stmts)
    decreases |stmts| - i
  {
    if i < |stmts| {
      SendsPrefix(stmts, i + 1);
      assert stmts[..i + 1][..i] == stmts[..i];
    } else {
      assert stmts[..i] == stmts;
    }
  }

  /** One more statement adds its own call, unless it is empty. */
  lemma SendsStep(stmts: seq<string>, i: nat)
    requires i < |stmts|
    ensures Sends(stmts[..i + 1]) == Sends(stmts[..i]) + (if stmts[i] == "" then [] else [Send(stmts[i], [])])
    ensures Sends(stmts[..i + 1]) <= Sends(stmts)
  {
    assert stmts[..i + 1][..i] == stmts[..i];
    SendsPrefix(stmts, i + 1);
  }
}
