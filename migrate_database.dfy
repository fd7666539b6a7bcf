/** migrate-database.js: runs a migration script against one MySQL connection,
    statement by statement, never stopping on a statement's error; then seeds
    the default administrator and reads two statistics. A connection failure,
    a missing file or an error after the statement loop ends the process. */
module Migrate {
  import opened Text
  import opened JsValues
  import opened Connections
  import opened SqlScript
  import opened AdminSeed

  /** What the loop reports for one statement. */
  datatype Verdict =
    | Succeeded
    | DuplicateEntry          // code ER_DUP_ENTRY, ignored
    | ColumnExists            // code ER_DUP_FIELDNAME, ignored
    | AlreadyExists           // message mentions "already exists", ignored
    | Failed(message: string) // reported, and the loop goes on
    | Skipped                 // an empty statement is not sent

  /** How the loop classifies a statement's error: the codes are looked at before
      the message, in this order. */
  function Classify(e: Error): (v: Verdict)
    ensures v == DuplicateEntry <==> e.code == "ER_DUP_ENTRY"
    ensures v == ColumnExists <==> e.code != "ER_DUP_ENTRY" && e.code == "ER_DUP_FIELDNAME"
    ensures v == AlreadyExists <==>
      e.code != "ER_DUP_ENTRY" && e.code != "ER_DUP_FIELDNAME" && Contains(e.message, "already exists")
    ensures v.Failed? <==>
      e.code != "ER_DUP_ENTRY" && e.code != "ER_DUP_FIELDNAME" && !Contains(e.message, "already exists")
    ensures v.Failed? ==> v.message == e.message
    ensures v != Succeeded && v != Skipped
  {
    if e.code == "ER_DUP_ENTRY" then DuplicateEntry
    else if e.code == "ER_DUP_FIELDNAME" then ColumnExists
    else if Contains(e.message, "already exists") then AlreadyExists
    else Failed(e.message)
  }

  function VerdictOf(o: Outcome): Verdict
  {
    if o.Ok? then Succeeded else Classify(o.error)
  }

  /** The verdicts of the loop over `stmts` when the statements' answers are
      read from position `base` of the connection's log on. */
  function Verdicts(base: nat, stmts: seq<string>, answer: nat -> Outcome): (v: seq<Verdict>)
    ensures |v| == |stmts|
    decreases |stmts|
  {
    if stmts == [] then []
    else
      var init := stmts[..|stmts| - 1];
      var last := stmts[|stmts| - 1];
      Verdicts(base, init, answer)
        + [if last == "" then Skipped else VerdictOf(answer(base + |Sends(init)|))]
  }

  /** No statement's failure stops the loop: when no statement is empty, the
      verdict of the `j`-th statement is that of the `j`-th answer. */
  lemma {:induction false} EveryStatementRuns(base: nat, stmts: seq<string>, answer: nat -> Outcome)
    requires forall j | 0 <= j < |stmts| :: stmts[j] != ""
    ensures forall j | 0 <= j < |stmts| :: Verdicts(base, stmts, answer)[j] == VerdictOf(answer(base + j))
    decreases |stmts|
  {
    if stmts != [] {
      var n := |stmts|;
      var init := stmts[..n - 1];
      EveryStatementRuns(base, init, answer);
      SendsEvery(init);
      var v := Verdicts(base, stmts, answer);
      var vi := Verdicts(base, init, answer);
      assert v == vi + [VerdictOf(answer(base + n - 1))];
      forall j | 0 <= j < n
        ensures v[j] == VerdictOf(answer(base + j))
      {
        if j < n - 1 {
          assert v[j] == vi[j];
        }
      }
    }
  }

  /** The loop of lines 55-77: every statement is sent, in order, whatever the
      earlier ones answered. */
  method ExecuteAll(conn: Connection, stmts: seq<string>) returns (verdicts: seq<Verdict>)
    modifies conn
    ensures conn.calls == old(conn.calls) + Sends(stmts)
    ensures verdicts == Verdicts(|old(conn.calls)|, stmts, conn.answer)
  {
    var base := |conn.calls|;
    ghost var before := conn.calls;
    verdicts := [];
    for i := 0 to |stmts|
      invariant conn.calls == before + Sends(stmts[..i])
      invariant verdicts == Verdicts(base, stmts[..i], conn.answer)
    {
      SendsStep(stmts, i);
      VerdictsStep(base, stmts, i, conn.answer);
      var stmt := stmts[i];
      if |stmt| == 0 {
        assert stmt == "";
        verdicts := verdicts + [Skipped];
        continue;
      }
      ghost var k := base + |Sends(stmts[..i])|;
      var r := conn.Perform(Send(stmt, []));
      assert r == conn.answer(k);
      verdicts := verdicts + [VerdictOf(r)];
    }
    assert stmts[..|stmts|] == stmts;
  }

  lemma VerdictsStep(base: nat, stmts: seq<string>, i: nat, answer: nat -> Outcome)
    requires i < |stmts|
    ensures Verdicts(base, stmts[..i + 1], answer)
      == Verdicts(base, stmts[..i], answer)
         + [if stmts[i] == "" then Skipped else VerdictOf(answer(base + |Sends(stmts[..i])|))]
  {
    assert stmts[..i + 1][..i] == stmts[..i];
  }

  /** `s.replace(/[\r\n]+/g, ' ')`: each run of line breaks becomes one space. */
  function CollapseBreaks(s: string): (r: string)
    ensures forall i | 0 <= i < |r| :: !IsLineBreak(r[i])
    ensures |r| <= |s|
    ensures (forall i | 0 <= i < |s| :: !IsLineBreak(s[i])) ==> r == s
    decreases |s|
  {
    if s == [] then []
    else if IsLineBreak(s[0]) then " " + CollapseBreaks(s[BreakRunEnd(s, 0)..])
    else [s[0]] + CollapseBreaks(s[1..])
  }

  /** A run of line breaks from `j` that stops at `e` is the one
      `BreakRunEnd` finds. */
  lemma BreakRunEndIs(s: string, j: nat, e: nat)
    requires j <= e <= |s|
    requires forall k | j <= k < e :: IsLineBreak(s[k])
    requires e < |s| ==> !IsLineBreak(s[e])
    ensures BreakRunEnd(s, j) == e
  {
  }

  /** Text that does not end inside a run of line breaks collapses on its
      own: what follows it cannot join one of its runs. */
  lemma {:induction false} CollapseBreaksAppend(a: string, b: string)
    requires a == [] || !IsLineBreak(a[|a| - 1])
    ensures CollapseBreaks(a + b) == CollapseBreaks(a) + CollapseBreaks(b)
    decreases |a|
  {
    if a == [] {
      assert a + b == b;
    } else if !IsLineBreak(a[0]) {
      assert (a + b)[0] == a[0];
      assert (a + b)[1..] == a[1..] + b;
      CollapseBreaksAppend(a[1..], b);
    } else {
      var e := BreakRunEnd(a, 0);
      assert e < |a|;
      BreakRunEndIs(a + b, 0, e);
      assert (a + b)[e..] == a[e..] + b;
      CollapseBreaksAppend(a[e..], b);
    }
  }

  /** A whole run of line breaks, however long and whatever its mix of `\r`
      and `\n`, becomes a single space. */
  lemma RunCollapses(run: string, b: string)
    requires run != [] && forall k | 0 <= k < |run| :: IsLineBreak(run[k])
    requires b == [] || !IsLineBreak(b[0])
    ensures CollapseBreaks(run + b) == " " + CollapseBreaks(b)
  {
    BreakRunEndIs(run + b, 0, |run|);
    assert (run + b)[|run|..] == b;
  }

  /** Text, a maximal run of line breaks, and more text: the run turns into
      one space between the collapsed text on either side. */
  lemma CollapseRun(a: string, run: string, b: string)
    requires a == [] || !IsLineBreak(a[|a| - 1])
    requires run != [] && forall k | 0 <= k < |run| :: IsLineBreak(run[k])
    requires b == [] || !IsLineBreak(b[0])
    ensures CollapseBreaks(a + (run + b)) == CollapseBreaks(a) + (" " + CollapseBreaks(b))
  {
    CollapseBreaksAppend(a, run + b);
    RunCollapses(run, b);
  }

  /** The line logged before a statement runs: its first 80 characters on one
      line, then `...`. */
  function Preview(stmt: string): (r: string)
    ensures |r| <= 83
    ensures forall i | 0 <= i < |r| :: !IsLineBreak(r[i])
    ensures |r| >= 3 && r[|r| - 3..] == "..."
    ensures |stmt| <= 80 && (forall i | 0 <= i < |stmt| :: !IsLineBreak(stmt[i])) ==> r == stmt + "..."
    ensures |stmt| <= 80 ==> r == CollapseBreaks(stmt) + "..."
    ensures |stmt| > 80 ==> r == CollapseBreaks(stmt[..80]) + "..."
  {
    var head := if |stmt| <= 80 then stmt else stmt[..80];
    CollapseBreaks(head) + "..."
  }

  /** What the run reports once it has gone through. */
  datatype Report = Report(verdicts: seq<Verdict>, adminInserted: bool, statuses: Value, tables: nat)

  const CountStatuses := "SELECT COUNT(*) as count " + "FROM statuses"
  const ShowTables := "SHOW TABLES"

  function FileNotFound(migrationPath: string): Error
  {
    Error("", "Migration file not found: " + migrationPath)
  }

  /** `statusCount[0].count` on an empty result. */
  const CountOfUndefined := Error("", "Cannot read properties of undefined (reading 'count')")

  /** Lines 82-98: looks the administrator up by e-mail and inserts it when
      the look-up returns no row. `Ok(inserted)` unless a query threw. */
  method SeedAdmin(conn: Connection, passwordHash: string) returns (r: Result<bool, Error>)
    modifies conn
    ensures var k := |old(conn.calls)|;
      var lookup := conn.answer(k);
      var insert := conn.answer(k + 1);
      && (lookup.Err? ==>
           conn.calls == old(conn.calls) + [Send(Lookup, LookupParams())] && r == Err(lookup.error))
      && (lookup.Ok? && lookup.value != [] ==>
           conn.calls == old(conn.calls) + [Send(Lookup, LookupParams())] && r == Ok(false))
      && (lookup == Ok([]) ==>
           && conn.calls == old(conn.calls) + [Send(Lookup, LookupParams()), Send(Insert, InsertParams(passwordHash))]
           && r == if insert.Ok? then Ok(true) else Err(insert.error))
  {
    var lookup := conn.Perform(Send(Lookup, LookupParams()));
    if lookup.Err? {
      return Err(lookup.error);
    }
    if lookup.value != [] {
      return Ok(false);
    }
    var ins := conn.Perform(Send(Insert, InsertParams(passwordHash)));
    if ins.Err? {
      return Err(ins.error);
    }
    return Ok(true);
  }

  /** Lines 101-107: the number of statuses (read from the first row, which
      must exist) and the number of tables. */
  method Statistics(conn: Connection) returns (r: Result<(Value, nat), Error>)
    modifies conn
    ensures var k := |old(conn.calls)|;
      var count := conn.answer(k);
      var tables := conn.answer(k + 1);
      && (count.Err? ==> conn.calls == old(conn.calls) + [Send(CountStatuses, [])] && r == Err(count.error))
      && (count == Ok([]) ==> conn.calls == old(conn.calls) + [Send(CountStatuses, [])] && r == Err(CountOfUndefined))
      && (count.Ok? && count.value != [] ==>
           && conn.calls == old(conn.calls) + [Send(CountStatuses, []), Send(ShowTables, [])]
           && r == if tables.Ok? then Ok((Column(count.value[0], "count"), |tables.value|)) else Err(tables.error))
  {
    var count := conn.Perform(Send(CountStatuses, []));
    if count.Err? {
      return Err(count.error);
    }
    if count.value == [] {
      return Err(CountOfUndefined);
    }
    var tables := conn.Perform(Send(ShowTables, []));
    if tables.Err? {
      return Err(tables.error);
    }
    return Ok((Column(count.value[0], "count"), |tables.value|));
  }

  /** The calls of lines 82-92 when the look-up is the `k`-th call: the
      look-up, then the insert exactly when it found no administrator. */
  function SeedCalls(k: nat, answer: nat -> Outcome, passwordHash: string): seq<Call>
  {
    [Send(Lookup, LookupParams())] + (if answer(k) == Ok([]) then [Send(Insert, InsertParams(passwordHash))] else [])
  }

  /** The calls of lines 101-107. */
  const StatisticsCalls := [Send(CountStatuses, []), Send(ShowTables, [])]

  /** The position of the count query when the look-up is the `k`-th call. */
  function CountAt(k: nat, answer: nat -> Outcome): nat
  {
    if answer(k) == Ok([]) then k + 2 else k + 1
  }

  /** Lines 82-107 go through when the look-up is the `k`-th call: the
      look-up and, when sent, the insert succeed, the count has a first row,
      and `SHOW TABLES` succeeds. */
  predicate TailSucceeds(k: nat, answer: nat -> Outcome)
  {
    var c := CountAt(k, answer);
    && answer(k).Ok?
    && (answer(k) == Ok([]) ==> answer(k + 1).Ok?)
    && answer(c).Ok? && answer(c).value != []
    && answer(c + 1).Ok?
  }

  /** The calls of lines 82-107 when the look-up is the `k`-th call: the
      seed and the statistics, up to and including the first call that
      throws; a count without a first row throws reading `count` before
      `SHOW TABLES` is sent. */
  function TailCalls(k: nat, answer: nat -> Outcome, passwordHash: string): seq<Call>
  {
    var seed := SeedCalls(k, answer, passwordHash);
    var c := CountAt(k, answer);
    if answer(k).Err? || (answer(k) == Ok([]) && answer(k + 1).Err?) then seed
    else if answer(c).Err? || answer(c).value == [] then seed + [Send(CountStatuses, [])]
    else seed + StatisticsCalls
  }

  /** The error that ends lines 82-107 when they do not go through: that of
      the first call that throws, or reading `count` of a missing first row. */
  function TailError(k: nat, answer: nat -> Outcome): Error
    requires !TailSucceeds(k, answer)
  {
    var c := CountAt(k, answer);
    if answer(k).Err? then answer(k).error
    else if answer(k) == Ok([]) && answer(k + 1).Err? then answer(k + 1).error
    else if answer(c).Err? then answer(c).error
    else if answer(c).value == [] then CountOfUndefined
    else answer(c + 1).error
  }

  /** The calls of lines 82-107 are those of the seed and the statistics,
      cut after the first failure: every call before the last one succeeded,
      the last one failed unless the whole tail went through, and then all
      of them were sent. */
  lemma TailCallsPrefix(k: nat, answer: nat -> Outcome, passwordHash: string)
    ensures TailCalls(k, answer, passwordHash) <= SeedCalls(k, answer, passwordHash) + StatisticsCalls
    ensures TailSucceeds(k, answer) ==>
      TailCalls(k, answer, passwordHash) == SeedCalls(k, answer, passwordHash) + StatisticsCalls
    ensures var t := TailCalls(k, answer, passwordHash);
      && t != []
      && (forall j | k <= j < k + |t| - 1 :: answer(j).Ok?)
      && (!TailSucceeds(k, answer) ==>
           answer(k + |t| - 1).Err? || (t[|t| - 1] == Send(CountStatuses, []) && answer(k + |t| - 1) == Ok([])))
  {
    var seed := SeedCalls(k, answer, passwordHash);
    assert (seed + StatisticsCalls)[..|seed|] == seed;
    assert (seed + StatisticsCalls)[..|seed| + 1] == seed + [Send(CountStatuses, [])];
  }

  /** A failing look-up or insert ends the tail: nothing after it is sent and
      its error is the tail's. */
  lemma TailOnSeedFailure(k: nat, answer: nat -> Outcome, passwordHash: string)
    requires answer(k).Err? || (answer(k) == Ok([]) && answer(k + 1).Err?)
    ensures !TailSucceeds(k, answer)
    ensures TailCalls(k, answer, passwordHash) == SeedCalls(k, answer, passwordHash)
    ensures TailError(k, answer) == if answer(k).Err? then answer(k).error else answer(k + 1).error
  {
  }

  /** Once the seed went through, the count is the next call, and the tail
      is decided by the statistics' answers. */
  lemma TailAfterSeed(k: nat, answer: nat -> Outcome, passwordHash: string)
    requires answer(k).Ok? && (answer(k) == Ok([]) ==> answer(k + 1).Ok?)
    ensures CountAt(k, answer) == k + |SeedCalls(k, answer, passwordHash)|
    ensures var c := CountAt(k, answer);
      var seed := SeedCalls(k, answer, passwordHash);
      && (answer(c).Err? || answer(c).value == [] ==>
           && !TailSucceeds(k, answer)
           && TailCalls(k, answer, passwordHash) == seed + [Send(CountStatuses, [])]
           && TailError(k, answer) == if answer(c).Err? then answer(c).error else CountOfUndefined)
      && (answer(c).Ok? && answer(c).value != [] ==>
           TailCalls(k, answer, passwordHash) == seed + StatisticsCalls)
      && (answer(c).Ok? && answer(c).value != [] && answer(c + 1).Err? ==>
           !TailSucceeds(k, answer) && TailError(k, answer) == answer(c + 1).error)
      && (answer(c).Ok? && answer(c).value != [] && answer(c + 1).Ok? ==>
           && TailSucceeds(k, answer)
           && TailReport(k, answer)
              == (answer(k) == Ok([]), Column(answer(c).value[0], "count"), |answer(c + 1).value|))
  {
  }

  /** The log of lines 82-107 after the calls `before`, with `connection.end()`
      when they went through: the look-up comes first, the insert follows it
      exactly when no administrator was found, and `end()` is there exactly
      when they went through. */
  lemma TailLogShape(before: seq<Call>, answer: nat -> Outcome, passwordHash: string, ok: bool)
    requires ok ==> TailSucceeds(|before|, answer)
    ensures var k := |before|;
      var log := before + TailCalls(k, answer, passwordHash) + (if ok then [End] else []);
      && before < log
      && log[k] == Send(Lookup, LookupParams())
      && (answer(k) == Ok([]) <==> |log| > k + 1 && log[k + 1] == Send(Insert, InsertParams(passwordHash)))
      && (ok <==> log[|log| - 1] == End)
      && (!ok ==> End !in log[k..])
      && (!ok && End !in before ==> End !in log)
      && (ok ==> log == before + SeedCalls(k, answer, passwordHash) + StatisticsCalls + [End])
  {
    var k := |before|;
    var t := TailCalls(k, answer, passwordHash);
    var log := before + t + (if ok then [End] else []);
    assert log[k..] == t + (if ok then [End] else []);
    assert End !in t;
  }

  /** What lines 82-107 report when they go through: whether the
      administrator was inserted, the first row's `count`, and the number of
      tables. */
  function TailReport(k: nat, answer: nat -> Outcome): (bool, Value, nat)
    requires TailSucceeds(k, answer)
  {
    var c := CountAt(k, answer);
    (answer(k) == Ok([]), Column(answer(c).value[0], "count"), |answer(c + 1).value|)
  }

  /** Lines 55-107 on a fresh connection: the statements, the administrator,
      the statistics, and `connection.end()` when all of that went through. */
  method RunStatements(conn: Connection, stmts: seq<string>, passwordHash: string)
    returns (r: Result<Report, Error>)
    requires conn.calls == []
    modifies conn
    ensures var k := |Sends(stmts)|;
      && |conn.calls| > k
      && Sends(stmts) < conn.calls
      && conn.calls[k] == Send(Lookup, LookupParams())
      && (conn.answer(k) == Ok([]) <==>
           |conn.calls| > k + 1 && conn.calls[k + 1] == Send(Insert, InsertParams(passwordHash)))
    ensures r.Ok? <==> conn.calls[|conn.calls| - 1] == End
    ensures r.Err? ==> End !in conn.calls
    ensures var k := |Sends(stmts)|;
      && (r.Ok? <==> TailSucceeds(k, conn.answer))
      && (r.Ok? ==>
           && conn.calls == Sends(stmts) + SeedCalls(k, conn.answer, passwordHash) + StatisticsCalls + [End]
           && r.value == Report(Verdicts(0, stmts, conn.answer), TailReport(k, conn.answer).0,
                                TailReport(k, conn.answer).1, TailReport(k, conn.answer).2))
    ensures var k := |Sends(stmts)|;
      && conn.calls == Sends(stmts) + TailCalls(k, conn.answer, passwordHash) + (if r.Ok? then [End] else [])
      && (r.Err? ==> !TailSucceeds(k, conn.answer) && r.error == TailError(k, conn.answer))
    ensures r.Ok? ==>
      && r.value.verdicts == Verdicts(0, stmts, conn.answer)
      && (r.value.adminInserted <==> conn.answer(|Sends(stmts)|) == Ok([]))
  {
    var verdicts := ExecuteAll(conn, stmts);
    assert [] + Sends(stmts) == Sends(stmts);
    ghost var sends := conn.calls;
    var tail := SeedAndCount(conn, passwordHash);
    assert End !in sends;
    if tail.Err? {
      r := Err(tail.error);
    } else {
      var (inserted, statuses, tables) := tail.value;
      r := Ok(Report(verdicts, inserted, statuses, tables));
    }
    TailLogShape(sends, conn.answer, passwordHash, r.Ok?);
  }

  /** Lines 82-107 and the `connection.end()` that follows them: the
      administrator, the statistics, then the end of the connection. The log
      grows by the tail's calls, up to and including the first failure, and
      by `end()` exactly when the tail went through; `TailLogShape` reads the
      order of the look-up, the insert and `end()` off this. */
  method SeedAndCount(conn: Connection, passwordHash: string) returns (r: Result<(bool, Value, nat), Error>)
    modifies conn
    ensures var k := |old(conn.calls)|;
      && (r.Ok? <==> TailSucceeds(k, conn.answer))
      && conn.calls == old(conn.calls) + TailCalls(k, conn.answer, passwordHash) + (if r.Ok? then [End] else [])
      && (r.Ok? ==> r.value == TailReport(k, conn.answer))
      && (r.Err? ==> r.error == TailError(k, conn.answer))
  {
    ghost var before := conn.calls;
    ghost var k := |before|;
    var seeded := SeedAdmin(conn, passwordHash);
    if seeded.Err? {
      TailOnSeedFailure(k, conn.answer, passwordHash);
      assert conn.calls == before + TailCalls(k, conn.answer, passwordHash) + [];
      return Err(seeded.error);
    }
    TailAfterSeed(k, conn.answer, passwordHash);
    assert conn.calls == before + SeedCalls(k, conn.answer, passwordHash);
    var stats := Statistics(conn);
    if stats.Err? {
      assert conn.calls == before + TailCalls(k, conn.answer, passwordHash) + [];
      return Err(stats.error);
    }
    var _ := conn.Perform(End);
    assert conn.calls == before + TailCalls(k, conn.answer, passwordHash) + [End];
    r := Ok((seeded.value, stats.value.0, stats.value.1));
  }

  /** `runMigration`. `connectError` is what `mysql.createConnection` threw, if
      anything; `sql` the file's text (`None` when it does not exist); `answer`
      the server's answer to each call on the connection; `passwordHash` what
      bcrypt made of the default password. `stmts` are the statements found in
      the file, `log` every call issued on the connection, and an `Err` result
      is the error that reached the outer catch, which exits the process before
      `finally` can close the connection. */
  method RunMigration(connectError: Option<Error>, sql: Option<string>, migrationPath: string,
                      answer: nat -> Outcome, passwordHash: string)
    returns (stmts: seq<string>, log: seq<Call>, r: Result<Report, Error>)
    ensures connectError.Some? ==> log == [] && r == Err(connectError.value)
    ensures connectError.None? && sql.None? ==> log == [] && r == Err(FileNotFound(migrationPath))
    ensures connectError.None? && sql.Some? ==>
      && stmts == MigrationStatements(sql.value)
      && var k := |Sends(stmts)|;
      && Sends(stmts) < log && log[k] == Send(Lookup, LookupParams())
      && (answer(k) == Ok([]) <==> |log| > k + 1 && log[k + 1] == Send(Insert, InsertParams(passwordHash)))
    ensures r.Err? ==> End !in log
    ensures r.Ok? <==>
      connectError.None? && sql.Some? && TailSucceeds(|Sends(MigrationStatements(sql.value))|, answer)
    ensures r.Ok? ==>
      var k := |Sends(stmts)|;
      && log == Sends(stmts) + SeedCalls(k, answer, passwordHash) + StatisticsCalls + [End]
      && r.value == Report(Verdicts(0, stmts, answer), TailReport(k, answer).0,
                           TailReport(k, answer).1, TailReport(k, answer).2)
    ensures connectError.None? && sql.Some? ==>
      var k := |Sends(stmts)|;
      && log == Sends(stmts) + TailCalls(k, answer, passwordHash) + (if r.Ok? then [End] else [])
      && (r.Err? ==> !TailSucceeds(k, answer) && r.error == TailError(k, answer))
    ensures r.Ok? ==>
      && connectError.None? && sql.Some?
      && End in log
      && r.value.verdicts == Verdicts(0, stmts, answer)
      && (r.value.adminInserted <==> answer(|Sends(stmts)|) == Ok([]))
  {
    stmts := [];
    if connectError.Some? {
      return stmts, [], Err(connectError.value);
    }
    var conn := new Connection(MySql, answer);
    if sql.None? {
      return stmts, conn.calls, Err(FileNotFound(migrationPath));
    }
    stmts := MigrationStatements(sql.value);
    r := RunStatements(conn, stmts, passwordHash);
    log := conn.calls;
  }
}
