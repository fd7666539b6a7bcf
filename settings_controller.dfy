/** The settings controller (src/controllers/settingsController.js): reading
    the `settings` table into a key/value object, saving a form's entries in
    one transaction, and recording the outcome of an SMTP test.

    `flag` is the controller's own `isPostgres`. It comes from whichever
    configuration module was loaded, and src/config/db-postgres.js does not
    export one, so on a PostgreSQL deployment it is `undefined` (false) while
    the adapter itself is in PostgreSQL mode. The two are independent inputs
    here. */
module Settings {
  import opened Text
  import opened JsValues
  import opened Connections
  import opened DbAdapter

  /** A plain JavaScript object used as a dictionary: own property name to
      value. Reading a missing property gives `undefined` (`Column`). */
  type Dict = map<string, Value>

  const SelectSettings := "SELECT key, " + "value FROM " + "settings"

  const PgUpsertHead := "INSERT INTO " + "settings(key, " + "value) VALUES ("
  const PgUpsertTail := ") ON CONFLICT " + "(key) DO UPDATE " + "SET value = " + "EXCLUDED.value"
  /** `INSERT INTO settings(key, value) VALUES (?, ?) ON CONFLICT (key) DO UPDATE SET value = EXCLUDED.value` */
  const PgUpsert := Fill([PgUpsertHead, ", ", PgUpsertTail])

  const MySqlUpsertHead := "INSERT INTO " + "settings(`key`, " + "`value`) VALUES ("
  const MySqlUpsertTail := ") ON DUPLICATE " + "KEY UPDATE " + "`value` = " + "VALUES(`value`)"
  /** ``INSERT INTO settings(`key`, `value`) VALUES (?, ?) ON DUPLICATE KEY UPDATE `value` = VALUES(`value`)`` */
  const MySqlUpsert := Fill([MySqlUpsertHead, ", ", MySqlUpsertTail])

  /** The PostgreSQL upsert has two placeholders, for `[key, value]`,
      numbered `$1`, `$2`. */
  lemma PgUpsertBindsItsParameters()
    ensures Placeholders(PgUpsert) == 2
    ensures Unnumber(Numbered(PgUpsert, 1)) == (PgUpsert, Range(1, 2))
  {
    PgUpsertPartsPlain();
    TwoPlaceholders(PgUpsertHead, ", ", PgUpsertTail);
  }

  /** The MySQL upsert has two placeholders, for `[key, value]`. */
  lemma MySqlUpsertBindsItsParameters()
    ensures Placeholders(MySqlUpsert) == 2
  {
    MySqlUpsertPartsPlain();
    TwoPlaceholders(MySqlUpsertHead, ", ", MySqlUpsertTail);
  }

  // The pieces of the upserts hold no placeholder; each lemma looks at a few
  // literals only.

  lemma PgUpsertPartsPlain()
    ensures Plain(PgUpsertHead) && Plain(", ") && Plain(PgUpsertTail)
  {
    assert Plain("INSERT INTO ") && Plain("settings(key, ") && Plain("value) VALUES (");
    PgUpsertTailPlain();
  }

  lemma PgUpsertTailPlain()
    ensures Plain(PgUpsertTail)
  {
    assert Plain(") ON CONFLICT ") && Plain("(key) DO UPDATE ");
    assert Plain("SET value = ") && Plain("EXCLUDED.value");
  }

  lemma MySqlUpsertPartsPlain()
    ensures Plain(MySqlUpsertHead) && Plain(", ") && Plain(MySqlUpsertTail)
  {
    assert Plain("INSERT INTO ") && Plain("settings(`key`, ") && Plain("`value`) VALUES (");
    MySqlUpsertTailPlain();
  }

  lemma MySqlUpsertTailPlain()
    ensures Plain(MySqlUpsertTail)
  {
    assert Plain(") ON DUPLICATE ") && Plain("KEY UPDATE ");
    assert Plain("`value` = ") && Plain("VALUES(`value`)");
  }

  /** The property name `map[r.key]` writes to. */
  function RowKey(r: Row): string
  {
    ToPropertyKey(Column(r, "key"))
  }

  /** `rows.forEach(r => (map[r.key] = r.value))` on `{}`, with whether the
      object has been detached from `Object.prototype`. While it has not, an
      assignment to `__proto__` reaches the inherited accessor and creates no
      property: `null` detaches the object, any other primitive is ignored.
      Once detached, `__proto__` is an ordinary key. Every other row sets its
      key, so a later row overwrites an earlier one. */
  function SettingsFold(rows: seq<Row>): (Dict, bool)
    decreases |rows|
  {
    if rows == [] then (map[], false)
    else Assign(SettingsFold(rows[..|rows| - 1]), rows[|rows| - 1])
  }

  /** `map[r.key] = r.value` on the object `state.0`, detached when
      `state.1`. */
  function Assign(state: (Dict, bool), r: Row): (Dict, bool)
  {
    var (m, detached) := state;
    if RowKey(r) == "__proto__" && !detached then (m, Column(r, "value") == Null)
    else (m[RowKey(r) := Column(r, "value")], detached)
  }

  /** One more row is one more assignment. */
  lemma FoldStep(rows: seq<Row>, i: nat)
    requires i < |rows|
    ensures SettingsFold(rows[..i + 1]) == Assign(SettingsFold(rows[..i]), rows[i])
  {
    assert rows[..i + 1][..i] == rows[..i];
  }

  /** The object `getAllSettingsMap` builds from `rows`. */
  function SettingsMap(rows: seq<Row>): Dict
  {
    SettingsFold(rows).0
  }

  /** A row whose assignment detaches the object from its prototype, if it
      still has one. */
  predicate ClearsPrototype(r: Row)
  {
    RowKey(r) == "__proto__" && Column(r, "value") == Null
  }

  /** Some row before the `n`-th clears the prototype. */
  predicate ClearedBefore(rows: seq<Row>, n: nat)
    requires n <= |rows|
  {
    exists h | 0 <= h < n :: ClearsPrototype(rows[h])
  }

  /** After the first `n` rows, the object is detached exactly when one of
      them assigned `null` to `__proto__`. */
  lemma {:induction false} DetachedIff(rows: seq<Row>, n: nat)
    requires n <= |rows|
    ensures SettingsFold(rows[..n]).1 <==> ClearedBefore(rows, n)
  {
    if n > 0 {
      DetachedIff(rows, n - 1);
      FoldStep(rows, n - 1);
      if ClearedBefore(rows, n) && !ClearedBefore(rows, n - 1) {
        var h :| 0 <= h < n && ClearsPrototype(rows[h]);
        assert h == n - 1;
      }
    }
  }

  /** Some row among the first `n` sets `k`: for `__proto__`, a row after one
      that cleared the prototype. */
  predicate SetBefore(rows: seq<Row>, n: nat, k: string)
    requires n <= |rows|
  {
    exists i | 0 <= i < n :: RowKey(rows[i]) == k && (k != "__proto__" || ClearedBefore(rows, i))
  }

  /** After the first `n` rows, the keys of the object are exactly the keys
      those rows set. */
  lemma {:induction false} SettingsMapKeysUpTo(rows: seq<Row>, n: nat, k: string)
    requires n <= |rows|
    ensures k in SettingsMap(rows[..n]) <==> SetBefore(rows, n, k)
  {
    if n > 0 {
      SettingsMapKeysUpTo(rows, n - 1, k);
      DetachedIff(rows, n - 1);
      assert rows[..n][..n - 1] == rows[..n - 1];
      assert rows[..n][n - 1] == rows[n - 1];
      if SetBefore(rows, n, k) && !SetBefore(rows, n - 1, k) {
        var i :| 0 <= i < n && RowKey(rows[i]) == k && (k != "__proto__" || ClearedBefore(rows, i));
        assert i == n - 1;
      }
    }
  }

  /** The keys of the object are exactly the row keys, where `__proto__`
      counts only for a row after one that cleared the prototype. */
  lemma SettingsMapKeys(rows: seq<Row>, k: string)
    ensures k in SettingsMap(rows) <==>
      exists i | 0 <= i < |rows| :: RowKey(rows[i]) == k && (k != "__proto__" || ClearedBefore(rows, i))
  {
    SettingsMapKeysUpTo(rows, |rows|, k);
    assert rows[..|rows|] == rows;
  }

  /** After the first `n` rows, the value of a key is the one of the last
      row among them that set it. */
  lemma {:induction false} LaterRowWinsUpTo(rows: seq<Row>, n: nat, i: nat)
    requires i < n <= |rows| && (RowKey(rows[i]) != "__proto__" || ClearedBefore(rows, i))
    requires forall j | i < j < n :: RowKey(rows[j]) != RowKey(rows[i])
    ensures RowKey(rows[i]) in SettingsMap(rows[..n])
    ensures SettingsMap(rows[..n])[RowKey(rows[i])] == Column(rows[i], "value")
  {
    assert rows[..n][..n - 1] == rows[..n - 1];
    assert rows[..n][n - 1] == rows[n - 1];
    if i < n - 1 {
      LaterRowWinsUpTo(rows, n - 1, i);
    } else {
      DetachedIff(rows, n - 1);
    }
  }

  /** For a key that several rows set, the value is the one of the last of
      them. */
  lemma LaterRowWins(rows: seq<Row>, i: nat)
    requires i < |rows| && (RowKey(rows[i]) != "__proto__" || ClearedBefore(rows, i))
    requires forall j | i < j < |rows| :: RowKey(rows[j]) != RowKey(rows[i])
    ensures RowKey(rows[i]) in SettingsMap(rows)
    ensures SettingsMap(rows)[RowKey(rows[i])] == Column(rows[i], "value")
  {
    LaterRowWinsUpTo(rows, |rows|, i);
    assert rows[..|rows|] == rows;
  }

  /** What `getAllSettingsMap` makes of the pool's answer to `SelectSettings`:
      the folded rows, or `{}` when the query or the destructuring throws. */
  function SettingsRead(adapterPg: bool, answer: Result<DriverResult, Error>): Dict
  {
    var rows := RowsOf(adapterPg, answer);
    if rows.Err? then map[] else SettingsMap(rows.value)
  }

  /** `getAllSettingsMap` on the pool `adapter`, whose driver answers
      `answer`; `sent` is the statement the driver receives. */
  method GetAllSettingsMap<P>(adapter: DatabaseAdapter<P>, answer: Result<DriverResult, Error>)
    returns (sent: Statement, m: Dict)
    ensures sent == Statement(SelectSettings, [])
    ensures answer.Err? ==> m == map[]
    ensures answer.Ok? && (adapter.isPostgres || answer.value.Pair?) ==> m == SettingsMap(answer.value.rows)
    ensures m == SettingsRead(adapter.isPostgres, answer)
  {
    assert '?' !in SelectSettings;
    NumberedWithoutPlaceholders(SelectSettings, 1);
    var r;
    sent, r := adapter.Query(SelectSettings, None, answer);
    m := map[];
    if r.Err? || r.value.PgResult? {
      return;
    }
    var rows := r.value.rows;
    var detached := false;
    for i := 0 to |rows|
      invariant (m, detached) == SettingsFold(rows[..i])
    {
      FoldStep(rows, i);
      var key := RowKey(rows[i]);
      if key == "__proto__" && !detached {
        detached := Column(rows[i], "value") == Null;
      } else {
        m := m[key := Column(rows[i], "value")];
      }
    }
    assert rows[..|rows|] == rows;
  }

  /** `req.flash(kind, message)` */
  datatype Flash = Flash(kind: string, message: string)

  const Updated := Flash("success", "Settings updated")
  const NotUpdated := Flash("error", "Failed to update settings")

  /** How each step of the transaction is issued, by the controller's flag:
      as SQL on PostgreSQL, as the mysql2 method otherwise. */
  function BeginCall(flag: bool): Call
  {
    if flag then Send("BEGIN", []) else BeginTransaction
  }

  function CommitCall(flag: bool): Call
  {
    if flag then Send("COMMIT", []) else Commit
  }

  function RollbackCall(flag: bool): Call
  {
    if flag then Send("ROLLBACK", []) else Rollback
  }

  /** The upsert of one entry: on the PostgreSQL branch the text goes through
      the adapter's `convertQuery`, which numbers it only when the adapter is
      itself in PostgreSQL mode. */
  function UpsertCall(flag: bool, adapterPg: bool, key: string, value: Value): Call
  {
    if flag then Send(if adapterPg then Numbered(PgUpsert, 1) else PgUpsert, [Str(key), value])
    else Send(MySqlUpsert, [Str(key), value])
  }

  /** One upsert per entry, in the entries' order. */
  function Upserts(flag: bool, adapterPg: bool, entries: seq<(string, Value)>): seq<Call>
  {
    seq(|entries|, i requires 0 <= i < |entries| => UpsertCall(flag, adapterPg, entries[i].0, entries[i].1))
  }

  /** Each upsert binds its entry's key and value, in that order, to the two
      placeholders of its text. */
  lemma UpsertsFollowEntries(flag: bool, adapterPg: bool, entries: seq<(string, Value)>, i: nat)
    requires i < |entries|
    ensures var c := Upserts(flag, adapterPg, entries)[i];
      && |Upserts(flag, adapterPg, entries)| == |entries|
      && c.Send? && c.params == [Str(entries[i].0), entries[i].1]
      && (flag && adapterPg ==> Unnumber(c.text) == (PgUpsert, [1, 2]))
      && (!flag ==> c.text == MySqlUpsert && Placeholders(c.text) == |c.params|)
  {
    PgUpsertBindsItsParameters();
    MySqlUpsertBindsItsParameters();
    assert Range(1, 2) == [1, 2];
  }

  /** The try block of `update`: begin, the upserts, commit. */
  function UpdateScript(flag: bool, adapterPg: bool, entries: seq<(string, Value)>): seq<Call>
  {
    [BeginCall(flag)] + Upserts(flag, adapterPg, entries) + [CommitCall(flag)]
  }

  /** Everything `update` issues when `n` calls of `script` succeed: the
      calls up to the first failure, a rollback if there was one, and the
      release. */
  function UpdateLog(flag: bool, script: seq<Call>, n: nat): seq<Call>
  {
    if n >= |script| then script + [Release]
    else script[..n + 1] + [RollbackCall(flag), Release]
  }

  lemma NotInScript(flag: bool, adapterPg: bool, entries: seq<(string, Value)>, c: Call)
    requires c == Release || c == RollbackCall(flag) || c == CommitCall(flag)
    ensures var script := UpdateScript(flag, adapterPg, entries);
      c in script[..|script| - 1] ==> c == BeginCall(flag) && c != CommitCall(flag)
  {
    var script := UpdateScript(flag, adapterPg, entries);
    var ups := Upserts(flag, adapterPg, entries);
    assert script[..|script| - 1] == [BeginCall(flag)] + ups;
  }

  /** The protocol of `update`, whatever the connection answers: the release
      comes last and only once; a rollback is attempted exactly when a step
      failed; the commit is issued only after the begin and every upsert
      succeeded. */
  lemma UpdateProtocol(flag: bool, adapterPg: bool, entries: seq<(string, Value)>, n: nat)
    ensures var script := UpdateScript(flag, adapterPg, entries);
      var log := UpdateLog(flag, script, n);
      && log[|log| - 1] == Release && multiset(log)[Release] == 1
      && (RollbackCall(flag) in log <==> n < |script|)
      && (CommitCall(flag) in log ==> n >= |entries| + 1)
  {
    var script := UpdateScript(flag, adapterPg, entries);
    var log := UpdateLog(flag, script, n);
    var last := |script| - 1;
    assert script == script[..last] + [CommitCall(flag)];
    NotInScript(flag, adapterPg, entries, Release);
    NotInScript(flag, adapterPg, entries, RollbackCall(flag));
    NotInScript(flag, adapterPg, entries, CommitCall(flag));
    assert Release !in script;
    assert RollbackCall(flag) !in script;
    var done := if n >= |script| then script else script[..n + 1];
    assert Release !in done && RollbackCall(flag) !in done by {
      assert forall c | c in done :: c in script;
    }
    assert multiset(done)[Release] == 0;
  }

  /** The try block of lines 44-66 on the held connection: stops at the
      first call that throws. */
  method Transaction<P>(conn: Connection, flag: bool, adapter: DatabaseAdapter<P>,
                        entries: seq<(string, Value)>) returns (r: Result<(), Error>)
    modifies conn
    ensures conn.RanUntilFailure(old(conn.calls), UpdateScript(flag, adapter.isPostgres, entries), r, conn.calls)
  {
    ghost var before := conn.calls;
    ghost var ups := Upserts(flag, adapter.isPostgres, entries);
    var begin := conn.Perform(BeginCall(flag));
    conn.RanOne(before, BeginCall(flag), begin, conn.calls);
    if begin.Err? {
      conn.RanStopped(before, [BeginCall(flag)], begin.error, conn.calls, ups + [CommitCall(flag)]);
      AppendAssoc([BeginCall(flag)], ups, [CommitCall(flag)]);
      return Err(begin.error);
    }
    ghost var mid := conn.calls;
    r := PersistEntries(conn, flag, adapter, entries);
    conn.RanThen(before, [BeginCall(flag)], mid, ups, r, conn.calls);
    if r.Err? {
      conn.RanStopped(before, [BeginCall(flag)] + ups, r.error, conn.calls, [CommitCall(flag)]);
      return;
    }
    ghost var beforeCommit := conn.calls;
    var commit := conn.Perform(CommitCall(flag));
    conn.RanOne(beforeCommit, CommitCall(flag), commit, conn.calls);
    r := if commit.Ok? then Ok(()) else Err(commit.error);
    conn.RanThen(before, [BeginCall(flag)] + ups, beforeCommit, [CommitCall(flag)], r, conn.calls);
  }

  /** The loop over entries shared by `update` (lines 50-60) and `testSmtp`
      (lines 119-129): one upsert per entry, stopping at the first that
      throws. */
  method PersistEntries<P>(conn: Connection, flag: bool, adapter: DatabaseAdapter<P>,
                           entries: seq<(string, Value)>) returns (r: Result<(), Error>)
    modifies conn
    ensures conn.RanUntilFailure(old(conn.calls), Upserts(flag, adapter.isPostgres, entries), r, conn.calls)
  {
    ghost var before := conn.calls;
    ghost var script := Upserts(flag, adapter.isPostgres, entries);
    for i := 0 to |entries|
      invariant conn.calls == before + script[..i]
      invariant conn.AllSucceed(|before|, script[..i])
    {
      var (key, value) := entries[i];
      var call;
      if flag {
        var converted := adapter.ConvertQuery(PgUpsert, [Str(key), value]);
        call := Send(converted.query, converted.params);
      } else {
        call := Send(MySqlUpsert, [Str(key), value]);
      }
      assert call == script[i];
      assert script[..i + 1] == script[..i] + [call];
      var res := conn.Perform(call);
      if res.Err? {
        conn.RanIntoFailure(before, script, i, res.error);
        return Err(res.error);
      }
      conn.AllSucceedAppend(|before|, script[..i], call);
    }
    assert script[..|entries|] == script;
    conn.RanToTheEnd(before, script);
    r := Ok(());
  }

  function DialectOf(adapterPg: bool): Dialect
  {
    if adapterPg then Postgres else MySql
  }

  /** `update`: `entries` are `Object.entries(req.body || {})`;
      `connectError` is what `adapter.getConnection()` threw, if anything, and
      `answer` the server's answer to each call on the connection it handed
      out. A failed acquisition happens before the `try`: the handler rejects
      with that error, with no flash, no release and no redirect (`Err`).
      Otherwise the flash says whether every step went through. */
  method Update<P>(flag: bool, adapter: DatabaseAdapter<P>, entries: seq<(string, Value)>,
                   connectError: Option<Error>, answer: nat -> Outcome)
    returns (conn: Connection?, r: Result<Flash, Error>)
    ensures connectError.Some? ==> conn == null && r == Err(connectError.value)
    ensures connectError.None? ==>
      && conn != null && fresh(conn) && conn.answer == answer
      && conn.dialect == DialectOf(adapter.isPostgres)
      && var script := UpdateScript(flag, adapter.isPostgres, entries);
      var n := conn.Succeeding(0, script);
      && conn.calls == UpdateLog(flag, script, n)
      && r == Ok(if n == |script| then Updated else NotUpdated)
  {
    var _, acquired := adapter.GetConnection(connectError, answer);
    if acquired.Err? {
      return null, Err(acquired.error);
    }
    conn := acquired.value;
    var t := Transaction(conn, flag, adapter, entries);
    var flash;
    if t.Ok? {
      flash := Updated;
    } else {
      var _ := conn.Perform(RollbackCall(flag));
      flash := NotUpdated;
    }
    var _ := conn.Perform(Release);
    r := Ok(flash);
  }

  /** As deployed on PostgreSQL (the adapter in PostgreSQL mode, the
      controller's flag false): the pg client has no `beginTransaction`, so
      every update fails at its first step and nothing is written. */
  lemma UpdateFailsOnPostgres(conn: Connection, entries: seq<(string, Value)>)
    requires conn.dialect == Postgres
    ensures var script := UpdateScript(false, true, entries);
      && conn.Succeeding(0, script) == 0
      && UpdateLog(false, script, 0) == [BeginTransaction, Rollback, Release]
  {
  }

  /** `update` with the dialect flag taken from the adapter, as the code
      evidently intends: when a connection is handed out and the server
      accepts every statement, the settings are committed and the connection
      released. */
  method UpdateWithAdapterFlag<P>(adapter: DatabaseAdapter<P>, entries: seq<(string, Value)>,
                                  connectError: Option<Error>, answer: nat -> Outcome)
    returns (conn: Connection?, r: Result<Flash, Error>)
    ensures var script := UpdateScript(adapter.isPostgres, adapter.isPostgres, entries);
      connectError.None? && (forall k :: answer(k).Ok?) ==>
        conn != null && r == Ok(Updated) && conn.calls == script + [Release]
  {
    conn, r := Update(adapter.isPostgres, adapter, entries, connectError, answer);
    ghost var script := UpdateScript(adapter.isPostgres, adapter.isPostgres, entries);
    if conn != null && forall k :: answer(k).Ok? {
      conn.SucceedingStopsAt(0, script, |script|);
    }
  }

  /** The transport options of lines 90-95. `port` is `None` when `Number`
      gives NaN. */
  datatype Transport = Transport(host: Value, port: Option<int>, secure: bool, auth: Option<(Value, Value)>)

  datatype Mail = Mail(from: Value, to: Value, subject: string, text: string)

  function TransportFor(settings: Dict): (t: Transport)
  {
    var portSetting := Column(settings, "SMTP_PORT");
    var port := if Truthy(portSetting) then ToNumber(portSetting) else Some(587);
    var user := Column(settings, "SMTP_USER");
    Transport(Column(settings, "SMTP_HOST"), port, port == Some(465),
              if Truthy(user) then Some((user, Column(settings, "SMTP_PASSWORD"))) else None)
  }

  /** The port is 587 unless a setting gives another; TLS from the start
      exactly on port 465; credentials only with a user name. */
  lemma TransportDefaults(settings: Dict, n: nat)
    ensures !Truthy(Column(settings, "SMTP_PORT")) ==> TransportFor(settings).port == Some(587)
    ensures Column(settings, "SMTP_PORT") == Str(Decimal(n)) ==> TransportFor(settings).port == Some(n)
    ensures TransportFor(settings).secure <==> TransportFor(settings).port == Some(465)
    ensures TransportFor(settings).auth.Some? <==> Truthy(Column(settings, "SMTP_USER"))
  {
    ToNumberDecimal(n);
  }

  function MailFor(settings: Dict): Mail
  {
    var from := Column(settings, "SMTP_FROM");
    var to := Column(settings, "COMPANY_EMAIL");
    Mail(if Truthy(from) then from else Str("no-reply@example.com"),
         if Truthy(to) then to else Str("test@example.com"),
         "SMTP Test - Emilash Logistics",
         "This is a test email from Emilash Logistics admin panel.")
  }

  const SmtpSucceeded := "SMTP verified and test email sent"

  /** `(e && e.message) ? e.message : 'Unknown error'`, given `e.message`
      (`undefined` when the thrown value has none). */
  function FailureMessage(thrownMessage: Value): (m: Value)
    ensures Truthy(m)
    ensures Truthy(thrownMessage) ==> m == thrownMessage
  {
    if Truthy(thrownMessage) then thrownMessage else Str("Unknown error")
  }

  /** The three settings of lines 114-118. */
  function LastTestEntries(success: bool, nowIso: string, message: Value): seq<(string, Value)>
  {
    [("SMTP_LAST_TEST_STATUS", Str(if success then "success" else "failure")),
     ("SMTP_LAST_TEST_AT", Str(nowIso)),
     ("SMTP_LAST_TEST_MESSAGE", message)]
  }

  /** Exactly three distinct keys are recorded, the status says `success`
      exactly when the test succeeded, and the time and message are the
      ones given. */
  lemma LastTestEntriesRecordOutcome(success: bool, nowIso: string, message: Value)
    ensures var e := LastTestEntries(success, nowIso, message);
      && |e| == 3 && e[0].0 != e[1].0 && e[1].0 != e[2].0 && e[0].0 != e[2].0
      && (e[0].1 == Str("success") <==> success)
      && e[1].1 == Str(nowIso) && e[2].1 == message
  {
  }

  /** What `testSmtp` issues on its connection: the upserts until the first
      that throws (the error is swallowed), then the release. */
  function PersistLog(script: seq<Call>, n: nat): seq<Call>
  {
    (if n >= |script| then script else script[..n + 1]) + [Release]
  }

  lemma PersistReleases(flag: bool, adapterPg: bool, entries: seq<(string, Value)>, n: nat)
    ensures var script := Upserts(flag, adapterPg, entries);
      var log := PersistLog(script, n);
      && log[|log| - 1] == Release && multiset(log)[Release] == 1
      && log[..|log| - 1] <= script
  {
    var script := Upserts(flag, adapterPg, entries);
    var done := if n >= |script| then script else script[..n + 1];
    assert Release !in done by {
      forall c | c in done
        ensures c != Release
      {
        var i :| 0 <= i < |done| && done[i] == c;
        assert done[i] == script[i];
      }
    }
    assert multiset(done)[Release] == 0;
    assert (done + [Release])[..|done|] == done;
  }

  /** What `testSmtp` reports: the transport it built, the message handed
      to `sendMail` (only reached when `verify` passed), and the flash. */
  datatype SmtpRun = SmtpRun(transport: Transport, mail: Option<Mail>, flash: Flash)

  /** The outcome of the test on the connection `conn`, from `settings`: the
      transport and mail come from the settings; the flash and the recorded
      status and message follow what `verify` and `sendMail` threw, if
      anything; the three upserts run until one throws (the error is
      swallowed), then the connection is released. */
  ghost predicate SmtpTestRan(conn: Connection, flag: bool, adapterPg: bool, settings: Dict, nowIso: string,
                              verifyError: Option<Value>, sendError: Option<Value>, run: SmtpRun)
    reads conn
  {
    var success := verifyError.None? && sendError.None?;
    var message := if success then Str(SmtpSucceeded)
                   else FailureMessage(if verifyError.Some? then verifyError.value else sendError.value);
    var script := Upserts(flag, adapterPg, LastTestEntries(success, nowIso, message));
    && run.transport == TransportFor(settings)
    && run.mail == (if verifyError.None? then Some(MailFor(settings)) else None)
    && run.flash == (if success then Flash("success", SmtpSucceeded)
                     else Flash("error", "SMTP test failed: " + ToPropertyKey(message)))
    && conn.calls == PersistLog(script, conn.Succeeding(0, script))
  }

  /** `testSmtp`. `settingsAnswer` is the pool's answer to the settings
      query; `connectError` what `adapter.getConnection()` threw, if
      anything, which happens before the `try` and so rejects the handler
      with no flash, no release and no redirect (`Err`); `answer` the
      server's answers on the connection. The mailer's `verify` and
      `sendMail` are outside the model and enter as the message of what each
      threw, if anything. */
  method TestSmtp<P>(flag: bool, adapter: DatabaseAdapter<P>, settingsAnswer: Result<DriverResult, Error>,
                     connectError: Option<Error>, answer: nat -> Outcome, nowIso: string,
                     verifyError: Option<Value>, sendError: Option<Value>)
    returns (conn: Connection?, r: Result<SmtpRun, Error>)
    ensures connectError.Some? ==> conn == null && r == Err(connectError.value)
    ensures connectError.None? ==>
      && conn != null && fresh(conn) && conn.answer == answer && conn.dialect == DialectOf(adapter.isPostgres)
      && r.Ok?
      && SmtpTestRan(conn, flag, adapter.isPostgres, SettingsRead(adapter.isPostgres, settingsAnswer),
                     nowIso, verifyError, sendError, r.value)
  {
    var _, settings := GetAllSettingsMap(adapter, settingsAnswer);
    var _, acquired := adapter.GetConnection(connectError, answer);
    if acquired.Err? {
      return null, Err(acquired.error);
    }
    conn := acquired.value;
    var run := SmtpOnConnection(conn, flag, adapter, settings, nowIso, verifyError, sendError);
    r := Ok(run);
  }

  /** Lines 86-135 of `testSmtp`, on the connection just taken. */
  method SmtpOnConnection<P>(conn: Connection, flag: bool, adapter: DatabaseAdapter<P>, settings: Dict,
                             nowIso: string, verifyError: Option<Value>, sendError: Option<Value>)
    returns (run: SmtpRun)
    requires conn.calls == []
    modifies conn
    ensures SmtpTestRan(conn, flag, adapter.isPostgres, settings, nowIso, verifyError, sendError, run)
  {
    var success := false;
    var message := Str("");
    var transport := TransportFor(settings);
    var mail := None;
    if verifyError.Some? {
      message := FailureMessage(verifyError.value);
    } else {
      mail := Some(MailFor(settings));
      if sendError.Some? {
        message := FailureMessage(sendError.value);
      } else {
        success := true;
        message := Str(SmtpSucceeded);
      }
    }
    var flash;
    if success {
      flash := Flash("success", SmtpSucceeded);
    } else {
      flash := Flash("error", "SMTP test failed: " + ToPropertyKey(message));
    }
    ghost var script := Upserts(flag, adapter.isPostgres, LastTestEntries(success, nowIso, message));
    var persisted := PersistEntries(conn, flag, adapter, LastTestEntries(success, nowIso, message));
    PersistLogOf(conn, script, persisted, conn.calls);
    var _ := conn.Perform(Release);
    run := SmtpRun(transport, mail, flash);
  }

  /** The log of `testSmtp` once the upserts ran from an empty log. */
  lemma PersistLogOf(conn: Connection, script: seq<Call>, r: Result<(), Error>, after: seq<Call>)
    requires conn.RanUntilFailure([], script, r, after)
    ensures after + [Release] == PersistLog(script, conn.Succeeding(0, script))
  {
    assert [] + script == script;
    var n := conn.Succeeding(0, script);
    if r.Err? {
      assert [] + script[..n + 1] == script[..n + 1];
    }
  }
}
