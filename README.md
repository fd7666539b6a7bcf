# Emilash shipping site: database layer, migrations, settings and notifications

This project is a Dafny model of the database-facing core of the Emilash
shipping administration site, a Node.js application that runs on MySQL or on
PostgreSQL. It covers five pieces:

- `DatabaseAdapter` (src/config/db-adapter.js). It lets SQL written with
  MySQL's `?` placeholders run on PostgreSQL by rewriting them to `$1`, `$2`,
  and so on. It also reshapes pg's result object into mysql2's `[rows, fields]`
  pair and picks the right way to take a connection from the pool.
- The PostgreSQL configuration module (src/config/db-postgres.js). It builds
  the pool and its adapter lazily, once, from the environment. It runs the
  PostgreSQL migration script statement by statement and stops at the first
  failure, and it seeds the default administrator.
- The stand-alone migration script (migrate-database.js). It splits the MySQL
  script into statements and filters out comments. It runs every statement
  and classifies each failure without stopping. Then it seeds the
  administrator, reads two statistics and closes the connection.
- The settings controller (src/controllers/settingsController.js). It reads
  the `settings` table into an object and saves a form in one transaction:
  begin, one upsert per entry, commit, a rollback on failure, then release.
  It also records the outcome of an SMTP test.
- The notifications controller (src/controllers/notificationsController.js).
  Each handler checks for a signed-in user, builds its statements and
  parameters, and turns any database error into status 500.

Modules follow these files:

| module | file | content |
|---|---|---|
| `Text`, `JsValues` | text.dfy, js_values.dfy | white space and `trim`, decimal text, JavaScript values, truthiness, `String`, `parseInt`, `Number` |
| `Connections` | connections.dfy | a held connection as a class whose `calls` log grows with each call |
| `DbAdapter` | db_adapter.dfy | placeholder numbering, its round trip, the `DatabaseAdapter` class |
| `SqlScript` | sql_script.dfy | the two split patterns, trimming, the comment filter, what the runners send |
| `AdminSeed` | admin_seed.dfy | the administrator look-up and insert with their parameters |
| `Migrate` | migrate_database.dfy | the migration run |
| `DbPostgres` | db_postgres.dfy | environment, connection string, `getPool`, `runMigrations`, `ensureDefaultAdmin` |
| `Settings` | settings_controller.dfy | `getAllSettingsMap`, `update`, `testSmtp` |
| `Notifications` | notifications_controller.dfy | the five handlers and `createNotification` |

### How the model works

- The database server is an input. A connection's `answer: nat -> Outcome`
  gives the reply to the call at each position of its log. A pool query takes
  the driver's answer as a parameter. Every run is therefore a function of
  those answers, and the contracts hold for all of them.
- The controllers branch on their own `isPostgres`. That value comes from
  whichever configuration module was loaded, and src/config/db-postgres.js
  does not export one (line 70). So on a PostgreSQL deployment the
  controllers' flag is `undefined`, which is false, while the adapter is in
  PostgreSQL mode. The model keeps the two as separate inputs, `flag` and
  `adapterPg`.
- src/config/db-postgres.js:70 exports `getPool`, `runMigrations`,
  `ensureDefaultAdmin` and `ensureDatabase`, and no dialect flag.
- The `;\s*[\r\n]` split of db-postgres.js and the `;\s*[\r\n]+` split of
  migrate-database.js are modelled separately. `SqlScript.SplitPatternsAgree`
  proves they cut every script into the same pieces: greedy `\s*` backs off to
  the last line break of the white-space run, so no further line break can
  follow the match.
- migrate-database.js:135 calls `process.exit(1)` in its outer `catch`. The
  process therefore ends before the `finally` at lines 136-141 can close the
  connection, and `connection.end()` is issued only when the run succeeds, as
  `Migrate.RunMigration` states.
- Long SQL literals are written as `Fill([...])`: their pieces joined by `?`,
  so that no long string is evaluated character by character. The PostgreSQL
  branches that already use `$1` are written out.

## Model

| member | source | states |
|---|---|---|
| DbAdapter.DatabaseAdapter.constructor | src/config/db-adapter.js:4-7 | the pool and the PostgreSQL mode are kept as given |
| DbAdapter.DatabaseAdapter.ConvertQuery | src/config/db-adapter.js:10-18 | the parameters come back unchanged; in MySQL mode the text is unchanged; in PostgreSQL mode the text is the numbering `Numbered(query, 1)`, proved for the running `paramIndex` loop |
| DbAdapter.PlaceholderAt | src/config/db-adapter.js:15-16 | the `?` at any position becomes `$k`, where `k - 1` is the number of `?` to its left: numbering starts at 1 with no gaps |
| DbAdapter.NumberedAppend | src/config/db-adapter.js:15-16 | numbering a concatenation numbers the second part from where the first part's count stopped |
| DbAdapter.NumberedLeavesNoPlaceholder | src/config/db-adapter.js:16 | no `?` is left in PostgreSQL mode, including `?` inside quoted text |
| DbAdapter.NumberedDollars | src/config/db-adapter.js:16 | the conversion adds exactly one `$` per `?` |
| DbAdapter.NumberedWithoutPlaceholders | src/config/db-adapter.js:16 | every other character is copied, so a text without `?` (one already written with `$1`, say) comes back unchanged |
| DbAdapter.UnnumberNumbered | src/config/db-adapter.js:15-16 | round trip: reading back the numbering of a text with no `$` of its own and no digit right after a `?` gives the original text and the numbers `1, 2, ...`, one per `?`, in order |
| DbAdapter.PlainLiteral | src/config/db-adapter.js:16 | a statement literal written with `?` and the same literal written with `$1 ... $n` convert to the same text, which reads back as `$1 ... $n` |
| DbAdapter.RowsOf | src/config/db-adapter.js:23-29 | `const [rows] = await query(...)`: errors pass through; a pair gives its rows; a pg result object returned unchanged by a MySQL-mode adapter is not iterable and throws |
| DbAdapter.DatabaseAdapter.Query | src/config/db-adapter.js:20-30 | params default to `[]`; the sent statement is the converted one; in PostgreSQL mode the reply is exactly `[rows, fields]`; in MySQL mode it is the driver's reply; errors are passed on untouched |
| DbAdapter.DatabaseAdapter.GetConnection | src/config/db-adapter.js:32-38 | `pool.connect()` exactly when the adapter is in PostgreSQL mode, otherwise `pool.getConnection()`; an error thrown by that call is handed on; otherwise the connection belongs to that driver and starts with an empty log |
| Text.Trim | src/config/db-postgres.js:33 | `trim` removes exactly the leading and trailing white space: the result is the middle of the text and neither starts nor ends with white space |
| Text.TrimIdempotent | migrate-database.js:48 | trimming a trimmed statement changes nothing |
| Text.DecimalRoundTrip | src/config/db-adapter.js:16 | the decimal text written for `$k` reads back as `k` |
| JsValues.ToPropertyKey | src/controllers/settingsController.js:12 | `String(v)` is the text itself for a string; for an integer it is its canonical decimal spelling, with no leading zero, that reads back as the value, preceded by `-` when the value is negative |
| JsValues.ParseIntDecimal | src/controllers/notificationsController.js:19 | `parseInt` reads back the text that `String` writes for any integer |
| JsValues.ParseIntWithoutDigits | src/controllers/notificationsController.js:19 | `parseInt` of a text without any digit (such as `"undefined"`) is NaN |
| JsValues.ToNumberDecimal | src/controllers/settingsController.js:92 | `Number` reads back the decimal text of a port number |
| SqlScript.Spans | src/config/db-postgres.js:31-32 | the split pieces run from the start to the end of the script; consecutive pieces are separated by exactly one delimiter match; no delimiter starts inside a piece |
| SqlScript.Split | src/config/db-postgres.js:32 | `split` returns the texts of those pieces, in order |
| SqlScript.DelimitersAgree | migrate-database.js:47 | `;\s*[\r\n]` and `;\s*[\r\n]+` match at the same positions and end at the same place |
| SqlScript.SplitPatternsAgree | migrate-database.js:46-47 | both runners' patterns cut every script into the same pieces |
| SqlScript.TrimmedNonEmpty | src/config/db-postgres.js:33-34 | `.map(trim).filter(Boolean)` keeps only non-empty, already-trimmed statements |
| SqlScript.TrimmedNonEmptyMembers | src/config/db-postgres.js:33-34 | a text is kept exactly when it is the non-empty trim of some piece |
| SqlScript.TrimmedNonEmptyAppend | migrate-database.js:48-49 | order is kept: the statements of two consecutive parts of a script are those of the first, then those of the second |
| SqlScript.CommentFilter | migrate-database.js:50 | the result holds only statements of the input that pass the filter, and every input statement that passes it; a statement starting with `--` passes only when it contains `INSERT` or `ALTER` |
| SqlScript.CommentFilterOne | migrate-database.js:50 | a lone statement is kept exactly when it passes the filter |
| SqlScript.CommentFilterAppend | migrate-database.js:50 | the filter goes statement by statement: filtering a concatenation filters each part and keeps their order, so every passing statement is kept in place, as often as it occurs |
| SqlScript.MigrationIsFilteredPostgres | migrate-database.js:46-50 | the migration script runs what `runMigrations` would run for the same text, minus the filtered comments |
| SqlScript.SendsEvery | migrate-database.js:55-63 | with no empty statement, the `j`-th call sent is the `j`-th statement, without parameters |
| SqlScript.PostgresStatements | src/config/db-postgres.js:31-34 | the statements `runMigrations` runs are non-empty and already trimmed |
| SqlScript.MigrationStatements | migrate-database.js:46-50 | the statements the migration script runs are non-empty, already trimmed, and pass the comment filter |
| SqlScript.Sends | migrate-database.js:55-63 | no more calls than statements; each call sends a non-empty statement without parameters |
| SqlScript.SendsOne | migrate-database.js:57-63 | a lone statement is sent exactly when it is not empty (`stmt.length === 0` is skipped) |
| SqlScript.SendsAppend | migrate-database.js:55-63 | the loop goes statement by statement: the calls for a concatenation are those of the first part, then those of the second |
| SqlScript.SendsPrefix | src/config/db-postgres.js:35-36 | the calls for the first statements are a prefix of the calls for all of them |
| AdminSeed.LookupBindsItsParameter | migrate-database.js:82-85 | the administrator look-up has one placeholder for its one parameter, read back as `$1` on PostgreSQL |
| AdminSeed.InsertBindsItsParameters | migrate-database.js:89-92 | the insert has four placeholders for name, e-mail, hash and role, read back as `$1`-`$4` in order |
| Migrate.Classify | migrate-database.js:66-75 | code `ER_DUP_ENTRY` first, then code `ER_DUP_FIELDNAME`, then a message containing `already exists`, else a reported failure carrying the message; each verdict exactly under its condition |
| Migrate.EveryStatementRuns | migrate-database.js:55-77 | no failure stops the loop: the verdict of every statement is that of its own answer, whatever the earlier ones answered |
| Migrate.ExecuteAll | migrate-database.js:55-77 | the loop sends every non-empty statement in order, appending exactly those calls to the log, and reports the verdicts `Verdicts` defines |
| Migrate.CollapseBreaks | migrate-database.js:59 | the result has no line break and is no longer than the input; a text without line breaks is unchanged |
| Migrate.CollapseBreaksAppend | migrate-database.js:59 | text that does not end in a line break collapses independently of what follows it |
| Migrate.RunCollapses | migrate-database.js:59 | a whole run of `\r` and `\n`, of any length, becomes one space |
| Migrate.CollapseRun | migrate-database.js:59 | text, a maximal run of line breaks and more text collapse to the collapsed text, one space, and the collapsed rest |
| Migrate.Preview | migrate-database.js:59 | the first 80 characters of the statement (all of a shorter one) with their line-break runs collapsed, followed by `...`: one line of at most 83 characters; a short one-line statement is shown whole |
| Migrate.SeedAdmin | migrate-database.js:82-98 | the look-up is sent; the insert is sent exactly when the look-up returned no row; a failing query's error is handed on |
| Migrate.Statistics | migrate-database.js:101-107 | count query, then `SHOW TABLES`; an empty count result throws reading `count`; the result is the first row's `count` and the number of tables |
| Migrate.TailCallsPrefix | migrate-database.js:82-107 | the calls of the seed and the statistics are sent up to and including the first that fails: every earlier call succeeded, the last one failed (an empty count counts as failing) unless the tail went through, and then all were sent |
| Migrate.TailLogShape | migrate-database.js:82-140 | in the log that results, the look-up comes first, the insert follows exactly when no administrator was found, and `connection.end()` is last exactly when the tail went through and is absent otherwise |
| Migrate.SeedAndCount | migrate-database.js:82-107 | succeeds exactly when the look-up, the insert (when sent), the count (with a first row) and `SHOW TABLES` all succeed; the log grows by those calls up to and including the first failure and by `connection.end()` exactly on success; the result is whether it inserted, the first row's `count` and the number of tables, or the error of the failing call (`count` of a missing row for an empty count) |
| Migrate.RunStatements | migrate-database.js:55-107 | the statements' calls, then the tail's calls up to and including the first failure, then `connection.end()` exactly on success; the insert follows the look-up exactly when no administrator was found; the report holds the verdicts and statistics of the answers, and an error is that of the failing call |
| Migrate.RunMigration | migrate-database.js:26-141 | a connection error or a missing file ends the run with nothing sent; otherwise the log is the statements' calls and the tail's calls up to and including the first failure, after which nothing more is sent; the run succeeds exactly when the tail goes through, and then `connection.end()` is the last call; an error is that of the failing call |
| DbPostgres.EnvOr | src/config/db-postgres.js:13-14 | `process.env[name] \|\| fallback`: an unset or empty variable gives way to the fallback |
| DbPostgres.ConnectionString | src/config/db-postgres.js:13-14 | a non-empty `DATABASE_URL` is used verbatim; otherwise the URL is built from the parts |
| DbPostgres.ParseFormat | src/config/db-postgres.js:14 | round trip: the built URL reads back as its user, password, host, port and database name |
| DbPostgres.DefaultConnection | src/config/db-postgres.js:14 | with nothing set: user `postgres`, empty password, `localhost`, port `5432`, database `emilash_shipping` |
| DbPostgres.SslFor | src/config/db-postgres.js:18 | TLS without certificate checks exactly when `NODE_ENV` is `production` |
| DbPostgres.PostgresConfig.constructor | src/config/db-postgres.js:7-8 | `pool` and `adapter` start unset |
| DbPostgres.PostgresConfig.GetPool | src/config/db-postgres.js:10-24 | the first call builds the pool from the environment and a PostgreSQL-mode adapter over it; later calls change nothing and return the same adapter |
| DbPostgres.PostgresConfig.GetPoolTwice | src/config/db-postgres.js:10-24 | two calls hand out the same adapter, built from the first call's environment |
| DbPostgres.ExecuteUntilFailure | src/config/db-postgres.js:35-46 | the statements are sent in order up to and including the first that throws, whose error is handed on; none after it runs |
| DbPostgres.PostgresConfig.RunMigrations | src/config/db-postgres.js:26-50 | no client without a pool or when `connect` throws; otherwise the split statements run until the first failure and the client is released last, on every path |
| DbPostgres.PostgresConfig.EnsureDefaultAdmin | src/config/db-postgres.js:52-62 | the look-up goes out as `$1` with the admin e-mail; the insert goes out, numbered, exactly when it returned no row; like `getPool`, it builds the pool and adapter from the environment on first use and otherwise keeps the existing ones |
| Settings.PgUpsertBindsItsParameters | src/controllers/settingsController.js:52 | the PostgreSQL upsert has two placeholders, read back as `$1`, `$2` for key and value |
| Settings.MySqlUpsertBindsItsParameters | src/controllers/settingsController.js:53 | the MySQL upsert has two placeholders, for key and value |
| Settings.DetachedIff | src/controllers/settingsController.js:10-12 | the object loses its prototype exactly when a row assigned `null` to `__proto__` |
| Settings.SettingsMapKeysUpTo | src/controllers/settingsController.js:10-12 | after any number of rows, the keys are exactly those the rows so far set |
| Settings.SettingsMapKeys | src/controllers/settingsController.js:10-12 | the object's keys are exactly the rows' keys; `__proto__` creates a property only for a row after one that assigned it `null`, which detaches the prototype |
| Settings.LaterRowWinsUpTo | src/controllers/settingsController.js:10-12 | after any number of rows, a key's value is that of the last row so far that set it |
| Settings.LaterRowWins | src/controllers/settingsController.js:10-12 | for a key several rows set, the value is that of the last of them |
| Settings.GetAllSettingsMap | src/controllers/settingsController.js:7-19 | the fixed select is sent; a query error or a non-iterable result gives `{}`; otherwise the `forEach` loop, which tracks whether the prototype was cleared, builds exactly the fold of the rows |
| Settings.UpsertsFollowEntries | src/controllers/settingsController.js:50-60 | one upsert per entry, in entry order, with parameters `[key, value]`; on PostgreSQL they read back as `$1`, `$2` |
| Settings.Transaction | src/controllers/settingsController.js:44-66 | begin, the upserts and commit are issued in order up to and including the first that throws |
| Settings.PersistEntries | src/controllers/settingsController.js:50-60 | the upserts are issued in order up to and including the first that throws |
| Settings.Update | src/controllers/settingsController.js:39-81 | an error from `getConnection`, thrown before the `try`, rejects the handler with nothing sent, no flash and no release; otherwise the log is the transaction up to its first failure, then a rollback only if a step failed (its own failure ignored), then the release; the flash is success exactly when every step succeeded |
| Settings.UpdateProtocol | src/controllers/settingsController.js:67-80 | whatever the answers: the release comes last and exactly once; a rollback is attempted exactly when a step failed; a commit is issued only after the begin and every upsert succeeded |
| Settings.UpdateFailsOnPostgres | src/controllers/settingsController.js:45-48 | with the controller's flag false on a pg client, the first step fails, so the log is begin, rollback, release |
| Settings.UpdateWithAdapterFlag | src/controllers/settingsController.js:39-81 | with the flag taken from the adapter, when a connection is handed out and the server accepts everything, it gets the whole transaction and a release, and the flash says success |
| Settings.TransportDefaults | src/controllers/settingsController.js:90-95 | the port is 587 unless a setting gives one; a decimal port setting is read as that number; `secure` exactly on port 465; credentials exactly when a user is set |
| Settings.FailureMessage | src/controllers/settingsController.js:109 | the thrown message when it has one, otherwise `Unknown error`; never empty |
| Settings.LastTestEntriesRecordOutcome | src/controllers/settingsController.js:114-118 | exactly three distinct keys; the status says `success` exactly when the test succeeded; the time and message are the given ones |
| Settings.PersistReleases | src/controllers/settingsController.js:112-135 | a persistence failure is swallowed: the log is a prefix of the upserts and then exactly one release, last |
| Settings.TestSmtp | src/controllers/settingsController.js:82-136 | an error from `getConnection`, thrown before the `try`, rejects the handler with nothing sent, no flash and no release; otherwise the transport and mail come from the stored settings, the flash and the recorded status and message follow the mailer's outcome, and the three upserts run until one throws, then the connection is released |
| Settings.SmtpOnConnection | src/controllers/settingsController.js:86-135 | on the connection just taken: the transport, the mail (only when `verify` passed), the flash, and the upserts until one throws, then the release |
| Notifications.LimitDefaults | src/controllers/notificationsController.js:19 | a missing `limit` or `0` gives 10; any other integer, as a number or as its text, is taken as given |
| Notifications.Limit | src/controllers/notificationsController.js:19 | the page size is never 0 |
| Notifications.UnreadCountRead | src/controllers/notificationsController.js:40-45 | a numeric `unreadCount` column is read back; a row without that exact column name gives NaN |
| Notifications.GetNotifications | src/controllers/notificationsController.js:16-50 | no user means nothing sent and `User not authenticated`; otherwise the list query is sent with `[userId, limit]`; once the list succeeded exactly the list and count queries are sent; the list is answered exactly when both succeeded and the count has a first row |
| Notifications.MarkAsRead | src/controllers/notificationsController.js:54-73 | no user means nothing sent and `User not authenticated`; otherwise only the mark-one update with `[id, userId]`, answered with status 500 exactly when it throws and with success otherwise |
| Notifications.MarkAllAsRead | src/controllers/notificationsController.js:76-94 | no user means nothing sent; otherwise only the mark-all update with `[userId]`, status 500 exactly when it throws, success otherwise |
| Notifications.DeleteNotification | src/controllers/notificationsController.js:97-116 | no user means nothing sent; otherwise only the scoped delete with `[id, userId]`, status 500 exactly when it throws, success otherwise |
| Notifications.Guarded | src/controllers/notificationsController.js:54-73 | the shape of mark-one, mark-all and delete: no user means nothing sent; otherwise exactly one converted statement, and status 500 exactly when it throws |
| Notifications.CreateNotification | src/controllers/notificationsController.js:7-11 | the insert, numbered on PostgreSQL, with six parameters in column order; `type` defaults to `info`, `actionUrl` and `icon` to `null`, and each given value is passed as it is; a failure reaches the caller with its error |
| Notifications.GuardComesFirst | src/controllers/notificationsController.js:21-23 | every handler without a signed-in user issues no query and answers `User not authenticated` |
| Notifications.ErrorsAreServerErrors | src/controllers/notificationsController.js:47-50 | any error thrown by any handler's statement gives status 500 |
| Notifications.ListQueryPlain | src/controllers/notificationsController.js:29-33 | the list query has two placeholders, read back as `$1`, `$2` |
| Notifications.UnreadQueryPlain | src/controllers/notificationsController.js:37-39 | the MySQL count query has one placeholder; the PostgreSQL text is the numbering of the MySQL text with `FALSE` for `0`, and the conversion leaves it unchanged |
| Notifications.MarkOneScoped | src/controllers/notificationsController.js:63-65 | mark-one is scoped by `id = $1` and the caller as `$2` (or no owner); the PostgreSQL text comes through the conversion unchanged |
| Notifications.MarkAllQueryPlain | src/controllers/notificationsController.js:84-86 | mark-all has one placeholder; the PostgreSQL text is the numbering of the MySQL text with `TRUE`/`FALSE` for `1`/`0` |
| Notifications.DeleteScoped | src/controllers/notificationsController.js:106-109 | delete carries the same scope, as `$1` and `$2` |
| Notifications.CreateQueryPlain | src/controllers/notificationsController.js:9 | the insert has six placeholders, read back as `$1`-`$6` |
| Notifications.PrefixedTwoPlaceholders | src/controllers/notificationsController.js:64-65 | a literal with a plain head and two `?` converts to its `$1`/`$2` spelling, which the conversion leaves alone |
| Notifications.GetNotificationsBindsInOrder | src/controllers/notificationsController.js:28-40 | every statement sent binds its parameters in order: `?` count equals parameter count on MySQL, `$1 ... $n` on PostgreSQL |
| Notifications.MarkAsReadBindsInOrder | src/controllers/notificationsController.js:63-66 | mark-one binds `[id, userId]` in order |
| Notifications.MarkAllAsReadBindsInOrder | src/controllers/notificationsController.js:84-87 | mark-all binds `[userId]` |
| Notifications.DeleteNotificationBindsInOrder | src/controllers/notificationsController.js:106-109 | delete binds `[id, userId]` in order on both databases |
| Notifications.CreateNotificationBindsInOrder | src/controllers/notificationsController.js:8-11 | the insert binds its six parameters in order |

## Left out

- The database drivers and what SQL does. The answers of the server are inputs, and the model records only what is sent. On a PostgreSQL deployment the controllers send MySQL text (`DATE_FORMAT`, backquoted names, `is_read = 0`), which a real server would reject. The model shows that text being sent but not the rejection.
- The fixed connection details of migrate-database.js:9-19. Creating the connection is modelled by its outcome only: an error, or a connection.
- bcrypt hashing. The hash enters as an opaque text. The administrator's password itself is not part of the model.
- nodemailer. `verify` and `sendMail` are modelled only by the message each one threw, if any.
- File reads. The script text is an input; `existsSync` is modelled as that text being absent. A `readFileSync` error on an existing file is not modelled.
- `console` output, except the statement preview of migrate-database.js:59.
- `new Date().toISOString()`. The time is an input.
- `process.exit`. It is modelled as an `Err` result after which nothing more is sent.
- HTTP beyond the returned status and payload: `res.render`, `res.redirect` and the sessions. `req.flash` is modelled as the `Flash` value. The settings `index` handler only renders, and is not modelled.
- src/controllers/dashboardController.js is not part of this model.
- `ensureDatabase` in db-postgres.js only logs, and is not modelled.
- Async scheduling and pool concurrency. Each handler is one sequential run.
- The regular expression engine. Only the two split patterns are modelled, as functions over strings.
- The order of `Object.entries(req.body)`. The entries are an input sequence.
- The reply to `connection.end()` is not used, and a failure of `end()` is not modelled.
- Numbers are integers. Fractions and floating point do not appear.
- JsValues.ToNumber: gives NaN (`None`) for hexadecimal, fractional, exponent and `Infinity` spellings, which `Number` accepts. Only the decimal integer spellings a port setting takes are read.
- Settings.GetAllSettingsMap: models only two cases of the `rows && Array.isArray(rows)` test: a driver result that is an array of rows, and a pg result object that a MySQL-mode adapter passes through. `undefined` rows and other non-array shapes are not modelled.
- Notifications.UnreadCountRead: does not model which column name each driver returns. The effect of PostgreSQL folding the unquoted alias to `unreadcount` appears only as the row without `unreadCount`, which gives NaN.
- JsValues.ToPropertyKey: `String` of objects and of non-integer numbers is not modelled.
- Migrate.Preview: `substring(0, 80)` counts UTF-16 code units; the model counts characters, so a statement with characters outside the Basic Multilingual Plane is cut at a different place.

## Findings

| source | as written | input that shows it | evidently intended | confidence | as-written member | corrected member |
|---|---|---|---|---|---|---|
| src/controllers/settingsController.js:45-48 | `update` branches on the controller's `isPostgres`, which src/config/db-postgres.js:70 does not export. On PostgreSQL it is `undefined`, so `conn.beginTransaction()` is called on a pg client, which has no such method | a PostgreSQL deployment (`DATABASE_URL` set) and any form body | begin, the upserts and commit go out as SQL on the pg client, and the settings are saved | not executed | Settings.UpdateFailsOnPostgres | Settings.UpdateWithAdapterFlag |
