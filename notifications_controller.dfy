/** The notifications controller (src/controllers/notificationsController.js):
    each handler checks that a user is signed in, builds one or two
    statements with their parameters, and hands them to the pool.

    `flag` is the controller's own `isPostgres` and `adapterPg` the mode of
    the adapter that `getPool()` returns; on a PostgreSQL deployment the
    first is false and the second true. A handler is a function of the
    request fields it reads and of the driver's answers, and gives back the
    statements the driver receives (after the adapter's conversion) and the
    response. */
module Notifications {
  import opened Text
  import opened JsValues
  import opened DbAdapter

  /** A line break of the list query's template literal: four tabs and a
      space of indentation. */
  const Indent := "\n\t\t\t\t "

  const PgDate := "to_char(n.created_at, " + "'Mon DD, YYYY at " + "HH12:MI AM')"
  const MySqlDate := "DATE_FORMAT(n.created_at, " + "'%b %d, %Y at " + "%h:%i %p')"

  function DateExpr(flag: bool): string
  {
    if flag then PgDate else MySqlDate
  }

  const ListOpen := "SELECT n.*, "
  const ListFrom := " as formatted_date" + Indent + "FROM notifications n " + Indent + "WHERE n.user_id = "
  const ListOrder := " OR n.user_id IS NULL" + Indent + "ORDER BY n.created_at DESC " + Indent + "LIMIT "

  /** The pieces of the list query around its two placeholders. */
  function ListParts(flag: bool): seq<string>
  {
    [ListOpen + DateExpr(flag) + ListFrom, ListOrder, ""]
  }

  /** Lines 29-33, with `${dateExpr}` filled in. */
  function ListQuery(flag: bool): string
  {
    Fill(ListParts(flag))
  }

  const UnreadSelect := "SELECT COUNT(*) as " + "unreadCount FROM "
  const UnreadWhere := "notifications WHERE " + "(user_id = "
  const UnreadHead := UnreadSelect + UnreadWhere
  const UnreadRest := " OR user_id IS NULL) "
  const UnreadPgTail := UnreadRest + "AND is_read = FALSE"
  const UnreadMySqlTail := UnreadRest + "AND is_read = 0"
  /** Line 38, written with `$1`. */
  const UnreadPg := UnreadHead + "$1" + UnreadPgTail
  /** Line 39. */
  const UnreadMySql := Fill([UnreadHead, UnreadMySqlTail])

  function UnreadQuery(flag: bool): string
  {
    if flag then UnreadPg else UnreadMySql
  }

  const MarkUpdate := "UPDATE notifications "
  const MarkReadAt := "read_at = NOW() "
  const MarkPgHead := MarkUpdate + "SET is_read = TRUE, " + MarkReadAt
  const MarkMySqlHead := MarkUpdate + "SET is_read = 1, " + MarkReadAt

  function MarkHead(flag: bool): string
  {
    if flag then MarkPgHead else MarkMySqlHead
  }

  /** The condition of the statements that touch one notification: that
      notification, if it belongs to the caller or to nobody. */
  const ScopeHead := "WHERE id = "
  const ScopeMiddle := " AND (user_id = "
  const ScopeTail := " OR user_id IS NULL)"
  const ScopedPg := ScopeHead + "$1" + ScopeMiddle + "$2" + ScopeTail

  /** Line 64. */
  const MarkOnePg := MarkPgHead + ScopedPg
  /** Line 65. */
  const MarkOneMySql := Fill([MarkMySqlHead + ScopeHead, ScopeMiddle, ScopeTail])

  function MarkOneQuery(flag: bool): string
  {
    if flag then MarkOnePg else MarkOneMySql
  }

  const MarkAllWhere := "WHERE (user_id = "
  /** Line 85. */
  const MarkAllPg := MarkPgHead + MarkAllWhere + "$1" + UnreadPgTail
  /** Line 86. */
  const MarkAllMySql := Fill([MarkMySqlHead + MarkAllWhere, UnreadMySqlTail])

  function MarkAllQuery(flag: bool): string
  {
    if flag then MarkAllPg else MarkAllMySql
  }

  const DeleteHead := "DELETE FROM " + "notifications "
  /** Line 107, the same on both databases. */
  const DeleteQuery := Fill([DeleteHead + ScopeHead, ScopeMiddle, ScopeTail])

  const CreateInto := "INSERT INTO " + "notifications (user_id, "
  const CreateColumns := "title, message, type, " + "action_url, icon) "
  const CreateHead := CreateInto + CreateColumns + "VALUES ("
  /** Line 9. */
  const CreateQuery := Fill([CreateHead, ", ", ", ", ", ", ", ", ", ", ")"])

  /** What a handler answers. `ServerError` is status 500 with
      `{success: false, message: 'Server error'}`; `NotAuthenticated` is
      `{success: false, message: 'User not authenticated'}`; `Succeeded` is
      `{success: true}`; `Listed` carries the notifications and the unread
      count (`None` for NaN, which JSON writes as `null`). */
  datatype Response =
    | NotAuthenticated
    | ServerError
    | Succeeded
    | Listed(notifications: seq<Row>, unreadCount: Option<int>)

  function StatusCode(r: Response): int
  {
    if r.ServerError? then 500 else 200
  }

  datatype Run = Run(sent: seq<Statement>, response: Response)

  /** `parseInt(req.query.limit) || 10`: NaN and 0 both fall back to 10. */
  function Limit(limit: Value): (n: int)
    ensures n != 0
  {
    var p := ParseInt(ToPropertyKey(limit));
    if p.Some? && p.value != 0 then p.value else 10
  }

  /** Without a `limit` the page has 10 entries; a non-zero number, or its
      decimal text, is taken as given; `0` means the default. */
  lemma LimitDefaults(n: int)
    ensures Limit(Undefined) == 10
    ensures Limit(Num(0)) == 10
    ensures n != 0 ==> Limit(Num(n)) == n && Limit(Str(ToPropertyKey(Num(n)))) == n
  {
    ParseIntWithoutDigits("undefined");
    ParseIntDecimal(0);
    ParseIntDecimal(n);
  }

  /** The count read from the first row of the unread query. */
  function UnreadCount(row: Row): Option<int>
  {
    ParseInt(ToPropertyKey(Column(row, "unreadCount")))
  }

  /** A count the driver returns as a number under the alias as written is
      read back; a row without that exact column name (PostgreSQL folds the
      unquoted alias to `unreadcount`) gives NaN. */
  lemma UnreadCountRead(row: Row, n: int)
    ensures Column(row, "unreadCount") == Num(n) ==> UnreadCount(row) == Some(n)
    ensures "unreadCount" !in row ==> UnreadCount(row) == None
  {
    if Column(row, "unreadCount") == Num(n) {
      ParseIntDecimal(n);
    }
    if "unreadCount" !in row {
      assert ToPropertyKey(Column(row, "unreadCount")) == "undefined";
      ParseIntWithoutDigits("undefined");
    }
  }

  /** `getNotifications`. */
  function GetNotifications(flag: bool, adapterPg: bool, userId: Value, limit: Value,
                            listAnswer: Result<DriverResult, Error>,
                            unreadAnswer: Result<DriverResult, Error>): (r: Run)
    ensures r.sent == [] <==> !Truthy(userId)
    ensures !Truthy(userId) ==> r.response == NotAuthenticated
    ensures Truthy(userId) ==>
      r.sent[0] == Converted(adapterPg, ListQuery(flag), [userId, Num(Limit(limit))])
    ensures Truthy(userId) && RowsOf(adapterPg, listAnswer).Err? ==> |r.sent| == 1 && r.response == ServerError
    ensures |r.sent| == 2 ==> r.sent[1] == Converted(adapterPg, UnreadQuery(flag), [userId])
    ensures Truthy(userId) && RowsOf(adapterPg, listAnswer).Ok? ==>
      r.sent == [Converted(adapterPg, ListQuery(flag), [userId, Num(Limit(limit))]),
                 Converted(adapterPg, UnreadQuery(flag), [userId])]
    ensures r.response.Listed? <==>
      Truthy(userId) && RowsOf(adapterPg, listAnswer).Ok?
      && RowsOf(adapterPg, unreadAnswer).Ok? && RowsOf(adapterPg, unreadAnswer).value != []
    ensures r.response.Listed? ==>
      && |r.sent| == 2
      && r.response.notifications == RowsOf(adapterPg, listAnswer).value
      && r.response.unreadCount == UnreadCount(RowsOf(adapterPg, unreadAnswer).value[0])
  {
    if !Truthy(userId) then Run([], NotAuthenticated)
    else
      var list := Converted(adapterPg, ListQuery(flag), [userId, Num(Limit(limit))]);
      var notifications := RowsOf(adapterPg, listAnswer);
      if notifications.Err? then Run([list], ServerError)
      else
        var unread := Converted(adapterPg, UnreadQuery(flag), [userId]);
        var counts := RowsOf(adapterPg, unreadAnswer);
        // `const [[{ unreadCount }]]` throws when there is no first row.
        if counts.Err? || counts.value == [] then Run([list, unread], ServerError)
        else Run([list, unread], Listed(notifications.value, UnreadCount(counts.value[0])))
  }

  /** The shape shared by `markAsRead`, `markAllAsRead` and
      `deleteNotification`: the guard, one statement, success unless it
      throws. */
  function Guarded(adapterPg: bool, userId: Value, sql: string, params: seq<Value>,
                   answer: Result<DriverResult, Error>): (r: Run)
    ensures r.sent == [] <==> !Truthy(userId)
    ensures !Truthy(userId) ==> r.response == NotAuthenticated
    ensures Truthy(userId) ==>
      && r.sent == [Converted(adapterPg, sql, params)]
      && (r.response == ServerError <==> answer.Err?)
      && (answer.Ok? ==> r.response == Succeeded)
  {
    if !Truthy(userId) then Run([], NotAuthenticated)
    else if answer.Err? then Run([Converted(adapterPg, sql, params)], ServerError)
    else Run([Converted(adapterPg, sql, params)], Succeeded)
  }

  /** `markAsRead`; `id` is `req.params.id`. */
  function MarkAsRead(flag: bool, adapterPg: bool, id: Value, userId: Value,
                      answer: Result<DriverResult, Error>): (r: Run)
    ensures r.sent == if Truthy(userId) then [Converted(adapterPg, MarkOneQuery(flag), [id, userId])] else []
    ensures r.response == if !Truthy(userId) then NotAuthenticated else if answer.Err? then ServerError else Succeeded
  {
    Guarded(adapterPg, userId, MarkOneQuery(flag), [id, userId], answer)
  }

  /** `markAllAsRead` */
  function MarkAllAsRead(flag: bool, adapterPg: bool, userId: Value,
                         answer: Result<DriverResult, Error>): (r: Run)
    ensures r.sent == if Truthy(userId) then [Converted(adapterPg, MarkAllQuery(flag), [userId])] else []
    ensures r.response == if !Truthy(userId) then NotAuthenticated else if answer.Err? then ServerError else Succeeded
  {
    Guarded(adapterPg, userId, MarkAllQuery(flag), [userId], answer)
  }

  /** `deleteNotification` */
  function DeleteNotification(adapterPg: bool, id: Value, userId: Value,
                              answer: Result<DriverResult, Error>): (r: Run)
    ensures r.sent == if Truthy(userId) then [Converted(adapterPg, DeleteQuery, [id, userId])] else []
    ensures r.response == if !Truthy(userId) then NotAuthenticated else if answer.Err? then ServerError else Succeeded
  {
    Guarded(adapterPg, userId, DeleteQuery, [id, userId], answer)
  }

  /** A default parameter: used when the argument is missing or `undefined`. */
  function Default(v: Value, d: Value): Value
  {
    if v.Undefined? then d else v
  }

  /** `createNotification(userId, title, message, type, actionUrl, icon)`:
      no guard and no catch, so a failure reaches the caller. */
  function CreateNotification(adapterPg: bool, userId: Value, title: Value, message: Value,
                              kind: Value, actionUrl: Value, icon: Value,
                              answer: Result<DriverResult, Error>): (r: (Statement, Result<(), Error>))
    ensures r.0.query == if adapterPg then Numbered(CreateQuery, 1) else CreateQuery
    ensures |r.0.params| == 6
    ensures r.0.params[..3] == [userId, title, message]
    ensures r.0.params[3] == (if kind == Undefined then Str("info") else kind)
    ensures r.0.params[4] == (if actionUrl == Undefined then Null else actionUrl)
    ensures r.0.params[5] == (if icon == Undefined then Null else icon)
    ensures r.1 == if answer.Err? then Err(answer.error) else Ok(())
  {
    var sent := Converted(adapterPg, CreateQuery,
                          [userId, title, message, Default(kind, Str("info")), Default(actionUrl, Null), Default(icon, Null)]);
    (sent, if answer.Err? then Err(answer.error) else Ok(()))
  }

  /** Every handler's guard: without a signed-in user nothing reaches the
      database and the answer is `User not authenticated`. */
  lemma GuardComesFirst(flag: bool, adapterPg: bool, userId: Value, id: Value, limit: Value,
                        a1: Result<DriverResult, Error>, a2: Result<DriverResult, Error>)
    requires !Truthy(userId)
    ensures GetNotifications(flag, adapterPg, userId, limit, a1, a2) == Run([], NotAuthenticated)
    ensures MarkAsRead(flag, adapterPg, id, userId, a1) == Run([], NotAuthenticated)
    ensures MarkAllAsRead(flag, adapterPg, userId, a1) == Run([], NotAuthenticated)
    ensures DeleteNotification(adapterPg, id, userId, a1) == Run([], NotAuthenticated)
  {
  }

  /** Any error a handler's statement throws becomes status 500. */
  lemma ErrorsAreServerErrors(flag: bool, adapterPg: bool, userId: Value, id: Value, limit: Value,
                              e: Error, a: Result<DriverResult, Error>)
    requires Truthy(userId)
    ensures StatusCode(GetNotifications(flag, adapterPg, userId, limit, Err(e), a).response) == 500
    ensures StatusCode(GetNotifications(flag, adapterPg, userId, limit, a, Err(e)).response) == 500
    ensures StatusCode(MarkAsRead(flag, adapterPg, id, userId, Err(e)).response) == 500
    ensures StatusCode(MarkAllAsRead(flag, adapterPg, userId, Err(e)).response) == 500
    ensures StatusCode(DeleteNotification(adapterPg, id, userId, Err(e)).response) == 500
  {
  }

  /** A statement reaches the driver with its parameters bound in order:
      on PostgreSQL its markers read back as `$1 ... $n` for its `n`
      parameters; on MySQL it has one `?` per parameter. */
  predicate BindsInOrder(adapterPg: bool, st: Statement)
  {
    if adapterPg then Unnumber(st.query).1 == Range(1, |st.params|)
    else Placeholders(st.query) == |st.params|
  }

  lemma ListQueryPlain(flag: bool)
    ensures Placeholders(ListQuery(flag)) == 2
    ensures Unnumber(Numbered(ListQuery(flag), 1)).1 == Range(1, 2)
  {
    ListPartsPlain(flag);
    PlainLiteral(ListParts(flag));
  }

  function UnreadTail(flag: bool): string
  {
    if flag then UnreadPgTail else UnreadMySqlTail
  }

  /** Line 38 is the adapter's numbering of line 39 with `0` for `FALSE`. */
  lemma UnreadQueryPlain(flag: bool)
    ensures Placeholders(UnreadMySql) == 1
    ensures Numbered(UnreadQuery(flag), 1) == UnreadHead + "$1" + UnreadTail(flag)
    ensures Unnumber(Numbered(UnreadQuery(flag), 1)).1 == Range(1, 1)
  {
    UnreadPartsPlain();
    OnePlaceholder(UnreadHead, UnreadPgTail);
    OnePlaceholder(UnreadHead, UnreadMySqlTail);
  }

  /** The statement that marks one notification ends with its scope: the
      given `id` as `$1` and the caller as `$2`, or a row that belongs to
      nobody. */
  lemma MarkOneScoped(flag: bool)
    ensures Placeholders(MarkOneMySql) == 2
    ensures Numbered(MarkOneQuery(flag), 1) == MarkHead(flag) + ScopedPg
    ensures Unnumber(Numbered(MarkOneQuery(flag), 1)).1 == Range(1, 2)
  {
    ScopePartsPlain();
    MarkHeadsPlain();
    PrefixedTwoPlaceholders(MarkMySqlHead, ScopeHead, ScopeMiddle, ScopeTail);
    if flag {
      PrefixedTwoPlaceholders(MarkPgHead, ScopeHead, ScopeMiddle, ScopeTail);
    }
  }

  /** The same scope ends the statement that deletes a notification. */
  lemma DeleteScoped()
    ensures Placeholders(DeleteQuery) == 2
    ensures Numbered(DeleteQuery, 1) == DeleteHead + ScopedPg
    ensures Unnumber(Numbered(DeleteQuery, 1)).1 == Range(1, 2)
  {
    ScopePartsPlain();
    DeleteHeadPlain();
    PrefixedTwoPlaceholders(DeleteHead, ScopeHead, ScopeMiddle, ScopeTail);
  }

  /** A head without placeholders, then a text with two: written with `?`
      it is numbered into the `$1`, `$2` spelling, which the numbering leaves
      as it is and which reads back as `$1`, `$2`. */
  lemma PrefixedTwoPlaceholders(head: string, a: string, b: string, c: string)
    requires Plain(head) && Plain(a) && Plain(b) && Plain(c)
    requires b != [] && !IsDigit(b[0]) && (c == [] || !IsDigit(c[0]))
    ensures Placeholders(Fill([head + a, b, c])) == 2
    ensures Numbered(Fill([head + a, b, c]), 1) == head + (a + "$1" + b + "$2" + c)
    ensures Numbered(head + (a + "$1" + b + "$2" + c), 1) == head + (a + "$1" + b + "$2" + c)
    ensures Unnumber(head + (a + "$1" + b + "$2" + c)).1 == Range(1, 2)
  {
    var h := head + a;
    assert Plain(h);
    TwoPlaceholders(h, b, c);
    var p1 := a + "$1";
    var p2 := p1 + b;
    var p3 := p2 + "$2";
    AppendAssoc(head, p3, c);
    AppendAssoc(head, p2, "$2");
    AppendAssoc(head, p1, b);
    AppendAssoc(head, a, "$1");
  }

  /** Line 85 is the adapter's numbering of line 86 with `TRUE` and `FALSE`
      for `1` and `0`. */
  lemma MarkAllQueryPlain(flag: bool)
    ensures Placeholders(MarkAllMySql) == 1
    ensures Numbered(MarkAllQuery(flag), 1) == MarkHead(flag) + MarkAllWhere + "$1" + UnreadTail(flag)
    ensures Unnumber(Numbered(MarkAllQuery(flag), 1)).1 == Range(1, 1)
  {
    MarkHeadsPlain();
    UnreadPartsPlain();
    DeleteHeadPlain();
    OnePlaceholder(MarkPgHead + MarkAllWhere, UnreadPgTail);
    OnePlaceholder(MarkMySqlHead + MarkAllWhere, UnreadMySqlTail);
  }

  lemma CreateQueryPlain()
    ensures Placeholders(CreateQuery) == 6
    ensures Unnumber(Numbered(CreateQuery, 1)).1 == Range(1, 6)
  {
    CreateHeadPlain();
    PlainLiteral([CreateHead, ", ", ", ", ", ", ", ", ", ", ")"]);
  }

  // Every statement of every handler binds its parameters in order, on a
  // PostgreSQL pool whichever branch the controller's flag selects, and on a
  // MySQL pool along the MySQL branch.

  lemma GetNotificationsBindsInOrder(flag: bool, adapterPg: bool, userId: Value, limit: Value,
                                     a1: Result<DriverResult, Error>, a2: Result<DriverResult, Error>)
    requires adapterPg || !flag
    ensures forall st | st in GetNotifications(flag, adapterPg, userId, limit, a1, a2).sent :: BindsInOrder(adapterPg, st)
  {
    ListQueryPlain(flag);
    UnreadQueryPlain(flag);
  }

  lemma MarkAsReadBindsInOrder(flag: bool, adapterPg: bool, id: Value, userId: Value, a1: Result<DriverResult, Error>)
    requires adapterPg || !flag
    ensures forall st | st in MarkAsRead(flag, adapterPg, id, userId, a1).sent :: BindsInOrder(adapterPg, st)
  {
    MarkOneScoped(flag);
  }

  lemma MarkAllAsReadBindsInOrder(flag: bool, adapterPg: bool, userId: Value, a1: Result<DriverResult, Error>)
    requires adapterPg || !flag
    ensures forall st | st in MarkAllAsRead(flag, adapterPg, userId, a1).sent :: BindsInOrder(adapterPg, st)
  {
    MarkAllQueryPlain(flag);
  }

  lemma DeleteNotificationBindsInOrder(adapterPg: bool, id: Value, userId: Value, a1: Result<DriverResult, Error>)
    ensures forall st | st in DeleteNotification(adapterPg, id, userId, a1).sent :: BindsInOrder(adapterPg, st)
  {
    DeleteScoped();
  }

  lemma CreateNotificationBindsInOrder(adapterPg: bool, userId: Value, title: Value, message: Value, kind: Value,
                                       actionUrl: Value, icon: Value, a1: Result<DriverResult, Error>)
    ensures BindsInOrder(adapterPg, CreateNotification(adapterPg, userId, title, message, kind, actionUrl, icon, a1).0)
  {
    CreateQueryPlain();
  }

  // The pieces of the statement texts hold no placeholder. Each lemma looks
  // at a few literals only, which keeps the solver's work on them small.

  lemma IndentPlain()
    ensures Plain(Indent)
  {
  }

  lemma DatesPlain()
    ensures Plain(PgDate) && Plain(MySqlDate)
  {
    PgDatePlain();
    assert Plain("DATE_FORMAT(n.created_at, ") && Plain("'%b %d, %Y at ") && Plain("%h:%i %p')");
  }

  lemma PgDatePlain()
    ensures Plain(PgDate)
  {
    assert Plain("to_char(n.created_at, ") && Plain("'Mon DD, YYYY at ") && Plain("HH12:MI AM')");
  }

  lemma ListFromPlain()
    ensures Plain(ListFrom)
  {
    IndentPlain();
    ListFromPiecesPlain();
    assert Plain("WHERE n.user_id = ");
  }

  lemma ListFromPiecesPlain()
    ensures Plain(" as formatted_date") && Plain("FROM notifications n ")
  {
  }

  lemma ListOrderPlain()
    ensures Plain(ListOrder)
  {
    IndentPlain();
    ListOrderPiecesPlain();
    assert Plain("LIMIT ");
  }

  lemma ListOrderPiecesPlain()
    ensures Plain(" OR n.user_id IS NULL") && Plain("ORDER BY n.created_at DESC ")
  {
  }

  lemma ListPartsPlain(flag: bool)
    ensures PlainParts(ListParts(flag))
  {
    DatesPlain();
    ListFromPlain();
    ListOrderPlain();
    assert Plain(ListOpen);
  }

  lemma UnreadPartsPlain()
    ensures Plain(UnreadHead) && Plain(UnreadPgTail) && Plain(UnreadMySqlTail)
    ensures UnreadPgTail[0] == ' ' && UnreadMySqlTail[0] == ' '
  {
    UnreadSelectPlain();
    UnreadWherePlain();
    assert Plain(UnreadRest) && Plain("AND is_read = FALSE") && Plain("AND is_read = 0");
  }

  lemma UnreadSelectPlain()
    ensures Plain(UnreadSelect)
  {
    assert Plain("SELECT COUNT(*) as ") && Plain("unreadCount FROM ");
  }

  lemma UnreadWherePlain()
    ensures Plain(UnreadWhere)
  {
    assert Plain("notifications WHERE ") && Plain("(user_id = ");
  }

  lemma MarkHeadsPlain()
    ensures Plain(MarkPgHead) && Plain(MarkMySqlHead)
  {
    assert Plain(MarkUpdate) && Plain(MarkReadAt);
    assert Plain("SET is_read = TRUE, ") && Plain("SET is_read = 1, ");
  }

  lemma ScopePartsPlain()
    ensures Plain(ScopeHead) && Plain(ScopeMiddle) && Plain(ScopeTail)
    ensures ScopeMiddle[0] == ' ' && ScopeTail[0] == ' '
  {
    ScopeTailPlain();
  }

  lemma ScopeTailPlain()
    ensures Plain(ScopeTail)
  {
  }

  lemma DeleteHeadPlain()
    ensures Plain(DeleteHead) && Plain(MarkAllWhere)
  {
    assert Plain("DELETE FROM ") && Plain("notifications ");
  }

  lemma CreateHeadPlain()
    ensures Plain(CreateHead)
  {
    CreateIntoPlain();
    CreateColumnsPlain();
    assert Plain("VALUES (");
  }

  lemma CreateIntoPlain()
    ensures Plain(CreateInto)
  {
    assert Plain("INSERT INTO ") && Plain("notifications (user_id, ");
  }

  lemma CreateColumnsPlain()
    ensures Plain(CreateColumns)
  {
    assert Plain("title, message, type, ") && Plain("action_url, icon) ");
  }
}
