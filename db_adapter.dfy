/** `DatabaseAdapter` (src/config/db-adapter.js): lets code written for
    MySQL's `?` placeholders run on PostgreSQL by numbering the placeholders,
    and reshapes pg's result object into mysql2's `[rows, fields]` pair. */
module DbAdapter {
  import opened Text
  import opened JsValues
  import opened Connections

  /** `{ query, params }`: a statement text and its bound parameters. */
  datatype Statement = Statement(query: string, params: seq<Value>)

  datatype Field = Field(name: string)

  /** What a pool answers to `query`: pg's result object, or mysql2's
      `[rows, fields]` pair. */
  datatype DriverResult =
    | PgResult(rows: seq<Row>, fields: seq<Field>, rowCount: int)
    | Pair(rows: seq<Row>, fields: seq<Field>)

  /** How a connection is taken from the pool. */
  datatype Acquire = PoolConnect | PoolGetConnection

  /** Number of `?` placeholders in `s`. */
  function Placeholders(s: string): nat
  {
    Occurrences(s, '?')
  }

  /** `s` with its `?`, from left to right, replaced by `$next`, `$next+1`, ...;
      every other character is copied. */
  function Numbered(s: string, next: nat): string
    decreases |s|
  {
    if s == [] then []
    else if s[0] == '?' then "$" + Decimal(next) + Numbered(s[1..], next + 1)
    else [s[0]] + Numbered(s[1..], next)
  }

  /** Numbering a concatenation numbers the second part from where the first
      part stopped. */
  lemma {:induction false} NumberedAppend(a: string, b: string, next: nat)
    ensures Numbered(a + b, next) == Numbered(a, next) + Numbered(b, next + Placeholders(a))
    decreases |a|
  {
    if a == [] {
      assert a + b == b;
    } else {
      assert (a + b)[1..] == a[1..] + b;
      NumberedAppend(a[1..], b, if a[0] == '?' then next + 1 else next);
    }
  }

  /** A text without `?` (for instance one already written with `$1`) comes
      back unchanged. */
  lemma {:induction false} NumberedWithoutPlaceholders(s: string, next: nat)
    requires '?' !in s
    ensures Numbered(s, next) == s
    decreases |s|
  {
    if s != [] {
      assert s[0] in s;
      assert forall c | c in s[1..] :: c in s;
      NumberedWithoutPlaceholders(s[1..], next);
    }
  }

  /** No `?` survives the numbering. */
  lemma {:induction false} NumberedLeavesNoPlaceholder(s: string, next: nat)
    ensures '?' !in Numbered(s, next)
    decreases |s|
  {
    if s != [] {
      NumberedLeavesNoPlaceholder(s[1..], if s[0] == '?' then next + 1 else next);
      if s[0] == '?' {
        assert '?' !in Decimal(next);
      }
    }
  }

  /** The numbering adds exactly one `$` per `?`. */
  lemma {:induction false} NumberedDollars(s: string, next: nat)
    ensures Occurrences(Numbered(s, next), '$') == Occurrences(s, '$') + Placeholders(s)
    decreases |s|
  {
    if s != [] {
      var n' := if s[0] == '?' then next + 1 else next;
      NumberedDollars(s[1..], n');
      if s[0] == '?' {
        OccurrencesAppend("$" + Decimal(next), Numbered(s[1..], n'), '$');
        OccurrencesAppend("$", Decimal(next), '$');
        OccurrencesAbsent(Decimal(next), '$');
      } else {
        OccurrencesAppend([s[0]], Numbered(s[1..], n'), '$');
      }
    }
  }

  /** The `?` at position `p` of `s` becomes `$k`, where `k - 1` is the number
      of `?` to its left: counting starts at 1 and has no gaps. */
  lemma PlaceholderAt(s: string, p: nat)
    requires p < |s| && s[p] == '?'
    ensures var k := Placeholders(s[..p]) + 1;
      Numbered(s, 1) == Numbered(s[..p], 1) + "$" + Decimal(k) + Numbered(s[p + 1..], k + 1)
  {
    var k := Placeholders(s[..p]) + 1;
    var head, rest := s[..p], s[p..];
    assert s == head + rest;
    NumberedAppend(head, rest, 1);
    assert rest[0] == '?' && rest[1..] == s[p + 1..];
    assert Numbered(rest, k) == "$" + Decimal(k) + Numbered(s[p + 1..], k + 1);
  }

  /** A text whose numbering can be read back: it has no `$` of its own, and no
      `?` is directly followed by a digit (which would merge into the number). */
  predicate Unambiguous(s: string)
  {
    && '$' !in s
    && forall i | 0 <= i < |s| - 1 :: s[i] == '?' ==> !IsDigit(s[i + 1])
  }

  /** `k, k+1, ..., k+n-1` */
  function Range(k: nat, n: nat): (r: seq<nat>)
    ensures |r| == n && forall i | 0 <= i < n :: r[i] == k + i
    decreases n
  {
    if n == 0 then [] else [k] + Range(k + 1, n - 1)
  }

  /** Reads a numbered text back: each `$` followed by digits becomes `?` again,
      and its number is collected, in order. */
  function Unnumber(t: string): (string, seq<nat>)
    decreases |t|
  {
    if t == [] then ("", [])
    else if t[0] == '$' && |t| > 1 && IsDigit(t[1]) then
      var d := DigitPrefix(t[1..]);
      var rest := Unnumber(t[1 + |d|..]);
      ("?" + rest.0, [DigitsValue(d)] + rest.1)
    else
      var rest := Unnumber(t[1..]);
      ([t[0]] + rest.0, rest.1)
  }

  lemma NumberedStart(s: string, next: nat)
    requires s != []
    ensures var t := Numbered(s, next);
      t != [] && (s[0] == '?' ==> t[0] == '$') && (s[0] != '?' ==> t[0] == s[0])
  {
  }

  /** Round trip: reading back the numbering of an unambiguous text gives the
      text itself and the numbers `next, next+1, ...`, one per `?`, in order. */
  lemma {:induction false} UnnumberNumbered(s: string, next: nat)
    requires Unambiguous(s)
    ensures Unnumber(Numbered(s, next)) == (s, Range(next, Placeholders(s)))
    decreases |s|
  {
    if s != [] {
      var tail := s[1..];
      assert Unambiguous(tail) by {
        assert forall c | c in tail :: c in s;
        assert forall i | 0 <= i < |tail| - 1 :: tail[i] == s[i + 1];
      }
      assert s[0] != '$' by { assert s[0] in s; }
      if s[0] == '?' {
        var d := Decimal(next);
        var n := Numbered(tail, next + 1);
        var t := "$" + d + n;
        assert n == [] || !IsDigit(n[0]) by {
          if tail != [] {
            NumberedStart(tail, next + 1);
            assert tail[0] == s[1];
          }
        }
        UnnumberMarker(next, n);
        UnnumberNumbered(tail, next + 1);
        assert s == "?" + tail;
      } else {
        UnnumberNumbered(tail, next);
        assert s == [s[0]] + tail;
      }
    }
  }

  /** A marker `$next` followed by a text that does not start with a digit
      reads back as one `?` numbered `next`. */
  lemma UnnumberMarker(next: nat, n: string)
    requires n == [] || !IsDigit(n[0])
    ensures Unnumber("$" + Decimal(next) + n) == ("?" + Unnumber(n).0, [next] + Unnumber(n).1)
  {
    var d := Decimal(next);
    var t := "$" + d + n;
    assert t[1..] == d + n;
    DigitPrefixOf(d, n);
    DecimalRoundTrip(next);
    assert t[1 + |d|..] == n;
  }

  /** The text of a statement literal whose placeholders sit between `parts`:
      `parts[0] ? parts[1] ? ... ? parts[n]`. */
  function Fill(parts: seq<string>): string
    requires parts != []
    decreases |parts|
  {
    if |parts| == 1 then parts[0] else parts[0] + "?" + Fill(parts[1..])
  }

  /** A statement literal written with `Fill` has one placeholder per gap, and
      its numbering can be read back when its parts are plain. */
  lemma {:induction false} FillPlaceholders(parts: seq<string>)
    requires parts != []
    requires forall i | 0 <= i < |parts| :: '?' !in parts[i] && '$' !in parts[i]
    requires forall i | 1 <= i < |parts| :: parts[i] == [] || !IsDigit(parts[i][0])
    ensures Placeholders(Fill(parts)) == |parts| - 1
    ensures Unambiguous(Fill(parts))
    decreases |parts|
  {
    var p := parts[0];
    OccurrencesAbsent(p, '?');
    if |parts| > 1 {
      var rest := Fill(parts[1..]);
      FillPlaceholders(parts[1..]);
      OccurrencesAppend(p + "?", rest, '?');
      OccurrencesAppend(p, "?", '?');
      var s := p + "?" + rest;
      assert rest == [] || !IsDigit(rest[0]) by {
        if |parts| > 2 {
          assert rest == parts[1] + "?" + Fill(parts[2..]);
          if parts[1] == [] {
            assert rest[0] == '?';
          } else {
            assert rest[0] == parts[1][0];
          }
        }
      }
      forall i | 0 <= i < |s| - 1 && s[i] == '?'
        ensures !IsDigit(s[i + 1])
      {
        if i < |p| {
          assert false;
        } else if i > |p| {
          assert s[i] == rest[i - |p| - 1] && s[i + 1] == rest[i - |p|];
        } else if rest != [] {
          assert s[i + 1] == rest[0];
        }
      }
    }
  }

  /** `parts[0] $next parts[1] $next+1 ... parts[n]`: a statement literal
      written with numbered placeholders from the start. */
  function Joined(parts: seq<string>, next: nat): string
    requires parts != []
    decreases |parts|
  {
    if |parts| == 1 then parts[0] else parts[0] + "$" + Decimal(next) + Joined(parts[1..], next + 1)
  }

  /** Numbering a `?` literal gives the literal written with `$k` in the
      same places. */
  lemma {:induction false} NumberedFill(parts: seq<string>, next: nat)
    requires parts != []
    requires forall i | 0 <= i < |parts| :: '?' !in parts[i]
    ensures Numbered(Fill(parts), next) == Joined(parts, next)
    decreases |parts|
  {
    NumberedWithoutPlaceholders(parts[0], next);
    if |parts| > 1 {
      var p := parts[0];
      var rest := Fill(parts[1..]);
      var d := "$" + Decimal(next);
      OccurrencesAbsent(p, '?');
      NumberedAppend(p, "?", next);
      assert Numbered("?", next) == d + [] by {
        assert "?"[1..] == [];
      }
      assert Numbered(p + "?", next) == p + d;
      OccurrencesAppend(p, "?", '?');
      NumberedAppend(p + "?", rest, next);
      NumberedFill(parts[1..], next + 1);
      assert Numbered(Fill(parts), next) == p + d + Joined(parts[1..], next + 1);
      Text.AppendAssoc(p, "$", Decimal(next));
    }
  }

  /** A piece of statement text with no placeholder of either kind. */
  predicate Plain(s: string)
  {
    forall i | 0 <= i < |s| :: s[i] != '?' && s[i] != '$'
  }

  /** The pieces of a literal with placeholders between them, none of which
      could be mistaken for part of a placeholder. */
  predicate PlainParts(parts: seq<string>)
  {
    && parts != []
    && (forall i | 0 <= i < |parts| :: Plain(parts[i]))
    && (forall i | 1 <= i < |parts| :: parts[i] == [] || !IsDigit(parts[i][0]))
  }

  /** Both ways of writing a plain literal with placeholders come out of the
      PostgreSQL conversion the same, and its markers read back as
      `$1 ... $n`, one per gap, in order. */
  lemma PlainLiteral(parts: seq<string>)
    requires PlainParts(parts)
    ensures Placeholders(Fill(parts)) == |parts| - 1
    ensures Numbered(Joined(parts, 1), 1) == Numbered(Fill(parts), 1) == Joined(parts, 1)
    ensures Unnumber(Joined(parts, 1)) == (Fill(parts), Range(1, |parts| - 1))
  {
    var q := Fill(parts);
    var j := Joined(parts, 1);
    FillPlaceholders(parts);
    NumberedFill(parts, 1);
    assert Numbered(q, 1) == j;
    NumberedLeavesNoPlaceholder(q, 1);
    assert '?' !in j;
    NumberedWithoutPlaceholders(j, 1);
    UnnumberNumbered(q, 1);
  }

  lemma JoinedTwo(a: string, b: string)
    ensures Joined([a, b], 1) == a + "$1" + b
  {
    assert Decimal(1) == "1";
    assert [a, b][1..] == [b];
  }

  lemma JoinedThree(a: string, b: string, c: string)
    ensures Joined([a, b, c], 1) == a + "$1" + b + "$2" + c
  {
    assert Decimal(1) == "1" && Decimal(2) == "2";
    assert [a, b, c][1..] == [b, c];
    assert [b, c][1..] == [c];
    assert Joined([b, c], 2) == b + "$2" + c;
    assert Joined([a, b, c], 1) == a + "$1" + (b + "$2" + c);
  }

  /** A literal with one placeholder, written with `?` or with `$1`. */
  lemma OnePlaceholder(a: string, b: string)
    requires Plain(a) && Plain(b) && (b == [] || !IsDigit(b[0]))
    ensures Placeholders(Fill([a, b])) == 1
    ensures Numbered(Fill([a, b]), 1) == Numbered(a + "$1" + b, 1) == a + "$1" + b
    ensures Unnumber(a + "$1" + b).1 == Range(1, 1)
  {
    var parts := [a, b];
    assert PlainParts(parts);
    PlainLiteral(parts);
    JoinedTwo(a, b);
  }

  /** A literal with two placeholders, written with `?` or with `$1`, `$2`. */
  lemma TwoPlaceholders(a: string, b: string, c: string)
    requires Plain(a) && Plain(b) && Plain(c)
    requires b != [] && !IsDigit(b[0]) && (c == [] || !IsDigit(c[0]))
    ensures Placeholders(Fill([a, b, c])) == 2
    ensures Numbered(Fill([a, b, c]), 1) == Numbered(a + "$1" + b + "$2" + c, 1) == a + "$1" + b + "$2" + c
    ensures Unnumber(a + "$1" + b + "$2" + c) == (Fill([a, b, c]), Range(1, 2))
  {
    var parts := [a, b, c];
    assert PlainParts(parts);
    PlainLiteral(parts);
    JoinedThree(a, b, c);
  }

  /** The TypeError of `const [rows] = x` when `x` is not iterable. */
  const NotIterable := Error("", "(intermediate value) is not iterable")

  /** `const [rows] = await adapter.query(...)`, given the driver's answer:
      the rows of the pair `query` hands back. A pg result object that a
      MySQL-mode adapter passes through unchanged is not an array. */
  function RowsOf(isPostgres: bool, answer: Result<DriverResult, Error>): (r: Result<seq<Row>, Error>)
    ensures answer.Err? ==> r == Err(answer.error)
    ensures answer.Ok? && (isPostgres || answer.value.Pair?) ==> r == Ok(answer.value.rows)
    ensures answer.Ok? && !isPostgres && answer.value.PgResult? ==> r == Err(NotIterable)
  {
    if answer.Err? then Err(answer.error)
    else if !isPostgres && answer.value.PgResult? then Err(NotIterable)
    else Ok(answer.value.rows)
  }

  /** The statement `query` sends for `sql` and `params`. */
  function Converted(isPostgres: bool, sql: string, params: seq<Value>): Statement
  {
    Statement(if isPostgres then Numbered(sql, 1) else sql, params)
  }

  class DatabaseAdapter<P> {
    /** The driver's pool: never inspected, only delegated to. */
    const pool: P
    /** Fixed at construction; `new DatabaseAdapter(pool)` means MySQL. */
    const isPostgres: bool

    constructor (pool: P, isPostgres: bool)
      ensures this.pool == pool && this.isPostgres == isPostgres
    {
      this.pool := pool;
      this.isPostgres := isPostgres;
    }

    /** `convertQuery`: on MySQL the identity; on PostgreSQL the `?` are
        numbered from 1 by a running counter. The parameters are never touched. */
    method ConvertQuery(query: string, params: seq<Value>) returns (r: Statement)
      ensures r.params == params
      ensures !isPostgres ==> r.query == query
      ensures isPostgres ==> r.query == Numbered(query, 1)
    {
      if !isPostgres {
        return Statement(query, params);
      }
      var paramIndex := 1;
      var converted := "";
      for i := 0 to |query|
        invariant converted == Numbered(query[..i], 1)
        invariant paramIndex == 1 + Placeholders(query[..i])
      {
        NumberedAppend(query[..i], [query[i]], 1);
        OccurrencesAppend(query[..i], [query[i]], '?');
        assert query[..i + 1] == query[..i] + [query[i]];
        if query[i] == '?' {
          converted := converted + "$" + Decimal(paramIndex);
          paramIndex := paramIndex + 1;
        } else {
          converted := converted + [query[i]];
        }
      }
      assert query[..|query|] == query;
      r := Statement(converted, params);
    }

    /** `query(sql, params = [])`: sends the converted statement to the pool
        and hands back `answer`, what the pool replied to it; on PostgreSQL the
        reply is reshaped into `[rows, fields]`. Errors pass through untouched. */
    method Query(sql: string, params: Option<seq<Value>>, answer: Result<DriverResult, Error>)
      returns (sent: Statement, r: Result<DriverResult, Error>)
      ensures sent.params == (if params.Some? then params.value else [])
      ensures sent.query == (if isPostgres then Numbered(sql, 1) else sql)
      ensures answer.Err? ==> r == answer
      ensures answer.Ok? && isPostgres ==> r == Ok(Pair(answer.value.rows, answer.value.fields))
      ensures answer.Ok? && !isPostgres ==> r == answer
      ensures sent == Converted(isPostgres, sql, sent.params)
      ensures var rows := RowsOf(isPostgres, answer);
        && (rows.Ok? <==> r.Ok? && r.value.Pair?)
        && (rows.Ok? ==> rows.value == r.value.rows)
    {
      var ps := if params.Some? then params.value else [];
      sent := ConvertQuery(sql, ps);
      if answer.Err? {
        return sent, answer;
      }
      if isPostgres {
        r := Ok(Pair(answer.value.rows, answer.value.fields));
      } else {
        r := answer;
      }
    }

    /** `getConnection`: `pool.connect()` on PostgreSQL, `pool.getConnection()`
        on MySQL; the connection handed out belongs to the same driver.
        `connectError` is what the driver's call threw, if anything; it is
        not caught here, so it reaches the caller. */
    method GetConnection(connectError: Option<Error>, answer: nat -> Outcome)
      returns (via: Acquire, r: Result<Connection, Error>)
      ensures via == (if isPostgres then PoolConnect else PoolGetConnection)
      ensures connectError.Some? ==> r == Err(connectError.value)
      ensures connectError.None? ==>
        && r.Ok? && fresh(r.value) && r.value.calls == [] && r.value.answer == answer
        && r.value.dialect == (if isPostgres then Postgres else MySql)
    {
      via := if isPostgres then PoolConnect else PoolGetConnection;
      if connectError.Some? {
        return via, Err(connectError.value);
      }
      var conn := new Connection(if isPostgres then Postgres else MySql, answer);
      r := Ok(conn);
    }
  }
}
