/** The JavaScript values the controllers and scripts pass around, and the
    built-in conversions they apply to them (`String`, `parseInt`, `Number`,
    truthiness). */
module JsValues {
  import opened Text

  datatype Option<+T> = None | Some(value: T)

  datatype Result<+T, +E> = Ok(value: T) | Err(error: E)

  /** A JavaScript value as far as this code base uses one: request fields,
      SQL parameters and column values. Numbers are integers here. */
  datatype Value = Undefined | Null | Bool(b: bool) | Num(n: int) | Str(s: string)

  /** What `if (v)`, `!v` and `v || d` test. */
  predicate Truthy(v: Value)
  {
    match v
    case Undefined => false
    case Null => false
    case Bool(b) => b
    case Num(n) => n != 0
    case Str(s) => s != ""
  }

  /** A thrown error: its `code` (empty when the error has none, as for a
      TypeError) and its `message`. */
  datatype Error = Error(code: string, message: string)

  /** A result row: column name to value. */
  type Row = map<string, Value>

  /** The driver's answer to one statement: the rows, or the error it throws. */
  type Outcome = Result<seq<Row>, Error>

  /** `row[name]`, which is `undefined` for a missing column. */
  function Column(row: Row, name: string): Value
  {
    if name in row then row[name] else Undefined
  }

  /** `String(v)`, which is also the property key `obj[v]` uses. */
  function ToPropertyKey(v: Value): (k: string)
    ensures v.Str? ==> k == v.s
    ensures v.Num? && v.n >= 0 ==> AllDigits(k) && DigitsValue(k) == v.n && (|k| > 1 ==> k[0] != '0')
    ensures v.Num? && v.n < 0 ==>
      && |k| > 1 && k[0] == '-' && AllDigits(k[1..]) && DigitsValue(k[1..]) == -v.n
      && (|k| > 2 ==> k[1] != '0')
  {
    match v
    case Undefined => "undefined"
    case Null => "null"
    case Bool(b) => if b then "true" else "false"
    case Num(n) =>
      if n >= 0 then DecimalRoundTrip(n); Decimal(n)
      else DecimalRoundTrip(-n); assert ("-" + Decimal(-n))[1..] == Decimal(-n); "-" + Decimal(-n)
    case Str(s) => s
  }

  function Signed(negative: bool, n: nat): int
  {
    if negative then -(n as int) else n
  }

  predicate IsHexDigit(c: char)
  {
    IsDigit(c) || 'a' <= c <= 'f' || 'A' <= c <= 'F'
  }

  function HexDigitValue(c: char): nat
    requires IsHexDigit(c)
  {
    if IsDigit(c) then DigitValue(c)
    else if 'a' <= c <= 'f' then c as int - 'a' as int + 10
    else c as int - 'A' as int + 10
  }

  /** The longest prefix of `s` made of hexadecimal digits. */
  function HexPrefix(s: string): (r: string)
    ensures |r| <= |s| && forall i | 0 <= i < |r| :: IsHexDigit(r[i])
    decreases |s|
  {
    if s != [] && IsHexDigit(s[0]) then [s[0]] + HexPrefix(s[1..]) else []
  }

  function HexValue(s: string): nat
    requires forall i | 0 <= i < |s| :: IsHexDigit(s[i])
    decreases |s|
  {
    if s == [] then 0 else 16 * HexValue(s[..|s| - 1]) + HexDigitValue(s[|s| - 1])
  }

  /** The digits part of `parseInt`, after white space and sign: `0x`/`0X`
      selects base 16, and the longest run of digits is read. */
  function ParseUnsigned(u: string): Option<nat>
  {
    if |u| >= 2 && u[0] == '0' && (u[1] == 'x' || u[1] == 'X') then
      var h := HexPrefix(u[2..]);
      if h == [] then None else Some(HexValue(h))
    else
      var d := DigitPrefix(u);
      if d == [] then None else Some(DigitsValue(d))
  }

  /** `parseInt(s)` without a radix: leading white space is skipped, then an
      optional sign, then the digits; whatever follows them is ignored.
      `None` stands for NaN (no digit at all). */
  function ParseInt(s: string): (r: Option<int>)
  {
    var t := TrimStart(s);
    var negative := t != [] && t[0] == '-';
    var u := if t != [] && (t[0] == '-' || t[0] == '+') then t[1..] else t;
    match ParseUnsigned(u)
    case None => None
    case Some(n) => Some(Signed(negative, n))
  }

  lemma ParseUnsignedDecimal(n: nat)
    ensures ParseUnsigned(Decimal(n)) == Some(n)
  {
    var d := Decimal(n);
    DecimalRoundTrip(n);
    DigitPrefixOf(d, []);
    assert d + [] == d;
  }

  lemma ParseIntUnsigned(s: string, n: nat)
    requires s != [] && IsDigit(s[0]) && ParseUnsigned(s) == Some(n)
    ensures ParseInt(s) == Some(n)
  {
    DigitIsNotSpace(s[0]);
    var t := TrimStart(s);
    assert t == s;
    assert t[0] != '-' && t[0] != '+';
  }

  lemma ParseIntMinus(s: string, n: nat)
    requires s != [] && IsDigit(s[0]) && ParseUnsigned(s) == Some(n)
    ensures ParseInt("-" + s) == Some(-(n as int))
  {
    var t := "-" + s;
    assert t[0] == '-' && !IsSpace(t[0]);
    assert LeadingSpace(t) == 0;
    assert TrimStart(t) == t;
    assert t[1..] == s;
  }

  /** `parseInt` reads back what `String` wrote for any integer. */
  lemma ParseIntDecimal(n: int)
    ensures ParseInt(ToPropertyKey(Num(n))) == Some(n)
  {
    if n >= 0 {
      ParseUnsignedDecimal(n);
      ParseIntUnsigned(Decimal(n), n);
    } else {
      ParseUnsignedDecimal(-n);
      ParseIntMinus(Decimal(-n), -n);
    }
  }

  /** `parseInt` of a text without any digit is NaN. */
  lemma ParseIntWithoutDigits(s: string)
    requires forall i | 0 <= i < |s| :: !IsDigit(s[i])
    ensures ParseInt(s) == None
  {
    var t := TrimStart(s);
    var u := if t != [] && (t[0] == '-' || t[0] == '+') then t[1..] else t;
    assert forall i | 0 <= i < |u| :: u[i] == s[|s| - |u| + i];
    assert DigitPrefix(u) == [];
  }

  /** `Number(v)` for the spellings this code base meets: integers with an
      optional sign around white space; the empty text is 0. `None` stands
      for NaN, which is also the answer for the spellings not modelled
      (hexadecimal, fractions, exponents, `Infinity`). */
  function ToNumber(v: Value): (r: Option<int>)
    ensures v.Num? ==> r == Some(v.n)
    ensures v.Str? && Trim(v.s) == "" ==> r == Some(0)
  {
    match v
    case Undefined => None
    case Null => Some(0)
    case Bool(b) => Some(if b then 1 else 0)
    case Num(n) => Some(n)
    case Str(s) =>
      var t := Trim(s);
      if t == [] then Some(0)
      else
        var negative := t[0] == '-';
        var u := if t[0] == '-' || t[0] == '+' then t[1..] else t;
        if u != [] && AllDigits(u) then Some(Signed(negative, DigitsValue(u))) else None
  }

  /** `Number` reads back the decimal text of a natural number. */
  lemma ToNumberDecimal(n: nat)
    ensures ToNumber(Str(Decimal(n))) == Some(n)
  {
    var d := Decimal(n);
    DecimalRoundTrip(n);
    DigitIsNotSpace(d[0]);
    DigitIsNotSpace(d[|d| - 1]);
    TrimUnchanged(d);
  }
}
