/** SQLite values as the route handlers see them: how the sqlite3 driver binds JavaScript
    parameters, the column affinities of the schema, and the aggregates the queries use. */
module Sql {
  import opened Wrappers
  import opened JsValues
  import opened Lex

  /** A stored value. REAL is absent: amounts are whole minor units throughout. */
  datatype SqlValue = SqlNull | SqlInt(i: int) | SqlText(t: string)

  /** SQLite's order on values: NULL first, then numbers by value, then text in binary
      order. */
  predicate Le(a: SqlValue, b: SqlValue) {
    match a
    case SqlNull => true
    case SqlInt(x) => b.SqlText? || (b.SqlInt? && x <= b.i)
    case SqlText(x) => b.SqlText? && StrLe(x, b.t)
  }

  lemma LeTotal(a: SqlValue, b: SqlValue)
    ensures Le(a, b) || Le(b, a)
  {
    if a.SqlText? && b.SqlText? { StrLeTotal(a.t, b.t); }
  }

  lemma LeTrans(a: SqlValue, b: SqlValue, c: SqlValue)
    requires Le(a, b) && Le(b, c)
    ensures Le(a, c)
  {
    if a.SqlText? { StrLeTrans(a.t, b.t, c.t); }
  }

  lemma LeAntisym(a: SqlValue, b: SqlValue)
    requires Le(a, b) && Le(b, a)
    ensures a == b
  {
    if a.SqlText? { StrLeAntisym(a.t, b.t); }
  }

  /** The driver's binding of a JavaScript parameter: `undefined`, `null` and `NaN` bind as
      NULL, booleans as 1/0, objects through their string form. */
  function Bind(v: Value): (r: SqlValue)
    ensures r.SqlNull? <==> (v.Undefined? || v.Null? || v.NaN?)
    ensures v.Num? ==> r == SqlInt(v.n)
    ensures v.Str? ==> r == SqlText(v.s)
  {
    match v
    case Undefined => SqlNull
    case Null => SqlNull
    case NaN => SqlNull
    case Bool(b) => SqlInt(if b then 1 else 0)
    case Num(n) => SqlInt(n)
    case Str(s) => SqlText(s)
    case Obj(_) => SqlText("[object Object]")
  }

  /** INTEGER/NUMERIC column affinity, the same when a text parameter meets such a column in
      a comparison: text that reads as an integral number is that integer, any other value
      stays as it is. */
  function NumericAffinity(v: SqlValue): (r: SqlValue)
    ensures r.SqlNull? <==> v.SqlNull?
    ensures r.SqlText? ==> r == v
    ensures v.SqlText? && IsIntLiteral(v.t) ==> r == SqlInt(IntLiteralValue(v.t))
  {
    if v.SqlText? && IntegralText(v.t).Some? then SqlInt(IntegralText(v.t).value) else v
  }

  /** TEXT column affinity: numbers are stored as their decimal text. */
  function TextAffinity(v: SqlValue): (r: SqlValue)
    ensures r.SqlNull? <==> v.SqlNull?
    ensures !r.SqlInt?
  {
    if v.SqlInt? then SqlText(IntToString(v.i)) else v
  }

  /** A stored integer read back under INTEGER affinity is unchanged; a number stored under
      TEXT affinity and read back under INTEGER affinity is the same number. */
  lemma AffinityRoundTrip(n: int)
    ensures NumericAffinity(SqlInt(n)) == SqlInt(n)
    ensures NumericAffinity(TextAffinity(SqlInt(n))) == SqlInt(n)
  {
    IntToStringRoundTrip(n);
  }

  /** A column value as the driver hands it back to JavaScript. */
  function ToJs(v: SqlValue): (r: Value)
    ensures r.Null? <==> v.SqlNull?
  {
    match v
    case SqlNull => Null
    case SqlInt(i) => Num(i)
    case SqlText(t) => Str(t)
  }

  /** `COALESCE(a, b)`. */
  function Coalesce(a: SqlValue, b: SqlValue): (r: SqlValue)
    ensures a != SqlNull ==> r == a
    ensures a == SqlNull ==> r == b
  {
    if a != SqlNull then a else b
  }

  /** The value an arithmetic operator or `SUM` takes from a stored value: an integer is
      itself, NULL contributes nothing, text is read as its longest leading integer. */
  function Arith(v: SqlValue): int {
    match v
    case SqlNull => 0
    case SqlInt(i) => i
    case SqlText(t) => LeadingInt(t)
  }

  /** SQLite's numeric reading of text: leading spaces, an optional sign, then as many digits
      as follow; no digits read as 0. */
  function LeadingInt(t: string): int {
    var u := SkipBlanks(t);
    var neg := |u| > 0 && u[0] == '-';
    var body := if |u| > 0 && (u[0] == '-' || u[0] == '+') then u[1..] else u;
    var d := DigitsValue(DigitPrefix(body)) as int;
    if neg then -d else d
  }

  /** The blanks SQLite skips around numeric text: space, tab, line feed, vertical tab, form
      feed and carriage return. */
  predicate IsBlank(c: char) {
    c == ' ' || c == '\t' || c == '\n' || c == 11 as char || c == 12 as char || c == '\r'
  }

  function SkipBlanks(t: string): (r: string)
    ensures |r| <= |t|
  {
    if |t| > 0 && IsBlank(t[0]) then SkipBlanks(t[1..]) else t
  }

  /** `t` without its leading and trailing blanks. */
  function Trimmed(t: string): (r: string)
    ensures |r| <= |t|
    ensures r != [] ==> !IsBlank(r[0]) && !IsBlank(r[|r| - 1])
    decreases |t|
  {
    if t == [] then []
    else if IsBlank(t[0]) then Trimmed(t[1..])
    else if IsBlank(t[|t| - 1]) then Trimmed(t[..|t| - 1])
    else t
  }

  /** The number `mantissa * 10^exponent`. */
  datatype Decimal = Decimal(mantissa: int, exponent: int)

  function Pow10(k: nat): (r: nat)
    ensures r >= 1
  {
    if k == 0 then 1 else 10 * Pow10(k - 1)
  }

  /** An exponent suffix: nothing, or `e` or `E` followed by an optional sign and at least one
      digit. */
  function ExponentText(t: string): (r: Option<int>)
    ensures t == [] ==> r == Some(0)
  {
    if t == [] then Some(0)
    else if (t[0] == 'e' || t[0] == 'E') && IsIntLiteral(t[1..]) then Some(IntLiteralValue(t[1..]))
    else None
  }

  /** SQLite's numeric text once the blanks are gone: an optional sign; digits with an
      optional fraction after a `.`, at least one digit in all; an optional exponent. No other
      character may follow, so "0x1" or "1px" are no number. */
  function DecimalText(t: string): (r: Option<Decimal>)
  {
    var u := Unsigned(t);
    var whole := DigitPrefix(u);
    var rest := u[|whole|..];
    var frac := if rest != [] && rest[0] == '.' then DigitPrefix(rest[1..]) else [];
    var tail := if rest != [] && rest[0] == '.' then rest[1 + |frac|..] else rest;
    var e := ExponentText(tail);
    if |whole| + |frac| == 0 || e.None? then None
    else
      assert AllDigits(whole + frac);
      var m := DigitsValue(whole + frac) as int;
      Some(Decimal(if HasSign(t) && t[0] == '-' then -m else m, e.value - |frac|))
  }

  /** The integer a decimal names, when it names one. */
  function IntegralValue(d: Decimal): (r: Option<int>)
    ensures d.exponent >= 0 ==> r == Some(d.mantissa * Pow10(d.exponent))
    ensures d.exponent < 0 ==> (r.Some? <==> d.mantissa % Pow10(-d.exponent) == 0)
    ensures r.Some? && d.exponent < 0 ==> r.value * Pow10(-d.exponent) == d.mantissa
  {
    if d.exponent >= 0 then Some(d.mantissa * Pow10(d.exponent))
    else if d.mantissa % Pow10(-d.exponent) == 0 then Some(d.mantissa / Pow10(-d.exponent))
    else None
  }

  /** The integer a text reads as under numeric affinity: blanks around a decimal number are
      skipped, and the number must be integral. */
  function IntegralText(t: string): (r: Option<int>)
    ensures IsIntLiteral(t) ==> r == Some(IntLiteralValue(t))
  {
    if IsIntLiteral(t) then IntLiteralIntegral(t); IntegralTextOf(t)
    else IntegralTextOf(t)
  }

  function IntegralTextOf(t: string): Option<int> {
    var d := DecimalText(Trimmed(t));
    if d.Some? then IntegralValue(d.value) else None
  }

  /** An integer literal has no blank to trim, no fraction and no exponent. */
  lemma IntLiteralIntegral(t: string)
    requires IsIntLiteral(t)
    ensures IntegralTextOf(t) == Some(IntLiteralValue(t))
  {
    var u := Unsigned(t);
    assert t[|t| - 1] == u[|u| - 1];
    assert !IsBlank(t[0]) && !IsBlank(t[|t| - 1]);
    assert Trimmed(t) == t;
    DigitPrefixOfDigits(u);
    assert u[|u|..] == [] && u + [] == u;
    var m := DigitsValue(u) as int;
    assert DecimalText(t) == Some(Decimal(if HasSign(t) && t[0] == '-' then -m else m, 0));
  }

  /** Text that SQLite reads as an integer although JavaScript's `isInt` would not: a
      fraction of zeros, an exponent, or blanks around the digits. */
  lemma IntegralTextForms(one: string, expo: string, spaced: string)
    requires one == "1.0" && expo == "1e0" && spaced == " 1"
    ensures IntegralText(one) == Some(1) && IntegralText(expo) == Some(1) && IntegralText(spaced) == Some(1)
  {
    ZeroFractionIsOne(one);
    ExponentIsOne(expo);
    BlankIsOne(spaced);
  }

  lemma ZeroFractionIsOne(one: string)
    requires one == "1.0"
    ensures IntegralText(one) == Some(1)
  {
    assert Unsigned(one) == one && !IsDigit(one[1]) && !IsIntLiteral(one);
    assert !IsBlank(one[0]) && !IsBlank(one[2]) && Trimmed(one) == one;
    assert DigitPrefix(one) == "1" && one[1..] == ".0";
    assert DigitPrefix("0") == "0" && "1" + "0" == "10";
    DigitsValueSnoc("1", '0');
    assert DecimalText(one) == Some(Decimal(10, -1));
  }

  lemma ExponentIsOne(expo: string)
    requires expo == "1e0"
    ensures IntegralText(expo) == Some(1)
  {
    assert expo[1] == 'e' && !IsIntLiteral(expo);
    assert !IsBlank(expo[0]) && !IsBlank(expo[2]) && Trimmed(expo) == expo;
    assert Unsigned(expo) == expo && DigitPrefix(expo) == "1" && ExponentText("e0") == Some(0);
    assert DecimalText(expo) == Some(Decimal(1, 0));
  }

  lemma BlankIsOne(spaced: string)
    requires spaced == " 1"
    ensures IntegralText(spaced) == Some(1)
  {
    assert IsBlank(spaced[0]) && !IsIntLiteral(spaced) && Trimmed(spaced) == "1";
    IntLiteralIntegral("1");
  }

  /** Text that is no integral number stays text: a fraction, or a hexadecimal literal. */
  lemma NonIntegralTextForms(half: string, hex: string)
    requires half == "1.5" && hex == "0x1"
    ensures IntegralText(half).None? && IntegralText(hex).None?
  {
    HalfIsNoInteger(half);
    HexIsNoInteger(hex);
  }

  lemma HalfIsNoInteger(half: string)
    requires half == "1.5"
    ensures IntegralText(half).None?
  {
    assert half[1] == '.' && !IsIntLiteral(half);
    assert !IsBlank(half[0]) && !IsBlank(half[2]) && Trimmed(half) == half;
    assert Unsigned(half) == half && DigitPrefix(half) == "1" && half[1..] == ".5";
    assert DigitPrefix("5") == "5" && "1" + "5" == "15";
    DigitsValueSnoc("1", '5');
    assert DecimalText(half) == Some(Decimal(15, -1));
  }

  lemma HexIsNoInteger(hex: string)
    requires hex == "0x1"
    ensures IntegralText(hex).None?
  {
    assert hex[1] == 'x' && !IsIntLiteral(hex);
    assert !IsBlank(hex[0]) && !IsBlank(hex[2]) && Trimmed(hex) == hex;
    assert DigitPrefix(hex) == "0" && ExponentText("x1").None?;
  }

  function DigitPrefix(t: string): (r: string)
    ensures AllDigits(r) && |r| <= |t| && r == t[..|r|]
    ensures |r| < |t| ==> !IsDigit(t[|r|])
  {
    if |t| > 0 && IsDigit(t[0]) then [t[0]] + DigitPrefix(t[1..]) else []
  }

  /** An integer literal reads as its own value. */
  lemma LeadingIntOfLiteral(t: string)
    requires IsIntLiteral(t)
    ensures LeadingInt(t) == IntLiteralValue(t)
  {
    var body := Unsigned(t);
    assert SkipBlanks(t) == t;
    DigitPrefixOfDigits(body);
  }

  lemma {:induction false} DigitPrefixOfDigits(t: string)
    requires AllDigits(t)
    ensures DigitPrefix(t) == t
  {
    if |t| > 0 {
      DigitPrefixOfDigits(t[1..]);
    }
  }

  /** The non-NULL values of a column. */
  function NonNull(vs: seq<SqlValue>): (r: seq<SqlValue>)
    ensures |r| <= |vs|
    ensures forall i | 0 <= i < |r| :: !r[i].SqlNull?
    ensures (forall i | 0 <= i < |vs| :: vs[i].SqlNull?) <==> r == []
  {
    if vs == [] then []
    else if vs[0].SqlNull? then NonNull(vs[1..])
    else [vs[0]] + NonNull(vs[1..])
  }

  /** A column with no NULL keeps every value. */
  lemma {:induction false} NonNullKeepsAll(vs: seq<SqlValue>)
    requires forall i | 0 <= i < |vs| :: !vs[i].SqlNull?
    ensures NonNull(vs) == vs
  {
    if vs != [] {
      NonNullKeepsAll(vs[1..]);
    }
  }

  function Total(vs: seq<SqlValue>): int {
    if vs == [] then 0 else Arith(vs[0]) + Total(vs[1..])
  }

  lemma {:induction false} TotalAppend(a: seq<SqlValue>, b: seq<SqlValue>)
    ensures Total(a + b) == Total(a) + Total(b)
  {
    if a == [] {
      assert a + b == b;
    } else {
      assert (a + b)[1..] == a[1..] + b;
      TotalAppend(a[1..], b);
    }
  }

  /** `SUM(x)`: NULL over no non-NULL values, otherwise their total. */
  function Sum(vs: seq<SqlValue>): (r: SqlValue)
    ensures r.SqlNull? <==> NonNull(vs) == []
    ensures r.SqlInt? ==> r.i == Total(vs)
  {
    if NonNull(vs) == [] then SqlNull else SqlInt(Total(vs))
  }

  /** `COALESCE(SUM(x), 0)` is the plain total, 0 over no rows. */
  lemma CoalescedSum(vs: seq<SqlValue>)
    ensures Coalesce(Sum(vs), SqlInt(0)) == SqlInt(Total(vs))
  {
    if NonNull(vs) == [] {
      NullTotal(vs);
    }
  }

  lemma {:induction false} NullTotal(vs: seq<SqlValue>)
    requires forall i | 0 <= i < |vs| :: vs[i].SqlNull?
    ensures Total(vs) == 0
  {
    if vs != [] {
      NullTotal(vs[1..]);
    }
  }

  /** An exact quotient, for `AVG` and percentages; `ROUND` and floating point are not
      modelled. A NULL aggregate is `None`. */
  datatype Ratio = Ratio(num: int, den: int)

  /** `AVG(x)`: NULL over no non-NULL values, otherwise their total over their count. */
  function Avg(vs: seq<SqlValue>): (r: Option<Ratio>)
    ensures r.None? <==> NonNull(vs) == []
    ensures r.Some? ==> r.value.num == Total(vs) && r.value.den == |NonNull(vs)| > 0
  {
    var nn := NonNull(vs);
    if nn == [] then None else Some(Ratio(Total(vs), |nn|))
  }
}
