/** The JavaScript values that request bodies and database rows carry, and the coercions the
    server code applies to them: `Number(...)`, `String(...)`, truthiness, `<`, `<=` and `+`, and
    the string conversion the request validators apply before every built-in check. */
module JsValues {
  import opened Wrappers
  import opened Lex

  /** A value as a route handler sees it. Numbers are integers (amounts in whole naira);
      `Obj` is any object and carries the text `JSON.stringify` gives for it. */
  datatype Value = Undefined | Null | Bool(b: bool) | Num(n: int) | NaN | Str(s: string) | Obj(json: string)

  /** White space and line terminators: what `trim`, `Number` and the regular-expression class
      `\s` treat as blank. */
  predicate IsSpace(c: char) {
    c == ' ' || c == '\t' || c == '\n' || c == '\U{000B}' || c == '\U{000C}' || c == '\r'
    || c == '\U{00A0}' || c == '\U{1680}' || ('\U{2000}' <= c <= '\U{200A}')
    || c == '\U{2028}' || c == '\U{2029}' || c == '\U{202F}' || c == '\U{205F}'
    || c == '\U{3000}' || c == '\U{FEFF}'
  }

  predicate AllSpace(s: string) {
    forall i | 0 <= i < |s| :: IsSpace(s[i])
  }

  function TrimStart(s: string): (r: string)
    ensures |r| <= |s| && r == s[|s| - |r|..]
    ensures AllSpace(s[..|s| - |r|])
    ensures r == [] || !IsSpace(r[0])
  {
    if s != [] && IsSpace(s[0]) then TrimStart(s[1..]) else s
  }

  function TrimEnd(s: string): (r: string)
    ensures |r| <= |s| && r == s[..|r|]
    ensures AllSpace(s[|r|..])
    ensures r == [] || !IsSpace(r[|r| - 1])
  {
    if s != [] && IsSpace(s[|s| - 1]) then TrimEnd(s[..|s| - 1]) else s
  }

  /** `String.prototype.trim`. */
  function Trim(s: string): string {
    TrimEnd(TrimStart(s))
  }

  lemma {:induction false} TrimStartOfBlank(s: string)
    requires AllSpace(s)
    ensures TrimStart(s) == []
  {
    if s != [] {
      assert AllSpace(s[1..]) by {
        forall i | 0 <= i < |s| - 1 ensures IsSpace(s[1..][i]) { assert s[1..][i] == s[i + 1]; }
      }
      TrimStartOfBlank(s[1..]);
    }
  }

  lemma AllSpaceConcat(a: string, b: string)
    requires AllSpace(a) && AllSpace(b)
    ensures AllSpace(a + b)
  {
    forall i | 0 <= i < |a + b| ensures IsSpace((a + b)[i]) {
      if i < |a| { assert (a + b)[i] == a[i]; } else { assert (a + b)[i] == b[i - |a|]; }
    }
  }

  /** A string trims to the empty string exactly when every character of it is blank. */
  lemma TrimEmptyIffBlank(s: string)
    ensures Trim(s) == [] <==> AllSpace(s)
  {
    var t := TrimStart(s);
    if AllSpace(s) {
      TrimStartOfBlank(s);
    }
    if Trim(s) == [] {
      assert t[0..] == t;
      assert s == s[..|s| - |t|] + t;
      AllSpaceConcat(s[..|s| - |t|], t);
    }
  }

  predicate IsDigit(c: char) {
    '0' <= c <= '9'
  }

  predicate AllDigits(s: string) {
    forall i | 0 <= i < |s| :: IsDigit(s[i])
  }

  function DigitValue(c: char): nat
    requires IsDigit(c)
  {
    c as int - '0' as int
  }

  function DigitChar(d: nat): (c: char)
    requires d < 10
    ensures IsDigit(c) && DigitValue(c) == d
  {
    ('0' as int + d) as char
  }

  /** The number a string of decimal digits spells. */
  function DigitsValue(s: string): nat
    requires AllDigits(s)
    decreases |s|
  {
    if s == [] then 0 else DigitsValue(s[..|s| - 1]) * 10 + DigitValue(s[|s| - 1])
  }

  /** Decimal notation of a natural number, without leading zeros. */
  function NatToString(n: nat): (r: string)
    ensures |r| > 0 && AllDigits(r)
    decreases n
  {
    if n < 10 then [DigitChar(n)] else NatToString(n / 10) + [DigitChar(n % 10)]
  }

  lemma {:induction false} NatToStringValue(n: nat)
    ensures DigitsValue(NatToString(n)) == n
    decreases n
  {
    if n >= 10 {
      NatToStringValue(n / 10);
      var s := NatToString(n);
      assert s[..|s| - 1] == NatToString(n / 10);
    }
  }

  lemma DigitsValueSnoc(s: string, c: char)
    requires AllDigits(s) && IsDigit(c)
    ensures DigitsValue(s + [c]) == DigitsValue(s) * 10 + DigitValue(c)
  {
    assert (s + [c])[..|s|] == s;
  }

  /** `String(n)` for an integer. */
  function IntToString(n: int): string {
    if n < 0 then "-" + NatToString(-n) else NatToString(n)
  }

  /** `String(n)` starts with a minus sign or a digit. */
  lemma NumberTextStartsNumerically(n: int)
    ensures |IntToString(n)| > 0 && (IntToString(n)[0] == '-' || IsDigit(IntToString(n)[0]))
  {
  }

  predicate HasSign(s: string) {
    |s| > 0 && (s[0] == '+' || s[0] == '-')
  }

  function Unsigned(s: string): string {
    if HasSign(s) then s[1..] else s
  }

  /** An optional sign followed by one or more decimal digits: the strings the validators'
      `isInt` accepts, and the integer ones among those `isFloat` and `Number` accept. */
  predicate IsIntLiteral(s: string) {
    var u := Unsigned(s);
    |u| > 0 && AllDigits(u)
  }

  function IntLiteralValue(s: string): int
    requires IsIntLiteral(s)
  {
    var m := DigitsValue(Unsigned(s)) as int;
    if s[0] == '-' then -m else m
  }

  /** `String(n)` is an integer literal that reads back as `n`. */
  lemma IntToStringRoundTrip(n: int)
    ensures IsIntLiteral(IntToString(n))
    ensures IntLiteralValue(IntToString(n)) == n
  {
    if n < 0 {
      NatToStringValue(-n);
      assert Unsigned(IntToString(n)) == NatToString(-n);
    } else {
      NatToStringValue(n);
      assert !HasSign(IntToString(n));
    }
  }

  /** `Number(s)` on a string: blank is 0, a trimmed integer literal is its value, anything else
      is `NaN` (`None`). */
  function StringToNumber(s: string): Option<int> {
    var t := Trim(s);
    if t == [] then Some(0)
    else if IsIntLiteral(t) then Some(IntLiteralValue(t))
    else None
  }

  /** The integer the request validators `isInt` and `isFloat` read from a value: its
      validator string when that is an integer literal. */
  function Numeral(v: Value): Option<int> {
    var s := ValidatorString(v);
    if IsIntLiteral(s) then Some(IntLiteralValue(s)) else None
  }

  /** `Number(v)`; `None` is `NaN`. */
  function ToNumber(v: Value): Option<int> {
    match v
    case Undefined => None
    case Null => Some(0)
    case Bool(b) => Some(if b then 1 else 0)
    case Num(n) => Some(n)
    case NaN => None
    case Str(s) => StringToNumber(s)
    case Obj(_) => None
  }

  /** `Number(v)` as a JavaScript value. */
  function NumberValue(v: Value): (r: Value)
    ensures r.Num? || r.NaN?
  {
    match ToNumber(v)
    case Some(n) => Num(n)
    case None => NaN
  }

  /** An integer literal has no blank at either end, so `trim` leaves it alone. */
  lemma TrimOfLiteral(s: string)
    requires IsIntLiteral(s)
    ensures Trim(s) == s
  {
    assert !IsSpace(s[0]) && !IsSpace(s[|s| - 1]);
  }

  /** Digits, a plus sign and more digits, such as "95000+6000", are not a number. */
  lemma InnerSignIsNaN(u: string, v: string)
    requires |u| > 0 && AllDigits(u) && |v| > 0 && AllDigits(v)
    ensures StringToNumber(u + "+" + v) == None
  {
    var t := u + "+" + v;
    assert t[0] == u[0] && IsDigit(t[0]);
    assert t[|t| - 1] == v[|v| - 1] && IsDigit(t[|t| - 1]);
    DigitIsNotSpace(t[0]);
    DigitIsNotSpace(t[|t| - 1]);
    assert TrimStart(t) == t;
    assert TrimEnd(t) == t;
    assert !HasSign(t) && Unsigned(t) == t;
    assert t[|u|] == '+';
    assert !AllDigits(t);
  }

  lemma DigitIsNotSpace(c: char)
    requires IsDigit(c)
    ensures !IsSpace(c)
  {
  }

  /** Whatever the validators read as a numeral, `Number` reads as the same integer. */
  lemma NumeralIsNumber(v: Value)
    requires Numeral(v).Some?
    ensures ToNumber(v) == Numeral(v)
  {
    match v
    case Num(n) => IntToStringRoundTrip(n);
    case Str(s) => TrimOfLiteral(s);
    case _ =>
  }

  // ---------------------------------------------------------------------------------------
  // `parseInt`.

  /** The longest prefix made of digits of the radix. */
  function DigitRun(s: string, hex: bool): (r: string)
    ensures forall i | 0 <= i < |r| :: RadixDigit(r[i], hex).Some?
  {
    if s == [] || RadixDigit(s[0], hex).None? then [] else [s[0]] + DigitRun(s[1..], hex)
  }

  function RadixDigit(c: char, hex: bool): Option<nat> {
    if hex then HexValue(c) else if IsDigit(c) then Some(DigitValue(c)) else None
  }

  function RunValue(s: string, hex: bool): nat
    requires forall i | 0 <= i < |s| :: RadixDigit(s[i], hex).Some?
  {
    if s == [] then 0
    else RunValue(s[..|s| - 1], hex) * (if hex then 16 else 10) + RadixDigit(s[|s| - 1], hex).value
  }

  predicate HexPrefix(s: string) {
    |s| >= 2 && s[0] == '0' && (s[1] == 'x' || s[1] == 'X')
  }

  /** The text after the leading blanks. */
  function SkipBlanks(s: string): string {
    if s != [] && IsSpace(s[0]) then SkipBlanks(s[1..]) else s
  }

  /** `parseInt(s)`: leading blanks are skipped, a sign is read, `0x` selects base 16, and the
      longest run of digits that follows is the number; `None` (NaN) when that run is empty. */
  function ParseInt(s: string): (r: Option<int>)
  {
    var t := SkipBlanks(s);
    var negative := |t| > 0 && t[0] == '-';
    var u := if |t| > 0 && (t[0] == '-' || t[0] == '+') then t[1..] else t;
    var hex := HexPrefix(u);
    var digits := DigitRun(if hex then u[2..] else u, hex);
    if digits == [] then None
    else
      var n: int := RunValue(digits, hex);
      Some(if negative then -n else n)
  }

  lemma {:induction false} RunValueIsDigitsValue(s: string)
    requires AllDigits(s)
    ensures forall i | 0 <= i < |s| :: RadixDigit(s[i], false).Some?
    ensures RunValue(s, false) == DigitsValue(s)
  {
    if s != [] {
      RunValueIsDigitsValue(s[..|s| - 1]);
    }
  }

  lemma {:induction false} DigitRunOfDigits(d: string, rest: string)
    requires AllDigits(d) && (rest == [] || !IsDigit(rest[0]))
    ensures DigitRun(d + rest, false) == d
  {
    if d != [] {
      assert (d + rest)[1..] == d[1..] + rest;
      DigitRunOfDigits(d[1..], rest);
    } else if rest != [] {
      assert RadixDigit(rest[0], false).None?;
    }
  }

  /** `parseInt` of a run of decimal digits is their value, leading zeros included. */
  lemma ParseDigits(d: string)
    requires |d| > 0 && AllDigits(d)
    ensures ParseInt(d) == Some(DigitsValue(d))
  {
    assert !IsSpace(d[0]) by { DigitIsNotSpace(d[0]); }
    assert SkipBlanks(d) == d;
    assert !HexPrefix(d);
    DigitRunOfDigits(d, []);
    assert d + [] == d;
    RunValueIsDigitsValue(d);
  }


  /** `String(v)`, as `+` uses it when one side is a string. */
  function JsString(v: Value): string {
    match v
    case Undefined => "undefined"
    case Null => "null"
    case Bool(b) => if b then "true" else "false"
    case Num(n) => IntToString(n)
    case NaN => "NaN"
    case Str(s) => s
    case Obj(_) => "[object Object]"
  }

  /** The string every built-in request validator tests: `null`, `undefined` and `NaN` become
      the empty string, everything else `String(v)`. */
  function ValidatorString(v: Value): string {
    match v
    case Undefined => ""
    case Null => ""
    case NaN => ""
    case _ => JsString(v)
  }

  predicate Truthy(v: Value) {
    match v
    case Undefined => false
    case Null => false
    case Bool(b) => b
    case Num(n) => n != 0
    case NaN => false
    case Str(s) => s != []
    case Obj(_) => true
  }

  function ToPrimitive(v: Value): Value {
    if v.Obj? then Str("[object Object]") else v
  }

  /** JavaScript's `a < b`: code-point order on two strings, numeric order otherwise, and
      false whenever a side is `NaN`. */
  predicate Less(a: Value, b: Value) {
    var pa, pb := ToPrimitive(a), ToPrimitive(b);
    if pa.Str? && pb.Str? then StrLess(pa.s, pb.s)
    else ToNumber(pa).Some? && ToNumber(pb).Some? && ToNumber(pa).value < ToNumber(pb).value
  }

  /** JavaScript's `a <= b`. */
  predicate LessEq(a: Value, b: Value) {
    var pa, pb := ToPrimitive(a), ToPrimitive(b);
    if pa.Str? && pb.Str? then StrLe(pa.s, pb.s)
    else ToNumber(pa).Some? && ToNumber(pb).Some? && ToNumber(pa).value <= ToNumber(pb).value
  }

  /** JavaScript's `a + b`: concatenation when a side is a string, numeric addition otherwise. */
  function Add(a: Value, b: Value): Value {
    var pa, pb := ToPrimitive(a), ToPrimitive(b);
    if pa.Str? || pb.Str? then Str(JsString(pa) + JsString(pb))
    else if ToNumber(pa).Some? && ToNumber(pb).Some? then Num(ToNumber(pa).value + ToNumber(pb).value)
    else NaN
  }

  /** Two numbers compare and add as integers. */
  lemma NumbersCompareAsIntegers(x: int, y: int)
    ensures Less(Num(x), Num(y)) <==> x < y
    ensures LessEq(Num(x), Num(y)) <==> x <= y
    ensures Add(Num(x), Num(y)) == Num(x + y)
  {
  }

  // ---------------------------------------------------------------------------------------
  // JSON text.

  /** `JSON.stringify(v)`; `None` is the `undefined` it returns for `undefined`. An object is
      its own JSON text. */
  function Stringify(v: Value): (r: Option<string>)
    ensures r.None? <==> v.Undefined?
    ensures v.Str? ==> r == Some(Quote(v.s))
  {
    match v
    case Undefined => None
    case Null => Some("null")
    case NaN => Some("null")
    case Bool(b) => Some(if b then "true" else "false")
    case Num(n) => Some(IntToString(n))
    case Str(s) => Some(Quote(s))
    case Obj(json) => Some(json)
  }

  /** A JSON string literal. */
  function Quote(s: string): string {
    "\"" + Escape(s) + "\""
  }

  function Escape(s: string): string
    decreases |s|
  {
    if s == [] then [] else EscapeChar(s[0]) + Escape(s[1..])
  }

  function HexDigit(d: nat): (c: char)
    requires d < 16
  {
    if d < 10 then DigitChar(d) else ('a' as int + d - 10) as char
  }

  /** The escape of one character: quote, backslash and the control characters get one;
      `\b \t \n \f \r` have short forms and the other control characters are written
      `\u00` and two lower-case hex digits. */
  function EscapeChar(c: char): (r: string)
    ensures |r| > 0
  {
    if c == '"' then "\\\""
    else if c == '\\' then "\\\\"
    else if c == '\U{0008}' then "\\b"
    else if c == '\t' then "\\t"
    else if c == '\n' then "\\n"
    else if c == '\U{000C}' then "\\f"
    else if c == '\r' then "\\r"
    else if c < ' ' then "\\u00" + [HexDigit(c as int / 16), HexDigit(c as int % 16)]
    else [c]
  }

  function HexValue(c: char): Option<nat> {
    if '0' <= c <= '9' then Some(c as int - '0' as int)
    else if 'a' <= c <= 'f' then Some(c as int - 'a' as int + 10)
    else if 'A' <= c <= 'F' then Some(c as int - 'A' as int + 10)
    else None
  }

  /** The character a `\uXXXX` escape names; `None` for a bad digit or a lone surrogate. */
  function UnicodeEscape(h: string): Option<char>
    requires |h| == 4
  {
    var a, b, c, d := HexValue(h[0]), HexValue(h[1]), HexValue(h[2]), HexValue(h[3]);
    if a.None? || b.None? || c.None? || d.None? then None
    else
      var n := ((a.value * 16 + b.value) * 16 + c.value) * 16 + d.value;
      if n < 0xD800 || (0xE000 <= n < 0x11_0000) then Some(n as char) else None
  }

  /** The character a two-character escape `\x` names. */
  function ShortEscape(x: char): Option<char> {
    if x == '"' then Some('"') else if x == '\\' then Some('\\') else if x == '/' then Some('/')
    else if x == 'b' then Some('\U{0008}') else if x == 't' then Some('\t') else if x == 'n' then Some('\n')
    else if x == 'f' then Some('\U{000C}') else if x == 'r' then Some('\r')
    else None
  }

  function Prepend(c: char, rest: Option<string>): Option<string> {
    if rest.Some? then Some([c] + rest.value) else None
  }

  /** The characters the body of a JSON string literal stands for; `None` when it is not
      the body of one (a bare quote or control character, or a bad escape). */
  function Unescape(t: string): Option<string>
    decreases |t|
  {
    if t == [] then Some([])
    else if t[0] == '\\' then
      if |t| >= 2 && ShortEscape(t[1]).Some? then Prepend(ShortEscape(t[1]).value, Unescape(t[2..]))
      else if |t| >= 6 && t[1] == 'u' && UnicodeEscape(t[2..6]).Some? then
        Prepend(UnicodeEscape(t[2..6]).value, Unescape(t[6..]))
      else None
    else if t[0] == '"' || t[0] < ' ' then None
    else Prepend(t[0], Unescape(t[1..]))
  }

  /** `JSON.parse` restricted to string literals. */
  function ParseString(t: string): Option<string> {
    if |t| >= 2 && t[0] == '"' && t[|t| - 1] == '"' then Unescape(t[1..|t| - 1]) else None
  }

  predicate HasShortEscape(c: char) {
    c == '"' || c == '\\' || c == '\U{0008}' || c == '\t' || c == '\n' || c == '\U{000C}' || c == '\r'
  }

  lemma UnescapeShort(c: char, rest: string)
    requires HasShortEscape(c)
    ensures Unescape(EscapeChar(c) + rest) == Prepend(c, Unescape(rest))
  {
    var t := EscapeChar(c) + rest;
    assert |EscapeChar(c)| == 2 && t[0] == '\\';
    assert ShortEscape(t[1]) == Some(c);
    assert t[2..] == rest;
  }

  lemma UnescapeHex(c: char, rest: string)
    requires c < ' ' && !HasShortEscape(c)
    ensures Unescape(EscapeChar(c) + rest) == Prepend(c, Unescape(rest))
  {
    var t := EscapeChar(c) + rest;
    var hi, lo := c as int / 16, c as int % 16;
    assert EscapeChar(c) == "\\u00" + [HexDigit(hi), HexDigit(lo)];
    assert t[0] == '\\' && t[1] == 'u' && t[6..] == rest;
    assert ShortEscape(t[1]).None?;
    assert t[2..6] == ['0', '0', HexDigit(hi), HexDigit(lo)];
    assert HexValue(HexDigit(hi)) == Some(hi);
    assert HexValue(HexDigit(lo)) == Some(lo);
    assert UnicodeEscape(t[2..6]) == Some(c);
  }

  lemma UnescapePlain(c: char, rest: string)
    requires c >= ' ' && !HasShortEscape(c)
    ensures Unescape(EscapeChar(c) + rest) == Prepend(c, Unescape(rest))
  {
    var t := EscapeChar(c) + rest;
    assert EscapeChar(c) == [c];
    assert t[0] == c && t[1..] == rest;
  }

  /** Reading one escaped character back gives the character. */
  lemma UnescapeChar(c: char, rest: string)
    ensures Unescape(EscapeChar(c) + rest) == Prepend(c, Unescape(rest))
  {
    if HasShortEscape(c) {
      UnescapeShort(c, rest);
    } else if c < ' ' {
      UnescapeHex(c, rest);
    } else {
      UnescapePlain(c, rest);
    }
  }

  /** Escaping is undone by reading the escapes back. */
  lemma {:induction false} UnescapeEscape(s: string)
    ensures Unescape(Escape(s)) == Some(s)
    decreases |s|
  {
    if s != [] {
      UnescapeEscape(s[1..]);
      UnescapeChar(s[0], Escape(s[1..]));
      assert [s[0]] + s[1..] == s;
    }
  }

  /** A string serialised by `JSON.stringify` parses back to itself. */
  lemma StringifyParse(s: string)
    ensures ParseString(Quote(s)) == Some(s)
  {
    var t := Quote(s);
    assert t[1..|t| - 1] == Escape(s);
    UnescapeEscape(s);
  }

  /** `n.toLocaleString()` in the en-US locale: digits grouped by three with commas. */
  function LocaleString(n: int): string {
    if n < 0 then "-" + GroupThousands(NatToString(-n)) else GroupThousands(NatToString(n))
  }

  function GroupThousands(d: string): string
    decreases |d|
  {
    if |d| <= 3 then d else GroupThousands(d[..|d| - 3]) + "," + d[|d| - 3..]
  }
}
