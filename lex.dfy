/** Code-point order on strings: a Dafny `char` is a Unicode scalar value, so strings compare
    character by character on code points. This is SQLite's BINARY collation in `ORDER BY`
    (bytewise on UTF-8, which keeps code-point order). It is also the order of JavaScript's
    default `Array.prototype.sort` and of `<` on two strings, which compare UTF-16 code units,
    for every pair of strings except where a character above U+FFFF meets one in
    U+E000-U+FFFF at the first difference. */
module Lex {

  /** `a` sorts before `b` or equals it. */
  predicate StrLe(a: string, b: string)
    decreases |a|
  {
    if a == [] then true
    else if b == [] then false
    else if a[0] != b[0] then a[0] < b[0]
    else StrLe(a[1..], b[1..])
  }

  /** JavaScript's `a < b` on two strings. */
  predicate StrLess(a: string, b: string) {
    StrLe(a, b) && a != b
  }

  lemma {:induction false} StrLeRefl(a: string)
    ensures StrLe(a, a)
    decreases |a|
  {
    if a != [] { StrLeRefl(a[1..]); }
  }

  lemma {:induction false} StrLeTotal(a: string, b: string)
    ensures StrLe(a, b) || StrLe(b, a)
    decreases |a|
  {
    if a != [] && b != [] && a[0] == b[0] { StrLeTotal(a[1..], b[1..]); }
  }

  lemma {:induction false} StrLeTrans(a: string, b: string, c: string)
    requires StrLe(a, b) && StrLe(b, c)
    ensures StrLe(a, c)
    decreases |a|
  {
    if a != [] && b != [] && c != [] && a[0] == b[0] && b[0] == c[0] {
      StrLeTrans(a[1..], b[1..], c[1..]);
    }
  }

  lemma {:induction false} StrLeAntisym(a: string, b: string)
    requires StrLe(a, b) && StrLe(b, a)
    ensures a == b
    decreases |a|
  {
    if a != [] && b != [] {
      StrLeAntisym(a[1..], b[1..]);
      assert a == [a[0]] + a[1..] && b == [b[0]] + b[1..];
    }
  }

  /** A prefix sorts no later than the string it starts. */
  lemma {:induction false} PrefixStrLe(a: string, b: string)
    requires |a| <= |b| && a == b[..|a|]
    ensures StrLe(a, b)
    decreases |a|
  {
    if a != [] {
      assert a[1..] == b[1..][..|a| - 1];
      PrefixStrLe(a[1..], b[1..]);
    }
  }
}
