/** The few JavaScript value semantics the routes depend on: `Number(...)`,
    `parseInt(..., 10)`, truthiness (`||`, `!x`), `String(n)` and `%`.
    Numbers are integers or NaN. */
module Js {
  import opened Text

  datatype Number = Int(value: int) | NaN

  /** A JavaScript value as it reaches the helpers: a request or metadata
      field that may be missing, null, a number or a string. */
  datatype Value = Undefined | Null | Num(n: Number) | Str(s: string)

  /** What `if (v)` and `v || d` test. */
  predicate Truthy(v: Value) {
    match v
    case Undefined => false
    case Null => false
    case Num(n) => n.Int? && n.value != 0
    case Str(s) => s != ""
  }

  /** `a === b`: the same value, and NaN equals nothing. */
  predicate StrictEquals(a: Value, b: Value) {
    a == b && !(a.Num? && a.n.NaN?)
  }

  /** `String(i)` for an integer. */
  function IntText(i: int): string {
    if i < 0 then "-" + NatText(-i) else NatText(i)
  }

  /** `String(n)`. */
  function NumberText(n: Number): string {
    match n
    case Int(i) => IntText(i)
    case NaN => "NaN"
  }

  /** The longest prefix of decimal digits. */
  function DigitPrefix(s: string): (p: string)
    ensures AllDigits(p) && StartsWith(s, p)
    ensures |p| < |s| ==> !IsDigit(s[|p|])
  {
    if s != [] && IsDigit(s[0]) then [s[0]] + DigitPrefix(s[1..]) else ""
  }

  /** A digit run followed by text that does not start with a digit is the prefix. */
  lemma {:induction false} DigitPrefixOf(p: string, rest: string)
    requires AllDigits(p)
    requires rest == [] || !IsDigit(rest[0])
    ensures DigitPrefix(p + rest) == p
  {
    if p != [] {
      assert (p + rest)[1..] == p[1..] + rest;
      DigitPrefixOf(p[1..], rest);
      assert [p[0]] + p[1..] == p;
    } else {
      assert p + rest == rest;
    }
  }

  /** `parseInt(s, 10)`: skips leading white space, takes a sign and the
      longest digit run; NaN when there is no digit. */
  function ParseInt(s: string): (r: Number)
    ensures r.NaN? <==> DigitPrefix(Unsigned(TrimStart(s))) == ""
  {
    var t := TrimStart(s);
    var d := DigitPrefix(Unsigned(t));
    if d == "" then NaN
    else if t[0] == '-' then Int(-(DigitsValue(d) as int))
    else Int(DigitsValue(d))
  }

  /** `String(v)`, as `parseInt` applies it to a non-string argument. */
  function ToText(v: Value): string {
    match v
    case Undefined => "undefined"
    case Null => "null"
    case Num(n) => NumberText(n)
    case Str(s) => s
  }

  /** Drops one leading sign character. */
  function Unsigned(t: string): string {
    if t != [] && (t[0] == '-' || t[0] == '+') then t[1..] else t
  }

  /** `Number(s)` for a string: surrounding white space ignored, empty is 0,
      a signed run of decimal digits is its value, anything else NaN. */
  function StringToNumber(s: string): (r: Number)
    ensures Trim(s) == "" ==> r == Int(0)
  {
    var t := Trim(s);
    if t == "" then Int(0)
    else
      var u := Unsigned(t);
      if u == "" || !AllDigits(u) then NaN
      else if t[0] == '-' then Int(-(DigitsValue(u) as int))
      else Int(DigitsValue(u))
  }

  /** `Number(v)`. */
  function ToNumber(v: Value): Number {
    match v
    case Undefined => NaN
    case Null => Int(0)
    case Num(n) => n
    case Str(s) => StringToNumber(s)
  }

  /** `a % b` for a positive divisor: the remainder takes the sign of `a`. */
  function Rem(a: int, b: int): (r: int)
    requires b > 0
    ensures -b < r < b
    ensures a >= 0 ==> r == a % b
    ensures a < 0 ==> r <= 0
  {
    if a >= 0 then a % b else -((-a) % b)
  }

  /** A digit run with no sign reads back as its value under `parseInt`,
      whatever non-digit text follows it. */
  lemma ParseIntDigits(d: string, rest: string)
    requires d != [] && AllDigits(d)
    requires rest == [] || !IsDigit(rest[0])
    ensures ParseInt(d + rest) == Int(DigitsValue(d))
  {
    assert TrimStart(d + rest) == d + rest by {
      assert !IsSpace((d + rest)[0]);
    }
    assert Unsigned(d + rest) == d + rest;
    DigitPrefixOf(d, rest);
  }

  /** Leading white space is skipped and one sign is read: a signed digit
      run reads as its value, negated for `-`. */
  lemma ParseIntSigned(s: string, ws: string, sign: char, d: string, rest: string)
    requires s == ws + [sign] + d + rest
    requires AllSpace(ws) && (sign == '-' || sign == '+')
    requires d != [] && AllDigits(d)
    requires rest == [] || !IsDigit(rest[0])
    ensures sign == '-' ==> ParseInt(s) == Int(-(DigitsValue(d) as int))
    ensures sign == '+' ==> ParseInt(s) == Int(DigitsValue(d))
  {
    SignedRun(s, ws, sign, d, rest);
    ParseIntOfRun(s, sign, d);
  }

  /** `parseInt` of text whose trimmed start is a sign and whose digit run is `d`. */
  lemma ParseIntOfRun(s: string, sign: char, d: string)
    requires d != [] && AllDigits(d)
    requires TrimStart(s) != [] && TrimStart(s)[0] == sign
    requires DigitPrefix(Unsigned(TrimStart(s))) == d
    ensures ParseInt(s) == Int(if sign == '-' then -(DigitsValue(d) as int) else DigitsValue(d))
  {
  }

  /** The text `parseInt` reads after the white space starts with the sign, and its digit run is `d`. */
  lemma SignedRun(s: string, ws: string, sign: char, d: string, rest: string)
    requires s == ws + [sign] + d + rest
    requires AllSpace(ws) && (sign == '-' || sign == '+')
    requires d != [] && AllDigits(d)
    requires rest == [] || !IsDigit(rest[0])
    ensures TrimStart(s) != [] && TrimStart(s)[0] == sign
    ensures DigitPrefix(Unsigned(TrimStart(s))) == d
  {
    var u := d + rest;
    var t := [sign] + u;
    assert s == ws + t;
    TrimStartSpaces(ws, t);
    assert Unsigned(t) == u;
    DigitPrefixOf(d, rest);
  }

  /** `parseInt` of a printed number is the number. */
  lemma ParseIntNatText(n: nat, rest: string)
    requires rest == [] || !IsDigit(rest[0])
    ensures ParseInt(NatText(n) + rest) == Int(n)
    ensures ParseInt(Pad2(n) + rest) == Int(n)
  {
    NatTextValue(n);
    ParseIntDigits(NatText(n), rest);
    Pad2Value(n);
    ParseIntDigits(Pad2(n), rest);
  }

  /** `Number` of an unsigned digit run is its value. */
  lemma StringToNumberDigits(d: string)
    requires d != [] && AllDigits(d)
    ensures StringToNumber(d) == Int(DigitsValue(d))
  {
    assert !IsSpace(d[0]) && !IsSpace(d[|d| - 1]);
    TrimUnchanged(d);
    assert Unsigned(d) == d;
  }

  /** A string starting with a character that is no white space, digit or
      sign is not a number, unless it is `Infinity`. */
  lemma StringToNumberNonNumeric(s: string)
    requires s != [] && !IsSpace(s[0]) && !IsDigit(s[0]) && s[0] != '-' && s[0] != '+'
    requires Trim(s) != "Infinity"
    ensures StringToNumber(s) == NaN
  {
    assert TrimStart(s) == s;
    var t := Trim(s);
    assert |t| >= 1 by { assert !AllSpace(s[0..]); }
    assert t[0] == s[0];
    assert Unsigned(t) == t;
    assert !IsDigit(t[0]);
  }
}
