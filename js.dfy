/**
 * The JavaScript values that reach the card pipeline from a JSON request body, and the
 * language conversions the pipeline applies to them: `String(v)` and template-literal
 * interpolation (ToString), the numeric conversion behind `i < rating` (ToNumber), and
 * the nullish test behind `??`.
 *
 * Numbers are integral here: every number the pipeline turns into text or compares is
 * an integer in the requests the card is built for (ratings, years, pixel sizes). A JavaScript number
 * is a double, which holds every integer of magnitude at most 2^53 exactly, so `Num`
 * carries only those integers.
 */
module Js {
  import opened Options

  /** A primitive JavaScript value. */
  datatype JsValue = Undefined | Null | Bool(b: bool) | Num(n: ExactInt) | Str(s: string)

  /** The integers a double represents with all of their neighbours: magnitude at most 2^53. */
  type ExactInt = n: int | -0x20_0000_0000_0000 <= n <= 0x20_0000_0000_0000

  /** The outcome of ToNumber: NaN or an integral number. */
  datatype Number = NaN | Finite(value: int)

  /** The values for which `v ?? d` yields `d`. */
  predicate IsNullish(v: JsValue) {
    v.Undefined? || v.Null?
  }

  /** The JavaScript `v ?? d`. */
  function Coalesce(v: JsValue, d: JsValue): JsValue {
    if IsNullish(v) then d else v
  }

  /**
   * JavaScript white space and line terminators: the characters matched by the regular
   * expression class `\s`, which are also the ones ToNumber trims from a string.
   */
  predicate IsWhitespace(c: char) {
    || c == '\t' || c == '\n' || c == '\U{B}' || c == '\U{C}' || c == '\r' || c == ' '
    || c == '\U{A0}' || c == '\U{1680}' || ('\U{2000}' <= c <= '\U{200A}')
    || c == '\U{2028}' || c == '\U{2029}' || c == '\U{202F}' || c == '\U{205F}'
    || c == '\U{3000}' || c == '\U{FEFF}'
  }

  predicate IsDigit(c: char) {
    '0' <= c <= '9'
  }

  predicate AllDigits(s: string) {
    forall i :: 0 <= i < |s| ==> IsDigit(s[i])
  }

  function DigitChar(d: nat): (c: char)
    requires d < 10
    ensures IsDigit(c) && c as int - '0' as int == d
  {
    ('0' as int + d) as char
  }

  function DigitValue(c: char): nat
    requires IsDigit(c)
  {
    c as int - '0' as int
  }

  /** Shortest decimal digits of a natural number: no leading zero unless the number is 0. */
  function NatToDecimal(n: nat): (s: string)
    ensures |s| >= 1 && AllDigits(s)
    ensures s[0] == '0' <==> n == 0
    ensures n == 0 ==> s == "0"
    decreases n
  {
    if n < 10 then [DigitChar(n)] else NatToDecimal(n / 10) + [DigitChar(n % 10)]
  }

  /** The value of a string of decimal digits, leading zeros allowed. */
  function DigitsValue(s: string): nat
    requires AllDigits(s)
    decreases |s|
  {
    if s == [] then 0 else DigitsValue(s[..|s| - 1]) * 10 + DigitValue(s[|s| - 1])
  }

  /**
   * Number::toString on an integer: an optional minus sign and its decimal digits. For an
   * `ExactInt` these are the shortest digits that read back as the same double, since no
   * other integer of that range rounds to it.
   */
  function IntToDecimal(n: int): string {
    if n < 0 then "-" + NatToDecimal(-n) else NatToDecimal(n)
  }

  /** An optional sign followed by at least one decimal digit, as a StrDecimalLiteral reads it. */
  function ParseIntegerLiteral(s: string): (r: Option<int>)
    ensures r.Some? ==> |s| >= 1
  {
    if |s| >= 2 && (s[0] == '-' || s[0] == '+') && AllDigits(s[1..]) then
      var m: int := DigitsValue(s[1..]);
      Some(if s[0] == '-' then -m else m)
    else if |s| >= 1 && AllDigits(s) then
      Some(DigitsValue(s))
    else
      None
  }

  /** The string without its leading white space. */
  function TrimStart(s: string): (r: string)
    ensures |r| <= |s|
    ensures s != [] && IsWhitespace(s[0]) ==> |r| < |s|
    decreases |s|
  {
    if s != [] && IsWhitespace(s[0]) then TrimStart(s[1..]) else s
  }

  /** TrimStart removes a prefix of white space and keeps the rest, which starts with no white space. */
  lemma {:induction false} TrimStartSuffix(s: string)
    ensures var r := TrimStart(s);
      && r == s[|s| - |r|..]
      && (r != [] ==> !IsWhitespace(r[0]))
      && forall i :: 0 <= i < |s| - |r| ==> IsWhitespace(s[i])
    decreases |s|
  {
    if s != [] && IsWhitespace(s[0]) {
      TrimStartSuffix(s[1..]);
      assert forall i :: 1 <= i < |s| ==> s[i] == s[1..][i - 1];
    }
  }

  function TrimEnd(s: string): (r: string)
    ensures |r| <= |s|
    decreases |s|
  {
    if s != [] && IsWhitespace(s[|s| - 1]) then TrimEnd(s[..|s| - 1]) else s
  }

  /** StringToNumber: surrounding white space is ignored and an empty string is 0. */
  function StringToNumber(s: string): Number {
    var t := TrimEnd(TrimStart(s));
    if t == [] then Finite(0)
    else match ParseIntegerLiteral(t)
      case Some(n) => Finite(n)
      case None => NaN
  }

  /** ToNumber of a primitive value. */
  function ToNumber(v: JsValue): Number {
    match v
    case Undefined => NaN
    case Null => Finite(0)
    case Bool(b) => Finite(if b then 1 else 0)
    case Num(n) => Finite(n)
    case Str(s) => StringToNumber(s)
  }

  /** ToString of a primitive value: what `String(v)` and `${v}` produce. */
  function ToString(v: JsValue): string {
    match v
    case Undefined => "undefined"
    case Null => "null"
    case Bool(b) => if b then "true" else "false"
    case Num(n) => IntToDecimal(n)
    case Str(s) => s
  }

  /** The relational comparison `i < v` for a number `i`: false whenever `v` converts to NaN. */
  predicate LessThan(i: int, v: JsValue) {
    match ToNumber(v)
    case NaN => false
    case Finite(m) => i < m
  }

  lemma {:induction false} DigitsValueOfNatToDecimal(n: nat)
    ensures DigitsValue(NatToDecimal(n)) == n
    decreases n
  {
    if n >= 10 {
      var s := NatToDecimal(n);
      DigitsValueOfNatToDecimal(n / 10);
      assert s[..|s| - 1] == NatToDecimal(n / 10);
    }
  }

  lemma ParseIntegerLiteralOfDecimal(n: int)
    ensures ParseIntegerLiteral(IntToDecimal(n)) == Some(n)
  {
    var s := IntToDecimal(n);
    if n < 0 {
      assert s[1..] == NatToDecimal(-n);
      DigitsValueOfNatToDecimal(-n);
    } else {
      DigitsValueOfNatToDecimal(n);
      assert IsDigit(s[0]);
    }
  }

  /** A string drawn from the sign and digit characters has nothing for ToNumber to trim. */
  lemma TrimNoWhitespace(s: string)
    requires forall i :: 0 <= i < |s| ==> IsDigit(s[i]) || s[i] == '-'
    ensures TrimEnd(TrimStart(s)) == s
  {
  }

  /** Reading back the text of an integer gives the integer: `Number(String(n)) === n`. */
  lemma ToNumberOfToString(n: ExactInt)
    ensures ToNumber(Str(ToString(Num(n)))) == Finite(n)
  {
    var s := IntToDecimal(n);
    assert forall i :: 0 <= i < |s| ==> IsDigit(s[i]) || s[i] == '-' by {
      if n < 0 {
        assert forall i :: 1 <= i < |s| ==> s[i] == NatToDecimal(-n)[i - 1];
      }
    }
    TrimNoWhitespace(s);
    ParseIntegerLiteralOfDecimal(n);
  }

  /** Decimal text of distinct integers differs: ToString loses nothing on numbers. */
  lemma IntToDecimalInjective(m: int, n: int)
    requires IntToDecimal(m) == IntToDecimal(n)
    ensures m == n
  {
    ParseIntegerLiteralOfDecimal(m);
    ParseIntegerLiteralOfDecimal(n);
  }
}
