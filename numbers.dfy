/** The numeric literal test of the evaluator, `token.parse::<f64>()`
    (calculator.rs:47). It follows the decimal grammar of Rust's `f64`
    parser: an optional sign, digits with an optional decimal point (at least
    one digit in all), and an optional exponent `e`/`E` with an optional sign
    and at least one digit. The value is the exact rational the literal
    denotes; rounding to the nearest `f64` and the non-finite spellings
    (`inf`, `infinity`, `nan`) are outside this model. */
module Numbers {
  import opened Common

  predicate IsDigit(c: char) {
    '0' <= c <= '9'
  }

  predicate AllDigits(s: string) {
    forall i :: 0 <= i < |s| ==> IsDigit(s[i])
  }

  /** The natural number a string of decimal digits denotes. */
  function DigitsValue(s: string): nat
    requires AllDigits(s)
  {
    if s == [] then 0 else 10 * DigitsValue(s[..|s| - 1]) + (s[|s| - 1] as int - '0' as int)
  }

  /** `m` times ten to the power `e`, as an exact real. */
  function Scaled(m: real, e: int): real
    decreases if e >= 0 then e else -e
  {
    if e == 0 then m
    else if e > 0 then 10.0 * Scaled(m, e - 1)
    else Scaled(m, e + 1) / 10.0
  }

  /** The position of the first `a` or `b` in `s`, or `|s|` if there is none. */
  function IndexOf(s: string, a: char, b: char): (i: nat)
    ensures i <= |s|
    ensures forall k :: 0 <= k < i ==> s[k] != a && s[k] != b
    ensures i < |s| ==> s[i] == a || s[i] == b
  {
    if s == [] then 0
    else if s[0] == a || s[0] == b then 0
    else 1 + IndexOf(s[1..], a, b)
  }

  /** Splits off an optional leading sign: whether it was `-`, and the rest. */
  function SplitSign(s: string): (bool, string) {
    if |s| > 0 && (s[0] == '+' || s[0] == '-') then (s[0] == '-', s[1..]) else (false, s)
  }

  /** The exponent after `e`: an optional sign and at least one digit. */
  function ParseExponent(s: string): Option<int> {
    var (negative, digits) := SplitSign(s);
    if |digits| > 0 && AllDigits(digits) then
      Some(if negative then -(DigitsValue(digits) as int) else DigitsValue(digits))
    else
      None
  }

  /** An unsigned literal: whole digits, optional `.` and fraction digits,
      optional exponent. */
  function ParseDecimal(s: string): Option<real> {
    var e := IndexOf(s, 'e', 'E');
    var mantissa := s[..e];
    var exponent := if e == |s| then Some(0) else ParseExponent(s[e + 1..]);
    var d := IndexOf(mantissa, '.', '.');
    var whole := mantissa[..d];
    var fraction := if d == |mantissa| then "" else mantissa[d + 1..];
    if AllDigits(whole) && AllDigits(fraction) && |whole| + |fraction| > 0 && exponent.Some? then
      Some(Scaled(DigitsValue(whole + fraction) as real, exponent.value - |fraction|))
    else
      None
  }

  /** `token.parse::<f64>()`: `Some` of the value on success, `None` on error. */
  function ParseNum(s: string): Option<real> {
    var (negative, body) := SplitSign(s);
    match ParseDecimal(body)
    case None => None
    case Some(v) => Some(if negative then -v else v)
  }

  /** A non-empty string of digits parses, to the number it spells. */
  lemma DigitStringParses(s: string)
    requires |s| > 0 && AllDigits(s)
    ensures ParseNum(s) == Some(DigitsValue(s) as real)
  {
    assert SplitSign(s) == (false, s);
    var e := IndexOf(s, 'e', 'E');
    assert e == |s|;
    assert s[..e] == s;
    var d := IndexOf(s, '.', '.');
    assert d == |s|;
    assert s[..d] + "" == s;
  }

  /** Whatever parses as a number contains a decimal digit; so no operator,
      parenthesis or `=` token, and no empty token, is ever read as a number. */
  lemma ParsedHasDigit(s: string)
    requires ParseNum(s).Some?
    ensures exists i :: 0 <= i < |s| && IsDigit(s[i])
  {
    var (negative, body) := SplitSign(s);
    var e := IndexOf(body, 'e', 'E');
    var mantissa := body[..e];
    var d := IndexOf(mantissa, '.', '.');
    var whole := mantissa[..d];
    var fraction := if d == |mantissa| then "" else mantissa[d + 1..];
    var k: int;
    if |whole| > 0 {
      k := 0;
      assert IsDigit(whole[0]) && whole[0] == body[0];
    } else {
      assert |fraction| > 0 && IsDigit(fraction[0]);
      k := d + 1;
      assert fraction[0] == body[k];
    }
    var offset := if body == s then 0 else 1;
    assert body[k] == s[k + offset];
  }

  /** A one-character string that is not a digit is not a number. */
  lemma NotANumber(t: string)
    requires |t| == 1 && !IsDigit(t[0])
    ensures ParseNum(t) == None
  {
    if ParseNum(t).Some? {
      ParsedHasDigit(t);
    }
  }

  /** The single-character tokens the tokenizer emits are never numbers. */
  lemma SymbolsAreNotNumbers()
    ensures ParseNum("+") == None && ParseNum("-") == None
    ensures ParseNum("*") == None && ParseNum("/") == None
    ensures ParseNum("(") == None && ParseNum(")") == None
    ensures ParseNum("=") == None
  {
    NotANumber("+");
    NotANumber("-");
    NotANumber("*");
    NotANumber("/");
    NotANumber("(");
    NotANumber(")");
    NotANumber("=");
  }
}
