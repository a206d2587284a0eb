/**
 * Number parsing and printing as the portal uses them: `Number.parseFloat`,
 * `Number.parseInt` (base 10), the idiom `parseFloat(x) || 0`, and the decimal
 * text of a natural number.
 */
module Numbers {
  import opened Wrappers
  import Text

  predicate IsDigit(c: char) {
    '0' <= c <= '9'
  }

  predicate AllDigits(s: string) {
    forall i | 0 <= i < |s| :: IsDigit(s[i])
  }

  function DigitValue(c: char): (d: nat)
    requires IsDigit(c)
    ensures d < 10
  {
    (c as int - '0' as int) as nat
  }

  function DigitChar(d: nat): (c: char)
    requires d < 10
    ensures IsDigit(c) && DigitValue(c) == d
  {
    ('0' as int + d) as char
  }

  /** Length of the longest all-digit prefix of `s`. */
  function DigitRun(s: string): (n: nat)
    ensures n <= |s| && AllDigits(s[..n])
    ensures n < |s| ==> !IsDigit(s[n])
  {
    if s != [] && IsDigit(s[0]) then
      var n := 1 + DigitRun(s[1..]);
      assert s[..n] == [s[0]] + s[1..][..n - 1];
      n
    else 0
  }

  /** The value of a string of decimal digits, most significant first. */
  function DecimalValue(s: string): nat
    requires AllDigits(s)
  {
    if s == [] then 0 else DecimalValue(s[..|s| - 1]) * 10 + DigitValue(s[|s| - 1])
  }

  function Pow10(k: nat): (p: nat)
    ensures p >= 1
  {
    if k == 0 then 1 else 10 * Pow10(k - 1)
  }

  /** Optional sign: the sign factor and the text after it. */
  function SignOf(s: string): (int, string) {
    if s != [] && s[0] == '-' then (-1, s[1..])
    else if s != [] && s[0] == '+' then (1, s[1..])
    else (1, s)
  }

  /** The unsigned decimal at the start of `s`: digits, optionally `.` and more digits. */
  function UnsignedPrefix(s: string): Option<real> {
    var n := DigitRun(s);
    var rest := s[n..];
    var frac := if rest != [] && rest[0] == '.' then rest[1..][..DigitRun(rest[1..])] else "";
    if n == 0 && frac == [] then None
    else Some(DecimalValue(s[..n]) as real + FractionValue(frac))
  }

  /** The digits after the point, `0.d1d2…`: the digits' value over the matching power of ten. */
  function FractionValue(frac: string): (r: real)
    requires AllDigits(frac)
    ensures 0.0 <= r
    ensures frac == [] ==> r == 0.0
  {
    DecimalValue(frac) as real / Pow10(|frac|) as real
  }

  /**
   * `Number.parseFloat(s)`: after leading whitespace, an optional sign, digits,
   * optionally `.` and more digits, read as far as they go; `None` (NaN) when
   * no digit is read.
   */
  function ParseFloat(s: string): Option<real> {
    var (sign, body) := SignOf(Text.TrimStart(s));
    match UnsignedPrefix(body)
    case None => None
    case Some(v) => Some(sign as real * v)
  }

  /** `Number.parseFloat(s) || 0`: NaN (and zero) become 0. */
  function FloatOrZero(s: string): real {
    ParseFloat(s).GetOr(0.0)
  }

  /** `Number.parseInt(s)` in base 10: leading whitespace, an optional sign, the digits that follow. */
  function ParseInt(s: string): Option<int> {
    var (sign, body) := SignOf(Text.TrimStart(s));
    var n := DigitRun(body);
    if n == 0 then None else Some(sign * DecimalValue(body[..n]))
  }

  /** `String(n)` for a natural number: its decimal digits, no leading zero. */
  function NatToDecimal(n: nat): (s: string)
    ensures s != [] && AllDigits(s)
    ensures |s| > 1 ==> s[0] != '0'
  {
    if n < 10 then [DigitChar(n)] else NatToDecimal(n / 10) + [DigitChar(n % 10)]
  }

  lemma {:induction false} DecimalValueOfNatToDecimal(n: nat)
    ensures DecimalValue(NatToDecimal(n)) == n
  {
    var s := NatToDecimal(n);
    if n >= 10 {
      DecimalValueOfNatToDecimal(n / 10);
      assert s[..|s| - 1] == NatToDecimal(n / 10);
    }
  }

  lemma {:induction false} DigitRunOfDigits(s: string)
    requires AllDigits(s)
    ensures DigitRun(s) == |s|
  {
    if s != [] {
      DigitRunOfDigits(s[1..]);
    }
  }

  /** Reading back the decimal text of a natural number gives the number: `parseFloat(String(n)) == n`. */
  lemma ParseFloatOfNatToDecimal(n: nat)
    ensures ParseFloat(NatToDecimal(n)) == Some(n as real)
  {
    ParseFloatOfDigits(NatToDecimal(n));
    DecimalValueOfNatToDecimal(n);
  }

  /** Leading whitespace is only dropped before a digit, never the digit. */
  lemma TrimStartBeforeDigit(s: string)
    requires s != [] && IsDigit(s[0])
    ensures Text.TrimStart(s) == s
  {
    assert !Text.IsWhitespace(s[0]);
  }

  lemma ParseFloatOfDigits(s: string)
    requires s != [] && AllDigits(s)
    ensures ParseFloat(s) == Some(DecimalValue(s) as real)
  {
    assert IsDigit(s[0]);
    TrimStartBeforeDigit(s);
    assert SignOf(s) == (1, s);
    UnsignedPrefixOfDigits(s);
  }

  lemma UnsignedPrefixOfDigits(s: string)
    requires s != [] && AllDigits(s)
    ensures UnsignedPrefix(s) == Some(DecimalValue(s) as real)
  {
    DigitRunOfDigits(s);
    assert s[..DigitRun(s)] == s;
    assert s[DigitRun(s)..] == [];
  }

  /** `parseInt(String(n)) == n`. */
  lemma ParseIntOfNatToDecimal(n: nat)
    ensures ParseInt(NatToDecimal(n)) == Some(n)
  {
    ParseIntOfDigitsThen(NatToDecimal(n), "");
    assert NatToDecimal(n) + "" == NatToDecimal(n);
    DecimalValueOfNatToDecimal(n);
  }

  /** `parseInt` of digits followed by a non-digit (or nothing) reads exactly the digits. */
  lemma ParseIntOfDigitsThen(s: string, t: string)
    requires s != [] && AllDigits(s)
    requires t == [] || !IsDigit(t[0])
    ensures ParseInt(s + t) == Some(DecimalValue(s))
  {
    var u := s + t;
    assert u[0] == s[0] && IsDigit(u[0]);
    TrimStartBeforeDigit(u);
    assert SignOf(u) == (1, u);
    DigitRunStopsAt(s, t);
    assert u[..|s|] == s;
  }

  /** `parseInt` ignores a fractional part: `parseInt("12.5") == 12`. */
  lemma ParseIntStopsAtPoint(n: nat, frac: string)
    ensures ParseInt(NatToDecimal(n) + "." + frac) == Some(n)
  {
    var s := NatToDecimal(n);
    ParseIntOfDigitsThen(s, "." + frac);
    assert s + "." + frac == s + ("." + frac);
    DecimalValueOfNatToDecimal(n);
  }

  lemma {:induction false} DigitRunStopsAt(s: string, t: string)
    requires AllDigits(s)
    requires t == [] || !IsDigit(t[0])
    ensures DigitRun(s + t) == |s|
  {
    if s != [] {
      assert (s + t)[1..] == s[1..] + t;
      DigitRunStopsAt(s[1..], t);
    }
  }

  /** A text with no digit at all is not a number: `parseFloat(x) || 0` gives 0. */
  lemma FloatOrZeroWithoutDigits(s: string)
    requires forall i | 0 <= i < |s| :: !IsDigit(s[i])
    ensures FloatOrZero(s) == 0.0
  {
    var (sign, body) := SignOf(Text.TrimStart(s));
    assert forall i | 0 <= i < |body| :: !IsDigit(body[i]);
    var rest := body[DigitRun(body)..];
    if rest != [] && rest[0] == '.' {
      assert forall i | 0 <= i < |rest[1..]| :: !IsDigit(rest[1..][i]);
    }
    assert UnsignedPrefix(body) == None;
  }
}
