/**
 * The numbers the interpreter handles. JavaScript's `parseFloat` and `parseInt` are modelled on
 * the strings the scanner can produce: a leading unsigned decimal is read exactly (as a real),
 * anything that does not start with a digit is NaN.
 */
module Numbers {
  import opened Wrappers
  import opened Lexer

  /** A JavaScript number as far as the interpreter needs one: NaN or a finite value. */
  datatype Num = NaN | Real(r: real)

  /** What `evaluate` yields: a number (a variable's value, or 0 for a missing token) or a token's text. */
  datatype Value = Number(n: Num) | Text(s: string)

  function Pow10(k: nat): (r: nat)
    ensures r >= 1
  {
    if k == 0 then 1 else 10 * Pow10(k - 1)
  }

  predicate DigitsOnly(s: string) {
    forall k :: 0 <= k < |s| ==> IsDigit(s[k])
  }

  /** The value of a string of decimal digits; it has fewer digits than 10^|s| has. */
  function DigitsValue(s: string): (r: nat)
    requires DigitsOnly(s)
    ensures r < Pow10(|s|)
    decreases |s|
  {
    if s == [] then 0 else DigitsValue(s[..|s| - 1]) * 10 + (s[|s| - 1] as int - '0' as int)
  }

  /** The end of the integer part of s, and the end of its fraction if a '.' and a digit follow. */
  function FractionEnd(s: string): (f: nat)
    ensures DigitRun(s, 0) <= f <= |s|
  {
    var d := DigitRun(s, 0);
    if d + 1 < |s| && s[d] == '.' && IsDigit(s[d + 1]) then DigitRun(s, d + 1) else d
  }

  /** `parseFloat` of a string: the value of its leading unsigned decimal, or NaN. */
  function ParseFloatText(s: string): Num {
    var d := DigitRun(s, 0);
    var f := FractionEnd(s);
    if d == 0 then NaN
    else if f == d then Real(DigitsValue(s[..d]) as real)
    else Real(DigitsValue(s[..d]) as real + DigitsValue(s[d + 1..f]) as real / Pow10(f - d - 1) as real)
  }

  /** `parseFloat(x)`: a number stays itself, a text is parsed. */
  function ParseFloat(v: Value): Num {
    match v
    case Number(n) => n
    case Text(s) => ParseFloatText(s)
  }

  /** Truncation toward zero, which `parseInt` applies to the decimal form of a number. */
  function Trunc(r: real): int {
    if r >= 0.0 then r.Floor else -((-r).Floor)
  }

  /** `parseInt(x)`: None stands for NaN. */
  function ParseInt(v: Value): Option<int> {
    match v
    case Number(NaN) => None
    case Number(Real(r)) => Some(Trunc(r))
    case Text(s) =>
      var d := DigitRun(s, 0);
      if d == 0 then None else Some(DigitsValue(s[..d]))
  }

  function Negate(n: Num): Num {
    match n
    case NaN => NaN
    case Real(r) => Real(-r)
  }

  lemma FractionBelowOne(a: nat, p: nat)
    requires a < p
    ensures 0.0 <= a as real / p as real < 1.0
  {
    var x := a as real / p as real;
    assert x * p as real == a as real;
    assert x >= 1.0 ==> x * p as real >= p as real;
  }

  lemma FloorOfFraction(w: nat, x: real)
    requires 0.0 <= x < 1.0
    ensures (w as real + x).Floor == w
  {
  }

  /**
   * Reading a count through `parseFloat` first (as `VAR` stores it) and then `parseInt` (as
   * `REPEAT` reads it) gives the same count as `parseInt` of the text itself.
   */
  lemma ParseIntAfterParseFloat(s: string)
    ensures ParseInt(Number(ParseFloatText(s))) == ParseInt(Text(s))
  {
    var d := DigitRun(s, 0);
    var f := FractionEnd(s);
    if d > 0 {
      var w := DigitsValue(s[..d]);
      if f > d {
        var p := Pow10(f - d - 1);
        var a := DigitsValue(s[d + 1..f]);
        FractionBelowOne(a, p);
        var x := a as real / p as real;
        FloorOfFraction(w, x);
      }
    }
  }

  /**
   * A lexeme is a number for `parseFloat` exactly when it is a numeral, and then the number is
   * not negative; every other lexeme parses to NaN.
   */
  lemma ParseFloatOfLexeme(v: string)
    requires IsLexeme(v)
    ensures ParseFloatText(v).Real? <==> InClass(v, Numeral)
    ensures ParseFloatText(v).Real? ==> ParseFloatText(v).r >= 0.0
  {
    var c := StartClass(v[0]).value;
    LexemeStart(v, Numeral);
    var d := DigitRun(v, 0);
    assert d > 0 <==> IsDigit(v[0]);
    assert IsDigit(v[0]) <==> c == Numeral;
    assert c == Numeral ==> InClass(v, Numeral);
    ParseFloatNonNegative(v);
  }

  lemma ParseFloatNonNegative(s: string)
    ensures ParseFloatText(s).Real? ==> ParseFloatText(s).r >= 0.0
  {
    var d := DigitRun(s, 0);
    var f := FractionEnd(s);
    if d > 0 && f > d {
      var a := DigitsValue(s[d + 1..f]);
      FractionBelowOne(a, Pow10(f - d - 1));
    }
  }
}
