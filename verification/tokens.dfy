/** Tokens of the arithmetic language: numerals and the six symbols
    `+ - * / ( )` (api/parse.js:84). */
module Tokens {

  predicate IsDigit(c: char) { '0' <= c <= '9' }

  predicate IsSymbol(c: char) {
    c == '+' || c == '-' || c == '*' || c == '/' || c == '(' || c == ')'
  }

  // A character at which the pattern \d+(\.\d+)?|[+\-*/()] can start a match.
  predicate StartsToken(c: char) { IsDigit(c) || IsSymbol(c) }

  predicate AllDigits(s: string) {
    forall i | 0 <= i < |s| :: IsDigit(s[i])
  }

  /** Length of the longest prefix of `s` made of digits. */
  function DigitRun(s: string): (n: nat)
    ensures n <= |s|
    ensures AllDigits(s[..n])
    ensures n < |s| ==> !IsDigit(s[n])
  {
    if s == [] || !IsDigit(s[0]) then 0
    else
      var n := 1 + DigitRun(s[1..]);
      assert forall i | 1 <= i < n :: s[..n][i] == s[1..][..n - 1][i - 1];
      n
  }

  /** The text of a number token, `\d+(\.\d+)?`: a run of digits, then
      either nothing or a `.` followed by digits up to the end. */
  predicate IsNumeral(t: string) {
    var d := DigitRun(t);
    && 0 < d
    && (d < |t| ==> d + 1 < |t| && t[d] == '.' && AllDigits(t[d + 1..]))
  }

  /** A numeral with no fractional part. */
  predicate IsWhole(t: string) {
    DigitRun(t) == |t|
  }

  type Numeral = t: string | IsNumeral(t) witness "0"

  datatype Token = Number(text: Numeral) | Plus | Minus | Times | Divide | LParen | RParen

  /** The characters of the input that a token stands for. */
  function Text(t: Token): (s: string)
    ensures |s| > 0 && StartsToken(s[0])
  {
    match t
    case Number(n) => n
    case Plus => "+"
    case Minus => "-"
    case Times => "*"
    case Divide => "/"
    case LParen => "("
    case RParen => ")"
  }

  /** The token for a single symbol character. */
  function SymbolToken(c: char): (t: Token)
    requires IsSymbol(c)
    ensures Text(t) == [c]
  {
    match c
    case '+' => Plus
    case '-' => Minus
    case '*' => Times
    case '/' => Divide
    case '(' => LParen
    case ')' => RParen
  }

  /** The digit run of `s` has length `n` when `s` has `n` leading digits
      and no further one. */
  lemma {:induction false} DigitRunIs(s: string, n: nat)
    requires n <= |s|
    requires AllDigits(s[..n])
    requires n < |s| ==> !IsDigit(s[n])
    ensures DigitRun(s) == n
  {
    if n > 0 {
      assert s[0] == s[..n][0];
      assert s[1..][..n - 1] == s[..n][1..];
      DigitRunIs(s[1..], n - 1);
    }
  }

  /** Value of a string of decimal digits, most significant first. */
  function DigitsValue(ds: string): nat
    requires AllDigits(ds)
  {
    if ds == [] then 0
    else
      assert IsDigit(ds[|ds| - 1]);
      assert forall i | 0 <= i < |ds| - 1 :: ds[..|ds| - 1][i] == ds[i];
      10 * DigitsValue(ds[..|ds| - 1]) + (ds[|ds| - 1] as int - '0' as int) as nat
  }

  /** `x` divided by ten `places` times. */
  function Shift(x: real, places: nat): real {
    if places == 0 then x else Shift(x, places - 1) / 10.0
  }

  function Pow10(n: nat): (p: nat)
    ensures p >= 1
  {
    if n == 0 then 1 else 10 * Pow10(n - 1)
  }

  /** `n` digits denote less than ten to the `n`. */
  lemma {:induction false} DigitsBelow(ds: string)
    requires AllDigits(ds)
    ensures DigitsValue(ds) < Pow10(|ds|)
  {
    if ds != [] {
      var init := ds[..|ds| - 1];
      assert forall i | 0 <= i < |init| :: init[i] == ds[i];
      DigitsBelow(init);
    }
  }

  /** Shifting by `places` is division by ten to the `places`. */
  lemma {:induction false} ShiftIsDivision(x: real, places: nat)
    ensures Shift(x, places) == x / Pow10(places) as real
  {
    if places > 0 {
      ShiftIsDivision(x, places - 1);
    }
  }

  /** The digits after the point add less than one. */
  lemma FractionBelowOne(ds: string)
    requires AllDigits(ds)
    ensures 0.0 <= Shift(DigitsValue(ds) as real, |ds|) < 1.0
  {
    DigitsBelow(ds);
    ShiftIsDivision(DigitsValue(ds) as real, |ds|);
    ProperFraction(DigitsValue(ds) as real, Pow10(|ds|) as real);
  }

  lemma ProperFraction(v: real, q: real)
    requires 0.0 <= v < q
    ensures 0.0 <= v / q < 1.0
  {
    assert v / q * q == v;
  }

  /** The exact rational a numeral denotes: `d.f` is `d + f / 10^|f|`. The
      digits before the point are its integer part; a numeral without a
      point denotes exactly them. */
  function NumeralValue(t: Numeral): (r: real)
    ensures var w := DigitsValue(t[..DigitRun(t)]) as real; w <= r < w + 1.0
    ensures IsWhole(t) ==> r == DigitsValue(t[..DigitRun(t)]) as real
  {
    var d := DigitRun(t);
    if d == |t| then
      assert t[..d] == t;
      DigitsValue(t) as real
    else
      FractionBelowOne(t[d + 1..]);
      DigitsValue(t[..d]) as real + Shift(DigitsValue(t[d + 1..]) as real, |t| - d - 1)
  }

  /** Digits written after other digits: the value of the front part is
      scaled by ten to the length of the back part. */
  lemma {:induction false} DigitsAppend(a: string, b: string)
    requires AllDigits(a) && AllDigits(b)
    ensures AllDigits(a + b)
    ensures DigitsValue(a + b) == DigitsValue(a) * Pow10(|b|) + DigitsValue(b)
  {
    if b == [] {
      assert a + b == a;
    } else {
      var init := b[..|b| - 1];
      assert forall i | 0 <= i < |init| :: init[i] == b[i];
      DigitsAppend(a, init);
      assert (a + b)[..|a + b| - 1] == a + init;
      assert (a + b)[|a + b| - 1] == b[|b| - 1];
      var c := b[|b| - 1] as int - '0' as int;
      assert DigitsValue(a + b) == 10 * DigitsValue(a + init) + c;
      assert DigitsValue(b) == 10 * DigitsValue(init) + c;
      assert Pow10(|b|) == 10 * Pow10(|init|);
      Regroup(DigitsValue(a), Pow10(|init|), DigitsValue(init), c);
    }
  }

  lemma Regroup(x: int, p: int, y: int, c: int)
    ensures 10 * (x * p + y) + c == x * (10 * p) + (10 * y + c)
  {
    assert x * (10 * p) == 10 * (x * p);
  }

  /** `x` multiplied by ten `places` times: the inverse of `Shift`. */
  function Scale(x: real, places: nat): real
    decreases places
  {
    if places == 0 then x else Scale(x * 10.0, places - 1)
  }

  /** Scaling by `places` is multiplication by ten to the `places`. */
  lemma {:induction false} ScaleIsProduct(x: real, places: nat)
    ensures Scale(x, places) == x * Pow10(places) as real
    decreases places
  {
    if places > 0 {
      ScaleIsProduct(x * 10.0, places - 1);
      var q := Pow10(places - 1) as real;
      assert Pow10(places) as real == 10.0 * q;
      assert x * 10.0 * q == x * (10.0 * q);
    }
  }

  /** Scaling undoes shifting by the same number of places. */
  lemma {:induction false} ScaleShift(x: real, places: nat)
    ensures Scale(Shift(x, places), places) == x
    decreases places
  {
    if places > 0 {
      ScaleShift(x, places - 1);
      assert Shift(x, places) * 10.0 == Shift(x, places - 1);
    }
  }

  /** Scaling distributes over a sum. */
  lemma {:induction false} ScaleSum(x: real, y: real, places: nat)
    ensures Scale(x + y, places) == Scale(x, places) + Scale(y, places)
    decreases places
  {
    if places > 0 {
      ScaleSum(x * 10.0, y * 10.0, places - 1);
      assert (x + y) * 10.0 == x * 10.0 + y * 10.0;
    }
  }

  /** A whole number scaled by `places` is the whole number with `places`
      zero digits appended. */
  lemma {:induction false} ScaleWhole(w: int, places: nat)
    ensures Scale(w as real, places) == (w * Pow10(places)) as real
    decreases places
  {
    if places > 0 {
      ScaleWhole(w * 10, places - 1);
      Regroup(w, Pow10(places - 1), 0, 0);
    }
  }

  /** A whole number written as `x` followed by `places` digits worth `y`. */
  lemma ScaledSum(z: int, x: int, y: int, places: nat)
    requires z == x * Pow10(places) + y
    ensures z as real == Scale(x as real, places) + y as real
  {
    ScaleWhole(x, places);
  }

  /** `DigitsAppend` with the front part's value scaled rather than
      multiplied. */
  lemma DigitsAppendScaled(a: string, b: string)
    requires AllDigits(a) && AllDigits(b)
    ensures AllDigits(a + b)
    ensures DigitsValue(a + b) as real == Scale(DigitsValue(a) as real, |b|) + DigitsValue(b) as real
  {
    DigitsAppend(a, b);
    hide *;
    ScaledSum(DigitsValue(a + b), DigitsValue(a), DigitsValue(b), |b|);
  }

  /** A numeral with a point is its whole digits, the point and its
      fraction digits; its value is the whole part plus the fraction shifted
      by the fraction's length. */
  lemma NumeralParts(whole: string, frac: string)
    requires whole != [] && frac != [] && AllDigits(whole) && AllDigits(frac)
    ensures IsNumeral(whole + "." + frac)
    ensures DigitRun(whole + "." + frac) == |whole|
    ensures NumeralValue(whole + "." + frac) == DigitsValue(whole) as real + Shift(DigitsValue(frac) as real, |frac|)
  {
    var t := whole + "." + frac;
    assert t[..|whole|] == whole;
    assert t[|whole|] == '.';
    assert t[|whole| + 1..] == frac;
    DigitRunIs(t, |whole|);
  }

  /** The exact value of a numeral with a point: moving the point to the end
      multiplies it by ten for each digit after the point (see
      `ScaleIsProduct`), and leaves the whole number its digits spell. */
  lemma PointRemoved(whole: string, frac: string)
    requires whole != [] && frac != [] && AllDigits(whole) && AllDigits(frac)
    ensures IsNumeral(whole + "." + frac) && AllDigits(whole + frac)
    ensures Scale(NumeralValue(whole + "." + frac), |frac|) == DigitsValue(whole + frac) as real
  {
    var w: int, v: int := DigitsValue(whole), DigitsValue(frac);
    NumeralParts(whole, frac);
    DigitsAppendScaled(whole, frac);
    hide *;
    ScaleSum(w as real, Shift(v as real, |frac|), |frac|);
    ScaleShift(v as real, |frac|);
  }
}
