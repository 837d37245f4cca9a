/**
 * Number text as the pipeline normalises and reads it: the amount clean-up
 * that keeps digits only, the total clean-up that turns the first comma into
 * a decimal point, `parseInt` on a digit capture and `parseFloat`. Values are
 * exact reals; `NaN` is `None`.
 */
module Numbers {
  import opened Wrappers
  import opened Text

  function DigitValue(c: char): nat
    requires IsDigit(c)
  {
    c as int - '0' as int
  }

  /** The decimal value of a digit string (`parseInt` of a `\d+` capture). */
  function DigitsValue(s: string): nat
    requires All(s, IsDigit)
  {
    if |s| == 0 then 0 else DigitsValue(s[..|s| - 1]) * 10 + DigitValue(s[|s| - 1])
  }

  /** `parseInt` of a `\d+` capture; None (`NaN`) for text that is not a
      non-empty digit string. */
  function ParseDigits(s: string): Option<nat>
  {
    if |s| >= 1 && All(s, IsDigit) then Some(DigitsValue(s)) else None
  }

  function DigitChar(d: nat): (c: char)
    requires d < 10
    ensures IsDigit(c) && DigitValue(c) == d
  {
    ('0' as int + d) as char
  }

  /** The decimal text of a natural number, as JavaScript prints an integer. */
  function NatToString(n: nat): (r: string)
    ensures |r| >= 1 && All(r, IsDigit)
    ensures DigitsValue(r) == n
    ensures n > 0 ==> r[0] != '0'
  {
    if n < 10 then [DigitChar(n)]
    else
      var r := NatToString(n / 10) + [DigitChar(n % 10)];
      assert r[..|r| - 1] == NatToString(n / 10);
      r
  }

  /** `s.replace(/[\s,.]/g, '')`. */
  function StripSeparators(s: string): (r: string)
    ensures |r| <= |s|
    ensures forall k :: 0 <= k < |r| ==> !IsWs(r[k]) && r[k] != ',' && r[k] != '.'
  {
    if |s| == 0 then ""
    else (if IsWs(s[0]) || s[0] == ',' || s[0] == '.' then "" else [s[0]]) + StripSeparators(s[1..])
  }

  /** `s.replace(from, to)` with a one-character string pattern: only the first occurrence. */
  function ReplaceFirst(s: string, from: char, to: char): string
  {
    if |s| == 0 then ""
    else if s[0] == from then [to] + s[1..]
    else [s[0]] + ReplaceFirst(s[1..], from, to)
  }

  /** The digits of `s`, in order. */
  function DigitsOf(s: string): (r: string)
    ensures All(r, IsDigit)
  {
    if |s| == 0 then "" else (if IsDigit(s[0]) then [s[0]] else "") + DigitsOf(s[1..])
  }

  /** The `number` field made from an amount capture:
      `capture.replace(/[\s,.]/g, '').replace(',', '.')`. */
  function AmountNumber(capture: string): string
  {
    ReplaceFirst(StripSeparators(capture), ',', '.')
  }

  /** Replacing an absent character changes nothing. */
  lemma {:induction false} ReplaceFirstAbsent(s: string, from: char, to: char)
    requires from !in s
    ensures ReplaceFirst(s, from, to) == s
  {
    if |s| > 0 {
      ReplaceFirstAbsent(s[1..], from, to);
      assert s == [s[0]] + s[1..];
    }
  }

  /** The comma-to-point replacement in the amount clean-up never fires: no comma
      is left after the separators are stripped. */
  lemma AmountCommaReplaceIsDead(capture: string)
    ensures AmountNumber(capture) == StripSeparators(capture)
  {
    ReplaceFirstAbsent(StripSeparators(capture), ',', '.');
  }

  /** On a capture of the class `[\d\s,.]` the amount clean-up keeps exactly the
      digits, in order; a decimal comma is lost. */
  lemma {:induction false} AmountNumberIsDigits(capture: string)
    requires All(capture, IsAmountChar)
    ensures AmountNumber(capture) == DigitsOf(capture)
    ensures All(AmountNumber(capture), IsDigit)
  {
    AmountCommaReplaceIsDead(capture);
    StripIsDigitsOf(capture);
  }

  lemma {:induction false} StripIsDigitsOf(s: string)
    requires All(s, IsAmountChar)
    ensures StripSeparators(s) == DigitsOf(s)
  {
    if |s| > 0 { StripIsDigitsOf(s[1..]); }
  }

  function Pow10(n: nat): (p: nat)
    ensures p >= 1
  {
    if n == 0 then 1 else 10 * Pow10(n - 1)
  }

  /** The value of `digits[.digits]` read from the start of `u`, with the
      position after it; None when neither digit run is there. */
  function DecimalPrefix(u: string): (r: Option<(real, nat)>)
    ensures r.Some? ==> r.value.0 >= 0.0
    ensures |u| > 0 && IsDigit(u[0]) ==> r.Some?
  {
    var i := RunEnd(u, 0, IsDigit);
    RunEndSlice(u, 0, IsDigit);
    var j := if i < |u| && u[i] == '.' then (RunEndSlice(u, i + 1, IsDigit); RunEnd(u, i + 1, IsDigit)) else i;
    var frac := if i < |u| && u[i] == '.' then u[i + 1..j] else "";
    if i == 0 && |frac| == 0 then None
    else
      var f := DigitsValue(frac) as real / Pow10(|frac|) as real;
      assert f >= 0.0 by { DivNonNeg(DigitsValue(frac) as real, Pow10(|frac|) as real); }
      Some((DigitsValue(u[..i]) as real + f, j))
  }

  lemma DivNonNeg(x: real, y: real)
    requires x >= 0.0 && y > 0.0
    ensures x / y >= 0.0
  {
  }

  /** An exponent part `e[+-]digits` at `k`, as a signed power of ten. */
  function ExponentAt(u: string, k: nat): Option<int>
    requires k <= |u|
  {
    if k < |u| && (u[k] == 'e' || u[k] == 'E') then
      var neg := k + 1 < |u| && u[k + 1] == '-';
      var d := if k + 1 < |u| && (u[k + 1] == '-' || u[k + 1] == '+') then k + 2 else k + 1;
      var e := RunEnd(u, d, IsDigit);
      RunEndSlice(u, d, IsDigit);
      if e == d then None
      else Some(if neg then -(DigitsValue(u[d..e]) as int) else DigitsValue(u[d..e]) as int)
    else None
  }

  function Scale(x: real, e: int): real
  {
    if e >= 0 then x * Pow10(e) as real else x / Pow10(-e) as real
  }

  /** The value of an unsigned decimal literal at the start of `u`, exponent included. */
  function UnsignedPrefix(u: string): Option<real>
  {
    match DecimalPrefix(u)
    case None => None
    case Some((m, k)) =>
      match ExponentAt(u, k)
      case Some(e) => Some(Scale(m, e))
      case None => Some(m)
  }

  /** `parseFloat(s)`: skip leading white space, read an optional sign and the
      longest decimal literal `digits[.digits][e[+-]digits]` (also `.digits`);
      None (NaN) when there is none. */
  function ParseFloat(s: string): Option<real>
  {
    var t := TrimStart(s);
    if |t| > 0 && (t[0] == '-' || t[0] == '+') then
      match UnsignedPrefix(t[1..])
      case None => None
      case Some(x) => Some(if t[0] == '-' then -x else x)
    else UnsignedPrefix(t)
  }

  lemma {:induction false} DecimalPrefixOfDigits(s: string)
    requires All(s, IsDigit) && s != ""
    ensures DecimalPrefix(s) == Some((DigitsValue(s) as real, |s|))
  {
    RunEndFull(s, 0, IsDigit);
    assert s[..|s|] == s;
  }

  /** A plain digit string reads as its decimal value; the empty string is NaN. */
  lemma {:induction false} ParseFloatOfDigits(s: string)
    requires All(s, IsDigit)
    ensures ParseFloat(s) == if s == "" then None else Some(DigitsValue(s) as real)
  {
    if s != "" {
      assert TrimStart(s) == s;
      DecimalPrefixOfDigits(s);
      assert ExponentAt(s, |s|) == None;
    } else {
      assert RunEnd(s, 0, IsDigit) == 0;
    }
  }

  lemma {:induction false} ScaleNonNeg(m: real, e: int)
    requires m >= 0.0
    ensures Scale(m, e) >= 0.0
  {
    if e < 0 { DivNonNeg(m, Pow10(-e) as real); }
  }

  lemma {:induction false} UnsignedPrefixNonNeg(u: string)
    requires DecimalPrefix(u).Some?
    ensures UnsignedPrefix(u).Some? && UnsignedPrefix(u).value >= 0.0
  {
    var m, k := DecimalPrefix(u).value.0, DecimalPrefix(u).value.1;
    match ExponentAt(u, k)
    case Some(e) => ScaleNonNeg(m, e);
    case None =>
  }

  /** A string that starts with a digit reads as a number, and a non-negative one. */
  lemma {:induction false} ParseFloatOfDigitLed(u: string)
    requires |u| > 0 && IsDigit(u[0])
    ensures ParseFloat(u).Some? && ParseFloat(u).value >= 0.0
  {
    TrimStartAtDigit(u);
    ParseFloatUnsigned(u);
    UnsignedPrefixNonNeg(u);
  }

  lemma TrimStartAtDigit(u: string)
    requires |u| > 0 && IsDigit(u[0])
    ensures TrimStart(u) == u
  {
    assert !IsWs(u[0]);
  }

  /** Without leading white space or sign, `parseFloat` reads the unsigned literal. */
  lemma ParseFloatUnsigned(u: string)
    requires TrimStart(u) == u && (|u| == 0 || (u[0] != '-' && u[0] != '+'))
    ensures ParseFloat(u) == UnsignedPrefix(u)
  {
  }

  /** The total read from a total capture:
      `parseFloat(capture.replace(/\s+/g, '').replace(',', '.'))`. */
  function SumValue(capture: string): Option<real>
  {
    ParseFloat(ReplaceFirst(NonWs(capture), ',', '.'))
  }

  /** `digits.digits` followed by text that neither continues the fraction nor
      starts an exponent reads as the whole part plus the fraction; whatever
      follows is ignored. With an empty fraction, `12.` reads as 12. */
  lemma ParseFloatOfDecimal(d1: string, d2: string, rest: string)
    requires d1 != "" && All(d1, IsDigit) && All(d2, IsDigit)
    requires rest == "" || (!IsDigit(rest[0]) && rest[0] != 'e' && rest[0] != 'E')
    ensures ParseFloat(d1 + "." + d2 + rest) ==
      Some(PointValue(d1, d2))
  {
    var u := d1 + "." + d2 + rest;
    var i, j := |d1|, |d1| + 1 + |d2|;
    DecimalParts(d1, d2, rest);
    RunEndAt(u, 0, i, IsDigit);
    RunEndAt(u, i + 1, j, IsDigit);
    DecimalPrefixPoint(u, i, j);
    TrimStartAtDigit(u);
    ParseFloatUnsigned(u);
    ExponentAbsent(u, j);
    assert u[..i] == d1 && u[i + 1..j] == d2;
    UnsignedPrefixPlain(u, PointValue(d1, d2), j);
  }

  /** The value of `whole.frac` in decimal notation: the whole part plus the
      fraction's digits over ten to the power of their count. */
  function PointValue(whole: string, frac: string): real
    requires All(whole, IsDigit) && All(frac, IsDigit)
  {
    DigitsValue(whole) as real + DigitsValue(frac) as real / Pow10(|frac|) as real
  }

  lemma UnsignedPrefixPlain(u: string, m: real, k: nat)
    requires DecimalPrefix(u) == Some((m, k)) && k <= |u| && ExponentAt(u, k) == None
    ensures UnsignedPrefix(u) == Some(m)
  {
  }

  lemma ExponentAbsent(u: string, k: nat)
    requires k <= |u| && (k == |u| || (u[k] != 'e' && u[k] != 'E'))
    ensures ExponentAt(u, k) == None
  {
  }

  /** `DecimalPrefix` on a digit run that ends at a point, then a second run. */
  lemma DecimalPrefixPoint(u: string, i: nat, j: nat)
    requires 0 < i < j <= |u| && u[i] == '.'
    requires RunEnd(u, 0, IsDigit) == i && RunEnd(u, i + 1, IsDigit) == j
    requires All(u[..i], IsDigit) && All(u[i + 1..j], IsDigit)
    ensures DecimalPrefix(u) == Some((PointValue(u[..i], u[i + 1..j]), j))
  {
  }

  /** Where the parts of `d1 + "." + d2 + rest` lie. */
  lemma DecimalParts(d1: string, d2: string, rest: string)
    requires d1 != "" && All(d1, IsDigit) && All(d2, IsDigit)
    requires rest == "" || (!IsDigit(rest[0]) && rest[0] != 'e' && rest[0] != 'E')
    ensures var u := d1 + "." + d2 + rest; var i, j := |d1|, |d1| + 1 + |d2|;
      j <= |u| && u[..i] == d1 && u[i] == '.' && u[i + 1..j] == d2 &&
      (forall k :: 0 <= k < i ==> IsDigit(u[k])) && (forall k :: i + 1 <= k < j ==> IsDigit(u[k])) &&
      (j == |u| || (!IsDigit(u[j]) && u[j] != 'e' && u[j] != 'E')) && IsDigit(u[0])
  {
    var u := d1 + "." + d2 + rest;
    assert u == d1 + ("." + d2 + rest);
    assert u[|d1| + 1..] == d2 + rest;
  }

  /** A total capture whose text without white space is a plain digit string
      reads as that string's decimal value: the white space between digit
      groups (as in `10 000`) is dropped. */
  lemma SumValueOfDigits(capture: string)
    requires NonWs(capture) != "" && All(NonWs(capture), IsDigit)
    ensures SumValue(capture) == Some(DigitsValue(NonWs(capture)) as real)
  {
    ReplaceFirstAbsent(NonWs(capture), ',', '.');
    ParseFloatOfDigits(NonWs(capture));
  }

  /** A total capture whose text without white space is `d1,d2` reads with the
      comma as the decimal point. */
  lemma SumValueOfDecimalComma(capture: string, d1: string, d2: string)
    requires d1 != "" && All(d1, IsDigit) && All(d2, IsDigit)
    requires NonWs(capture) == d1 + "," + d2
    ensures SumValue(capture) == Some(PointValue(d1, d2))
  {
    ReplaceFirstSkip(d1, "," + d2, ',', '.');
    assert ReplaceFirst("," + d2, ',', '.') == "." + d2;
    assert d1 + "," + d2 == d1 + ("," + d2);
    assert d1 + "." + d2 + "" == d1 + ("." + d2);
    ParseFloatOfDecimal(d1, d2, "");
  }

  /** A total capture whose text without white space is `d1.d2` followed by text
      that is neither a digit nor an exponent reads as `d1.d2`: the period is a
      decimal point, so `10.000` reads as 10, and what follows the fraction is
      ignored, so `1.000,50` reads as 1. */
  lemma SumValueOfDecimalPoint(capture: string, d1: string, d2: string, rest: string)
    requires d1 != "" && All(d1, IsDigit) && All(d2, IsDigit)
    requires rest == "" || (!IsDigit(rest[0]) && rest[0] != 'e' && rest[0] != 'E')
    requires NonWs(capture) == d1 + "." + d2 + rest
    ensures SumValue(capture) == Some(PointValue(d1, d2))
  {
    var tail := ReplaceFirst(rest, ',', '.');
    assert ',' !in d1 + "." + d2;
    ReplaceFirstSkip(d1 + "." + d2, rest, ',', '.');
    assert tail == "" || tail[0] == rest[0] || tail[0] == '.';
    ParseFloatOfDecimal(d1, d2, tail);
  }

  /** Replacing the first `from` skips a head that has none. */
  lemma {:induction false} ReplaceFirstSkip(a: string, b: string, from: char, to: char)
    requires from !in a
    ensures ReplaceFirst(a + b, from, to) == a + ReplaceFirst(b, from, to)
  {
    if |a| > 0 {
      assert (a + b)[1..] == a[1..] + b;
      ReplaceFirstSkip(a[1..], b, from, to);
      assert a + ReplaceFirst(b, from, to) == [a[0]] + (a[1..] + ReplaceFirst(b, from, to));
    } else {
      assert a + b == b;
    }
  }

  /** Two digit groups separated by white space, as in `10 000`, read as one
      number: the first group's value scaled past the second, plus the second. */
  lemma SumValueOfGroups(a: string, w: string, b: string)
    requires a != "" && All(a, IsDigit) && All(b, IsDigit)
    requires w != "" && All(w, IsWs)
    ensures SumValue(a + w + b) == Some((DigitsValue(a) * Pow10(|b|) + DigitsValue(b)) as real)
  {
    NonWsGroups(a, w, b);
    AllAppend(a, b, IsDigit);
    SumValueOfDigits(a + w + b);
    DigitsValueAppend(a, b);
    var v: nat := DigitsValue(a + b);
    assert SumValue(a + w + b) == Some(v as real);
    assert v == DigitsValue(a) * Pow10(|b|) + DigitsValue(b);
  }

  lemma NonWsGroups(a: string, w: string, b: string)
    requires All(a, IsDigit) && All(b, IsDigit) && All(w, IsWs)
    ensures NonWs(a + w + b) == a + b
  {
    NonWsAppend(a + w, b);
    NonWsAppend(a, w);
    NonWsOfWs(w);
    NonWsOfDigits(a);
    NonWsOfDigits(b);
    AppendEmpty(a);
  }

  /** The value of two digit strings written one after the other. */
  lemma {:induction false} DigitsValueAppend(a: string, b: string)
    requires All(a, IsDigit) && All(b, IsDigit)
    ensures All(a + b, IsDigit) && DigitsValue(a + b) == DigitsValue(a) * Pow10(|b|) + DigitsValue(b)
    decreases |b|
  {
    AllAppend(a, b, IsDigit);
    if |b| == 0 {
      AppendEmpty(a);
    } else {
      var init, d := b[..|b| - 1], b[|b| - 1];
      SnocParts(a, b);
      DigitsValueAppend(a, init);
      var x, p, y := DigitsValue(a), Pow10(|init|), DigitsValue(init);
      assert DigitsValue(a + b) == (x * p + y) * 10 + DigitValue(d);
      ShiftDigit(x, p, y);
      assert Pow10(|b|) == 10 * p && DigitsValue(b) == y * 10 + DigitValue(d);
    }
  }

  lemma ShiftDigit(x: int, p: int, y: int)
    ensures (x * p + y) * 10 == x * (10 * p) + y * 10
  {
  }

  lemma SnocParts(a: string, b: string)
    requires |b| > 0
    ensures (a + b)[..|a + b| - 1] == a + b[..|b| - 1] && (a + b)[|a + b| - 1] == b[|b| - 1]
  {
  }

  lemma AllAppend(a: string, b: string, P: char -> bool)
    requires All(a, P) && All(b, P)
    ensures All(a + b, P)
  {
  }

  lemma {:induction false} NonWsOfDigits(d: string)
    requires All(d, IsDigit)
    ensures NonWs(d) == d
  {
    if |d| > 0 {
      NonWsOfDigits(d[1..]);
      assert d == [d[0]] + d[1..];
    }
  }

  /** A total capture starts with a digit, so it always yields a number, and one
      that is at least zero. */
  lemma {:induction false} SumValueOfDigitLed(capture: string)
    requires |capture| > 0 && IsDigit(capture[0])
    ensures SumValue(capture).Some? && SumValue(capture).value >= 0.0
  {
    var t := ReplaceFirst(NonWs(capture), ',', '.');
    assert NonWs(capture)[0] == capture[0];
    assert t[0] == capture[0];
    ParseFloatOfDigitLed(t);
  }
}
