/** JavaScript's `parseInt` (sign, `0x` prefix, decimal and hexadecimal digit runs),
    `parseFloat` on the inputs the extractors give it (digit runs with an optional
    fraction), and decimal number-to-text conversion. */
module Numbers {
  import opened Wrappers
  import opened Strings

  predicate IsDigit(c: char) {
    '0' <= c <= '9'
  }

  predicate AllDigits(s: string) {
    forall i :: 0 <= i < |s| ==> IsDigit(s[i])
  }

  function DigitValue(c: char): nat
    requires IsDigit(c)
  {
    c as int - '0' as int
  }

  function DigitChar(d: nat): (c: char)
    requires d < 10
    ensures IsDigit(c) && DigitValue(c) == d
  {
    ('0' as int + d) as char
  }

  function Pow10(n: nat): (p: nat)
    ensures p >= 1
  {
    if n == 0 then 1 else 10 * Pow10(n - 1)
  }

  /** Length of the run of decimal digits at the start of `s`. */
  function LeadingDigits(s: string): (n: nat)
    ensures n <= |s|
    ensures n < |s| ==> !IsDigit(s[n])
  {
    if s == [] || !IsDigit(s[0]) then 0
    else
      1 + LeadingDigits(s[1..])
  }

  lemma {:induction false} LeadingDigitsAll(s: string)
    ensures AllDigits(s[..LeadingDigits(s)])
    decreases |s|
  {
    if s != [] && IsDigit(s[0]) {
      LeadingDigitsAll(s[1..]);
      assert s[..LeadingDigits(s)] == [s[0]] + s[1..][..LeadingDigits(s[1..])];
    }
  }

  /** The value of a digit string read in base ten (most significant digit first). */
  function DigitsValue(s: string): nat
    requires AllDigits(s)
  {
    if s == [] then 0 else 10 * DigitsValue(s[..|s| - 1]) + DigitValue(s[|s| - 1])
  }

  /** Reading the concatenation of two digit strings shifts the first by the length of the second. */
  lemma {:induction false} DigitsValueAppend(a: string, b: string)
    requires AllDigits(a) && AllDigits(b)
    ensures AllDigits(a + b)
    ensures DigitsValue(a + b) == DigitsValue(a) * Pow10(|b|) + DigitsValue(b)
    decreases |b|
  {
    assert AllDigits(a + b);
    if b != [] {
      var b' := b[..|b| - 1];
      assert (a + b)[..|a + b| - 1] == a + b';
      assert (a + b)[|a + b| - 1] == b[|b| - 1];
      DigitsValueAppend(a, b');
      var x, p, y, d := DigitsValue(a), Pow10(|b'|), DigitsValue(b'), DigitValue(b[|b| - 1]);
      assert DigitsValue(a + b') == x * p + y;
      assert DigitsValue(a + b) == 10 * DigitsValue(a + b') + d;
      ShiftStep(x, p, y, d, Pow10(|b|), DigitsValue(b));
    } else {
      assert a + b == a;
    }
  }

  lemma ShiftStep(x: int, p: int, y: int, d: int, q: int, z: int)
    requires q == 10 * p && z == 10 * y + d
    ensures 10 * (x * p + y) + d == x * q + z
  {
  }

  /** `String(n)` for a natural number: its decimal digits, without leading zeros. */
  function NatToString(n: nat): (s: string)
    ensures |s| >= 1 && AllDigits(s)
    ensures DigitsValue(s) == n
  {
    if n < 10 then [DigitChar(n)]
    else
      var s := NatToString(n / 10) + [DigitChar(n % 10)];
      assert s[..|s| - 1] == NatToString(n / 10);
      s
  }

  predicate IsHexDigit(c: char) {
    IsDigit(c) || 'a' <= c <= 'f' || 'A' <= c <= 'F'
  }

  predicate AllHexDigits(s: string) {
    forall i :: 0 <= i < |s| ==> IsHexDigit(s[i])
  }

  function HexDigitValue(c: char): (d: nat)
    requires IsHexDigit(c)
    ensures d < 16
  {
    if IsDigit(c) then DigitValue(c)
    else if 'a' <= c <= 'f' then c as int - 'a' as int + 10
    else c as int - 'A' as int + 10
  }

  /** Length of the run of hexadecimal digits at the start of `s`. */
  function LeadingHexDigits(s: string): (n: nat)
    ensures n <= |s|
    ensures n < |s| ==> !IsHexDigit(s[n])
    ensures AllHexDigits(s[..n])
  {
    if s == [] || !IsHexDigit(s[0]) then 0
    else
      var n := 1 + LeadingHexDigits(s[1..]);
      assert s[..n] == [s[0]] + s[1..][..n - 1];
      n
  }

  /** The value of a hexadecimal digit string (most significant digit first). */
  function HexValue(s: string): nat
    requires AllHexDigits(s)
  {
    if s == [] then 0 else 16 * HexValue(s[..|s| - 1]) + HexDigitValue(s[|s| - 1])
  }

  /** `0x` or `0X`: the prefix that switches `parseInt` to base sixteen. */
  predicate HexPrefixed(u: string) {
    |u| >= 2 && u[0] == '0' && (u[1] == 'x' || u[1] == 'X')
  }

  /** The magnitude `parseInt` reads after the sign: the hexadecimal digits after a `0x`
      prefix, else the decimal digits; `None` when that run is empty. */
  function ParseMagnitude(u: string): Option<nat> {
    if HexPrefixed(u) then
      var n := LeadingHexDigits(u[2..]);
      if n == 0 then None else Some(HexValue(u[2..][..n]))
    else
      var n := LeadingDigits(u);
      LeadingDigitsAll(u);
      if n == 0 then None else Some(DigitsValue(u[..n]))
  }

  /** `parseInt(s)` without a radix: leading white space skipped, an optional `-` or `+`,
      then the magnitude; `None` stands for `NaN` (no digit there). */
  function ParseInt(s: string): Option<int> {
    var t := s[LeadingWhitespace(s)..];
    var signed := t != [] && (t[0] == '-' || t[0] == '+');
    var magnitude := ParseMagnitude(if signed then t[1..] else t);
    match magnitude
    case None => None
    case Some(k) => Some(if signed && t[0] == '-' then -(k as int) else k as int)
  }

  /** `parseFloat(s)`: leading white space skipped, then digits with an optional fraction,
      read exactly; `None` stands for `NaN`. */
  function ParseFloat(s: string): Option<real> {
    ParseDecimal(s[LeadingWhitespace(s)..])
  }

  /** The number at the very start of `t`: a digit run, optionally followed by a point and
      fraction digits, worth all those digits read as one integer and scaled down by the
      number of fraction digits. */
  function ParseDecimal(t: string): Option<real> {
    var n := LeadingDigits(t);
    LeadingDigitsAll(t);
    var f := FractionAfter(t, n);
    AllDigitsAppend(t[..n], f);
    if n == 0 then None else Some(Scaled(DigitsValue(t[..n] + f), |f|))
  }

  /** The fraction digits after a point at index `n` of `t`; none without a point there. */
  function FractionAfter(t: string, n: nat): (f: string)
    requires n <= |t|
    ensures AllDigits(f)
  {
    if n < |t| && t[n] == '.' then
      var rest := t[n + 1..];
      LeadingDigitsAll(rest);
      rest[..LeadingDigits(rest)]
    else []
  }

  lemma AllDigitsAppend(a: string, b: string)
    requires AllDigits(a) && AllDigits(b)
    ensures AllDigits(a + b)
  {
  }

  /** Text that `[0-9]+\.?[0-9]*` matches in full. */
  predicate IsNumeral(s: string) {
    var n := LeadingDigits(s);
    n >= 1 && (n == |s| || (s[n] == '.' && AllDigits(s[n + 1..])))
  }

  /** Digits of a numeral with its decimal point removed. */
  function NumeralDigits(s: string): string
    requires IsNumeral(s)
  {
    var n := LeadingDigits(s);
    if n == |s| then s else s[..n] + s[n + 1..]
  }

  /** Number of digits after the decimal point of a numeral. */
  function FractionLength(s: string): nat
    requires IsNumeral(s)
  {
    var n := LeadingDigits(s);
    if n == |s| then 0 else |s| - n - 1
  }

  /** The exact value of a numeral: all its digits read as one integer, scaled down by the
      number of fraction digits ("10.5" is 105 / 10). */
  function NumeralValue(s: string): real
    requires IsNumeral(s)
  {
    var n := LeadingDigits(s);
    LeadingDigitsAll(s);
    assert n < |s| ==> AllDigits(s[..n] + s[n + 1..]);
    Scaled(DigitsValue(NumeralDigits(s)), FractionLength(s))
  }

  /** `k` divided by ten to the power `places`, one place at a time. */
  function Scaled(k: nat, places: nat): real {
    if places == 0 then k as real else Scaled(k, places - 1) / 10.0
  }

  lemma {:induction false} ScaledNonNegative(k: nat, places: nat)
    ensures Scaled(k, places) >= 0.0
  {
    if places > 0 {
      ScaledNonNegative(k, places - 1);
    }
  }

  /** A numeral is worth zero or more. */
  lemma NumeralNonNegative(s: string)
    requires IsNumeral(s)
    ensures NumeralValue(s) >= 0.0
  {
    LeadingDigitsAll(s);
    assert LeadingDigits(s) < |s| ==> AllDigits(s[..LeadingDigits(s)] + s[LeadingDigits(s) + 1..]);
    ScaledNonNegative(DigitsValue(NumeralDigits(s)), FractionLength(s));
  }

  /** Any text `[0-9]+\.?[0-9]*` captured parses, with `parseFloat`, to its exact value. */
  lemma ParseFloatNumeral(s: string)
    requires IsNumeral(s)
    ensures ParseFloat(s) == Some(NumeralValue(s))
  {
    NumeralStartsWithDigit(s);
    WholeSlices(s);
    NumeralParts(s);
  }

  lemma NumeralStartsWithDigit(s: string)
    requires IsNumeral(s)
    ensures LeadingWhitespace(s) == 0
  {
    assert IsDigit(s[0]);
  }

  /** What `parseFloat` reads from a numeral are its digits and its fraction length. */
  lemma NumeralParts(s: string)
    requires IsNumeral(s)
    ensures var n := LeadingDigits(s);
      && s[..n] + FractionAfter(s, n) == NumeralDigits(s)
      && |FractionAfter(s, n)| == FractionLength(s)
  {
    var n := LeadingDigits(s);
    if n < |s| {
      FractionDigits(s[n + 1..]);
    } else {
      WholeSlices(s);
      assert s[..n] + [] == s;
    }
  }

  lemma WholeSlices(s: string)
    ensures s[0..] == s && s[..|s|] == s
  {
  }

  /** A digit run is read whole: its leading digits are all of it. */
  lemma FractionDigits(frac: string)
    requires AllDigits(frac)
    ensures LeadingDigits(frac) == |frac| && frac[..|frac|] == frac
  {
    LeadingDigitsPrefix(frac, []);
    assert frac + [] == frac;
  }

  /** A natural number written out is a numeral worth that number. */
  lemma IntegerNumeral(n: nat)
    ensures IsNumeral(NatToString(n)) && NumeralValue(NatToString(n)) == n as real
  {
    var s := NatToString(n);
    LeadingDigitsPrefix(s, []);
    assert s + [] == s;
  }

  /** `<w>.<d>`: a whole number and one decimal digit. */
  function DecimalText(w: nat, d: nat): string
    requires d < 10
  {
    NatToString(w) + "." + [DigitChar(d)]
  }

  /** `<w>.<d>` is a numeral worth its digits `10 * w + d` read as tenths. */
  lemma DecimalNumeral(w: nat, d: nat)
    requires d < 10
    ensures IsNumeral(DecimalText(w, d))
    ensures NumeralValue(DecimalText(w, d)) == Scaled(10 * w + d, 1)
  {
    var whole := NatToString(w);
    var s := DecimalText(w, d);
    LeadingDigitsPrefix(whole, "." + [DigitChar(d)]);
    assert s == whole + ("." + [DigitChar(d)]);
    var n := |whole|;
    assert s[n] == '.';
    assert s[n + 1..] == [DigitChar(d)];
    assert s[..n] == whole;
    assert NumeralDigits(s) == whole + [DigitChar(d)];
    DigitsValueAppend(whole, [DigitChar(d)]);
    assert DigitsValue([DigitChar(d)]) == d by {
      assert [DigitChar(d)][..0] == [];
    }
    assert Pow10(1) == 10;
    assert DigitsValue(NumeralDigits(s)) == 10 * w + d;
    assert FractionLength(s) == 1;
  }

  /** A numeral is made of digits and at most one point: it holds no hyphen. */
  lemma NumeralHasNoHyphen(s: string)
    requires IsNumeral(s)
    ensures '-' !in s
  {
    var n := LeadingDigits(s);
    LeadingDigitsAll(s);
    forall i | 0 <= i < |s|
      ensures s[i] != '-'
    {
      if i < n {
        assert s[..n][i] == s[i];
      } else if i > n {
        assert s[n + 1..][i - n - 1] == s[i];
      }
    }
  }

  /** Text that starts with neither white space nor a digit is not a number (`isNaN`). */
  lemma ParseFloatNonNumeric(s: string)
    requires s != [] && !IsWhitespace(s[0]) && !IsDigit(s[0])
    ensures ParseFloat(s).None?
  {
    assert LeadingWhitespace(s) == 0;
    WholeSlices(s);
  }

  /** Text that starts with neither white space nor a digit is not an integer (`parseInt`
      gives `NaN`). */
  lemma ParseIntNonNumeric(s: string)
    requires s != [] && !IsWhitespace(s[0]) && !IsDigit(s[0]) && s[0] != '-' && s[0] != '+'
    ensures ParseInt(s).None?
  {
    assert LeadingWhitespace(s) == 0;
    assert s[0..] == s;
  }

  /** The text `String(n)` reads back as `n`, with `parseInt`, whatever text follows that
      neither continues the digits nor turns a lone `0` into a `0x` prefix. */
  lemma ParseIntNatToString(n: nat, suffix: string)
    requires suffix == [] || (!IsDigit(suffix[0]) && suffix[0] != 'x' && suffix[0] != 'X')
    ensures ParseInt(NatToString(n) + suffix) == Some(n)
  {
    var t := NatToString(n) + suffix;
    MagnitudeOfNatToString(n, suffix);
    assert LeadingWhitespace(t) == 0;
    assert t[0..] == t;
  }

  /** A sign in front of `String(n)` is read as the sign of the result. */
  lemma ParseIntSigned(sign: char, n: nat, suffix: string)
    requires sign == '-' || sign == '+'
    requires suffix == [] || (!IsDigit(suffix[0]) && suffix[0] != 'x' && suffix[0] != 'X')
    ensures ParseInt([sign] + NatToString(n) + suffix) == Some(if sign == '-' then -(n as int) else n as int)
  {
    var u := NatToString(n) + suffix;
    var t := [sign] + NatToString(n) + suffix;
    MagnitudeOfNatToString(n, suffix);
    assert LeadingWhitespace(t) == 0;
    assert t[0..] == t;
    assert t[1..] == u;
  }

  /** The digits of `String(n)` are read as `n`, without a `0x` prefix. */
  lemma MagnitudeOfNatToString(n: nat, suffix: string)
    requires suffix == [] || (!IsDigit(suffix[0]) && suffix[0] != 'x' && suffix[0] != 'X')
    ensures var t := NatToString(n) + suffix;
      IsDigit(t[0]) && ParseMagnitude(t) == Some(n)
  {
    var s := NatToString(n);
    var t := s + suffix;
    if |t| >= 2 {
      assert t[1] == if |s| >= 2 then s[1] else suffix[0];
    }
    assert !HexPrefixed(t);
    LeadingDigitsPrefix(s, suffix);
    assert t[..|s|] == s;
  }

  /** After a `0x` prefix the hexadecimal digits are read in base sixteen, up to the first
      character that is not one. */
  lemma ParseIntHex(x: char, h: string, suffix: string)
    requires x == 'x' || x == 'X'
    requires h != [] && AllHexDigits(h)
    requires suffix == [] || !IsHexDigit(suffix[0])
    ensures ParseInt(['0', x] + h + suffix) == Some(HexValue(h))
  {
    var t := ['0', x] + h + suffix;
    assert LeadingWhitespace(t) == 0;
    assert t[0..] == t;
    assert HexPrefixed(t);
    assert t[2..] == h + suffix;
    LeadingHexDigitsPrefix(h, suffix);
    assert (h + suffix)[..|h|] == h;
  }

  lemma {:induction false} LeadingHexDigitsPrefix(h: string, suffix: string)
    requires AllHexDigits(h)
    requires suffix == [] || !IsHexDigit(suffix[0])
    ensures LeadingHexDigits(h + suffix) == |h|
    decreases |h|
  {
    if h != [] {
      assert (h + suffix)[1..] == h[1..] + suffix;
      LeadingHexDigitsPrefix(h[1..], suffix);
    }
  }

  lemma {:induction false} LeadingDigitsPrefix(s: string, suffix: string)
    requires AllDigits(s)
    requires suffix == [] || !IsDigit(suffix[0])
    ensures LeadingDigits(s + suffix) == |s|
    decreases |s|
  {
    if s != [] {
      assert (s + suffix)[1..] == s[1..] + suffix;
      LeadingDigitsPrefix(s[1..], suffix);
    }
  }

  /** A number written between a prefix and a text that does not start with a digit reads back
      after the prefix. */
  lemma ParseIntBetween(start: string, n: nat, end: string)
    requires end == [] || (!IsDigit(end[0]) && end[0] != 'x' && end[0] != 'X')
    ensures var t := start + NatToString(n) + end;
      |start| <= |t| && t[..|start|] == start && ParseInt(t[|start|..]) == Some(n)
  {
    ConcatAssoc(start, NatToString(n), end);
    AppendSlices(start, NatToString(n) + end);
    ParseIntNatToString(n, end);
  }
}
