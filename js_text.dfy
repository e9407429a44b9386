/** The JavaScript string operations the pages rely on: `trim`, the
    emptiness test `!s.trim()`, `toLowerCase`, `includes` and `parseFloat`
    (with `isNaN` of its result). */
module JsText {
  import opened Common

  // ---------------------------------------------------------------------------
  // White space, as `String.prototype.trim` and `parseFloat` skip it
  // (ECMAScript WhiteSpace and LineTerminator code points)

  predicate IsJsWhitespace(c: char) {
    var n := c as int;
    n == 0x09 || n == 0x0A || n == 0x0B || n == 0x0C || n == 0x0D || n == 0x20
    || n == 0xA0 || n == 0x1680 || (0x2000 <= n <= 0x200A) || n == 0x2028 || n == 0x2029
    || n == 0x202F || n == 0x205F || n == 0x3000 || n == 0xFEFF
  }

  predicate AllWhitespace(s: string) {
    forall i :: 0 <= i < |s| ==> IsJsWhitespace(s[i])
  }

  /** The number of white-space characters `s` starts with. */
  function LeadingWhitespace(s: string): (n: nat)
    ensures n <= |s|
    ensures AllWhitespace(s[..n])
    ensures n < |s| ==> !IsJsWhitespace(s[n])
  {
    if s == [] || !IsJsWhitespace(s[0]) then 0
    else
      var k := LeadingWhitespace(s[1..]);
      assert s[..k + 1] == [s[0]] + s[1..][..k];
      k + 1
  }

  /** The number of white-space characters `s` ends with. */
  function TrailingWhitespace(s: string): (n: nat)
    ensures n <= |s|
    ensures AllWhitespace(s[|s| - n..])
    ensures n < |s| ==> !IsJsWhitespace(s[|s| - n - 1])
  {
    if s == [] || !IsJsWhitespace(s[|s| - 1]) then 0
    else
      var init := s[..|s| - 1];
      var k := TrailingWhitespace(init);
      assert s[|s| - (k + 1)..] == init[|init| - k..] + [s[|s| - 1]];
      k + 1
  }

  /** `s.trim()`: the slice of `s` between its leading and its trailing white
      space. */
  function Trim(s: string): (t: string)
    ensures exists i, j :: (0 <= i <= j <= |s| && t == s[i..j]
      && AllWhitespace(s[..i]) && AllWhitespace(s[j..]))
    ensures t != [] ==> !IsJsWhitespace(t[0]) && !IsJsWhitespace(t[|t| - 1])
  {
    var i := LeadingWhitespace(s);
    if i == |s| then
      assert AllWhitespace(s[|s|..]);
      s[|s|..]
    else
      var rest := s[i..];
      var k := TrailingWhitespace(rest);
      assert !IsJsWhitespace(rest[0]);
      assert s[i + |rest| - k..] == rest[|rest| - k..];
      s[i..|s| - k]
  }

  /** `!s.trim()`: nothing but white space (see TrimEmptyIffBlank). */
  predicate IsBlank(s: string) {
    AllWhitespace(s)
  }

  /** Trimming leaves nothing exactly when every character is white space. */
  lemma TrimEmptyIffBlank(s: string)
    ensures Trim(s) == "" <==> IsBlank(s)
  {
    var t := Trim(s);
    var i, j :| 0 <= i <= j <= |s| && t == s[i..j] && AllWhitespace(s[..i]) && AllWhitespace(s[j..]);
    if t == "" {
      forall k | 0 <= k < |s| ensures IsJsWhitespace(s[k]) {
        if k < i { assert s[k] == s[..i][k]; } else { assert s[k] == s[j..][k - j]; }
      }
    }
    if t != "" {
      assert t[0] == s[i];
    }
  }

  // ---------------------------------------------------------------------------
  // Lower case

  /** `toLowerCase` on one character, for the Latin letters: A-Z and the
      Latin-1 capitals U+00C0-U+00DE except the multiplication sign. */
  function LowerChar(c: char): (d: char) {
    var n := c as int;
    if ('A' as int <= n <= 'Z' as int) || (0xC0 <= n <= 0xDE && n != 0xD7) then (n + 32) as char else c
  }

  predicate IsUpperLatin(c: char) {
    var n := c as int;
    ('A' as int <= n <= 'Z' as int) || (0xC0 <= n <= 0xDE && n != 0xD7)
  }

  function ToLower(s: string): (t: string)
    ensures |t| == |s|
    ensures forall i :: 0 <= i < |s| ==> t[i] == LowerChar(s[i])
  {
    seq(|s|, i requires 0 <= i < |s| => LowerChar(s[i]))
  }

  /** Lower-casing leaves no capital and changes nothing else. */
  lemma LowerCharSpec(c: char)
    ensures !IsUpperLatin(LowerChar(c))
    ensures !IsUpperLatin(c) ==> LowerChar(c) == c
    ensures IsUpperLatin(c) ==> LowerChar(c) as int == c as int + 32
  {
  }

  /** Lower-casing twice is lower-casing once. */
  lemma ToLowerIdempotent(s: string)
    ensures ToLower(ToLower(s)) == ToLower(s)
  {
    forall i | 0 <= i < |s| ensures ToLower(ToLower(s))[i] == ToLower(s)[i] {
      LowerCharSpec(s[i]);
    }
  }

  // ---------------------------------------------------------------------------
  // Substring search

  predicate OccursAt(s: string, t: string, i: int) {
    0 <= i && i + |t| <= |s| && s[i..i + |t|] == t
  }

  /** `s.includes(t)`. */
  function Includes(s: string, t: string): (b: bool)
    ensures b <==> exists i :: OccursAt(s, t, i)
    decreases |s|
  {
    if |t| > |s| then false
    else if s[..|t|] == t then
      assert OccursAt(s, t, 0);
      true
    else
      OccursShift(s, t);
      Includes(s[1..], t)
  }

  /** An occurrence past the first character of `s` is an occurrence in
      `s[1..]`, one place earlier. */
  lemma OccursShift(s: string, t: string)
    requires |s| > 0
    ensures forall i :: 0 <= i ==> (OccursAt(s[1..], t, i) <==> OccursAt(s, t, i + 1))
    ensures (exists i :: OccursAt(s, t, i)) <==> OccursAt(s, t, 0) || exists i :: OccursAt(s[1..], t, i)
  {
    forall i | 0 <= i && i + |t| <= |s| - 1
      ensures OccursAt(s[1..], t, i) <==> OccursAt(s, t, i + 1)
    {
      assert s[1..][i..i + |t|] == s[i + 1..i + 1 + |t|];
    }
    if exists i :: OccursAt(s, t, i) {
      var i :| OccursAt(s, t, i);
      if i > 0 { assert OccursAt(s[1..], t, i - 1); }
    }
  }

  /** Every string contains the empty string and itself. */
  lemma IncludesEmptyAndSelf(s: string)
    ensures Includes(s, "") && Includes(s, s)
  {
    assert OccursAt(s, "", 0);
    assert OccursAt(s, s, 0);
  }

  // ---------------------------------------------------------------------------
  // parseFloat

  /** A JavaScript number as `parseFloat` can return it; NaN is `None`. */
  datatype JsNumber = Finite(value: real) | Infinite(negative: bool)

  function Negate(x: JsNumber): JsNumber {
    match x
    case Finite(v) => Finite(-v)
    case Infinite(neg) => Infinite(!neg)
  }

  /** The number of decimal digits `s` starts with. */
  function LeadingDigits(s: string): (n: nat)
    ensures n <= |s|
    ensures AllDigits(s[..n])
    ensures n < |s| ==> !IsDigit(s[n])
  {
    if s == [] || !IsDigit(s[0]) then 0
    else
      var k := LeadingDigits(s[1..]);
      assert s[..k + 1] == [s[0]] + s[1..][..k];
      k + 1
  }

  /** `m` times ten to the `e`. */
  function Scale(m: real, e: int): real
    decreases if e < 0 then -e else e
  {
    if e == 0 then m else if e > 0 then 10.0 * Scale(m, e - 1) else Scale(m, e + 1) / 10.0
  }

  /** The exponent of an exponent part (`e`, an optional sign, digits) that
      `s` starts with; 0 when it does not start with a complete one, in which
      case `parseFloat` stops before the `e`. */
  function ExponentOf(s: string): int {
    if |s| >= 2 && (s[0] == 'e' || s[0] == 'E') then
      var signed := s[1..];
      var neg := signed[0] == '-';
      var digits := if signed[0] == '-' || signed[0] == '+' then signed[1..] else signed;
      var k := LeadingDigits(digits);
      var v: int := DigitsValue(digits[..k]);
      if k == 0 then 0 else if neg then -v else v
    else 0
  }

  predicate StartsWithInfinity(t: string) {
    |t| >= 8 && t[..8] == "Infinity"
  }

  /** The number of fraction digits after a leading point of `r`; 0 when `r`
      does not start with a point. */
  function FractionDigits(r: string): nat {
    if |r| > 0 && r[0] == '.' then LeadingDigits(r[1..]) else 0
  }

  /** The value of the fraction part `r` starts with. */
  function FractionValue(r: string): real {
    if |r| > 0 && r[0] == '.' then
      var n2 := LeadingDigits(r[1..]);
      DecimalFraction(DigitsValue(r[1..][..n2]), n2)
    else 0.0
  }

  /** `d` over ten to the `n`: the value of `n` fraction digits reading `d`. */
  function DecimalFraction(d: nat, n: nat): real {
    if n == 0 then d as real else DecimalFraction(d, n - 1) / 10.0
  }

  /** What follows the fraction part `r` starts with. */
  function AfterFraction(r: string): string {
    if |r| > 0 && r[0] == '.' then r[1 + LeadingDigits(r[1..])..] else r
  }

  /** The value of the decimal literal `t` starts with: its integer digits,
      its fraction part and its exponent part. */
  function DecimalValue(t: string): real {
    var n1 := LeadingDigits(t);
    var rest := t[n1..];
    Scale(DigitsValue(t[..n1]) as real + FractionValue(rest), ExponentOf(AfterFraction(rest)))
  }

  /** The longest prefix of `t` that reads as an unsigned decimal literal. */
  function ParseDecimal(t: string): Option<JsNumber> {
    var n1 := LeadingDigits(t);
    if n1 == 0 && FractionDigits(t[n1..]) == 0 then None
    else Some(Finite(DecimalValue(t)))
  }

  /** The longest prefix of `t` that reads as an unsigned decimal literal or
      as `Infinity`. */
  function ParseUnsigned(t: string): Option<JsNumber> {
    if StartsWithInfinity(t) then Some(Infinite(false)) else ParseDecimal(t)
  }

  /** `parseFloat(s)`: leading white space is skipped, then an optional sign,
      then the longest literal; `None` stands for NaN. */
  function ParseFloat(s: string): Option<JsNumber> {
    var t := s[LeadingWhitespace(s)..];
    if |t| > 0 && t[0] == '-' then
      var r := ParseUnsigned(t[1..]);
      if r.Some? then Some(Negate(r.value)) else None
    else if |t| > 0 && t[0] == '+' then ParseUnsigned(t[1..])
    else ParseUnsigned(t)
  }

  /** What a number literal starts with: a digit, a point and a digit, or
      `Infinity`. */
  predicate StartsNumber(t: string) {
    (|t| > 0 && IsDigit(t[0]))
    || (|t| > 1 && t[0] == '.' && IsDigit(t[1]))
    || StartsWithInfinity(t)
  }

  /** The text after the leading white space and an optional sign. */
  function Unsigned(s: string): string {
    var t := s[LeadingWhitespace(s)..];
    if |t| > 0 && (t[0] == '-' || t[0] == '+') then t[1..] else t
  }

  /** `isNaN(parseFloat(s))` exactly when, after white space and sign, `s`
      does not start a number. */
  lemma ParseFloatNaNIff(s: string)
    ensures ParseFloat(s).None? <==> !StartsNumber(Unsigned(s))
  {
    var u := Unsigned(s);
    if !StartsWithInfinity(u) {
      var n1 := LeadingDigits(u);
      if |u| > 0 && IsDigit(u[0]) {
        assert n1 > 0;
      } else {
        assert n1 == 0;
        assert u[n1..] == u;
        if |u| > 1 && u[0] == '.' && IsDigit(u[1]) {
          assert u[1..][0] == u[1];
        }
      }
    }
  }

  lemma {:induction false} LeadingDigitsOfDigits(s: string)
    requires AllDigits(s)
    ensures LeadingDigits(s) == |s|
  {
    if s != [] {
      assert AllDigits(s[1..]);
      LeadingDigitsOfDigits(s[1..]);
    }
  }

  /** A string of digits only is read as its whole value. */
  lemma DecimalValueOfDigits(d: string)
    requires AllDigits(d)
    ensures LeadingDigits(d) == |d|
    ensures DecimalValue(d) == DigitsValue(d) as real
  {
    LeadingDigitsOfDigits(d);
    assert d[..|d|] == d;
    assert d[|d|..] == [];
    assert FractionValue([]) == 0.0;
    assert ExponentOf(AfterFraction([])) == 0;
  }

  /** Text starting with a digit has no leading white space and is not
      `Infinity`. */
  lemma DigitStart(s: string)
    requires |s| > 0 && IsDigit(s[0])
    ensures LeadingWhitespace(s) == 0 && !StartsWithInfinity(s)
  {
  }

  /** `parseFloat` of a minus sign and digits is the negated value of the
      digits. */
  lemma ParseFloatOfNegative(s: string, d: string)
    requires s == "-" + d && |d| > 0 && IsDigit(d[0])
    ensures ParseFloat(s) == if ParseDecimal(d).Some? then Some(Negate(ParseDecimal(d).value)) else None
  {
    DigitStart(d);
    assert LeadingWhitespace(s) == 0;
    assert s[0..] == s && s[1..] == d;
  }

  /** `parseFloat` reads back the decimal rendering of every integer. */
  lemma ParseFloatOfIntToString(i: int)
    ensures ParseFloat(IntToString(i)) == Some(Finite(i as real))
  {
    var n: nat := if i < 0 then -i else i;
    var d := NatToString(n);
    DecimalValueOfDigits(d);
    DigitsValueOfNatToString(n);
    assert ParseDecimal(d) == Some(Finite(n as real));
    if i < 0 {
      ParseFloatOfNegative(IntToString(i), d);
    } else {
      ParseFloatOfDigitStart(d);
    }
  }

  lemma {:induction false} LeadingDigitsStopAt(a: string, r: string)
    requires AllDigits(a) && (r == [] || !IsDigit(r[0]))
    ensures LeadingDigits(a + r) == |a|
  {
    if a != [] {
      assert (a + r)[1..] == a[1..] + r;
      assert AllDigits(a[1..]);
      LeadingDigitsStopAt(a[1..], r);
    } else {
      assert a + r == r;
    }
  }

  /** Text starting with a digit is read as a decimal, from its start. */
  lemma ParseFloatOfDigitStart(s: string)
    requires |s| > 0 && IsDigit(s[0])
    ensures ParseFloat(s) == ParseDecimal(s)
  {
    DigitStart(s);
    assert s[0..] == s;
  }

  /** A point followed by digits only is a whole fraction part. */
  lemma FractionOf(r: string)
    requires |r| > 0 && r[0] == '.' && AllDigits(r[1..])
    ensures FractionValue(r) == DecimalFraction(DigitsValue(r[1..]), |r| - 1)
    ensures AfterFraction(r) == []
  {
    LeadingDigitsOfDigits(r[1..]);
    assert r[1..][..|r| - 1] == r[1..];
  }

  /** A literal without exponent part is worth its digits plus its
      fraction. */
  lemma DecimalValueWithoutExponent(t: string, n1: nat)
    requires n1 == LeadingDigits(t) && AfterFraction(t[n1..]) == []
    ensures DecimalValue(t) == DigitsValue(t[..n1]) as real + FractionValue(t[n1..])
  {
    assert ExponentOf([]) == 0;
  }

  /** `parseFloat` reads a fixed-point rendering, digits, a point and digits
      (what `toFixed` writes for a non-negative number), as that number. */
  lemma ParseFloatFixedPoint(s: string, k: nat)
    requires 0 < k < |s| && AllDigits(s[..k]) && s[k] == '.' && AllDigits(s[k + 1..])
    ensures ParseFloat(s) == Some(Finite(DigitsValue(s[..k]) as real + DecimalFraction(DigitsValue(s[k + 1..]), |s| - k - 1)))
  {
    assert IsDigit(s[0]) by {
      assert s[0] == s[..k][0];
    }
    ParseFloatOfDigitStart(s);
    FixedPointParts(s, k);
    DecimalValueWithoutExponent(s, k);
    ParseDecimalOfLiteral(s);
    var x := DigitsValue(s[..k]) as real + DecimalFraction(DigitsValue(s[k + 1..]), |s| - k - 1);
    ChainToValue(ParseFloat(s), ParseDecimal(s), DecimalValue(s), x);
  }

  /** Links a chain of equal results to the value it ends in (kept apart so
      that the solver does not unfold the parse again). */
  lemma ChainToValue(a: Option<JsNumber>, b: Option<JsNumber>, c: real, d: real)
    requires a == b && b == Some(Finite(c)) && c == d
    ensures a == Some(Finite(d))
  {
  }

  /** Text that starts with a digit is read as a decimal literal. */
  lemma ParseDecimalOfLiteral(t: string)
    requires LeadingDigits(t) > 0
    ensures ParseDecimal(t) == Some(Finite(DecimalValue(t)))
  {
  }

  /** The integer digits of a fixed-point rendering end at its point, and
      its fraction part runs to the end. */
  lemma FixedPointParts(s: string, k: nat)
    requires 0 < k < |s| && AllDigits(s[..k]) && s[k] == '.' && AllDigits(s[k + 1..])
    ensures LeadingDigits(s) == k
    ensures FractionValue(s[k..]) == DecimalFraction(DigitsValue(s[k + 1..]), |s| - k - 1)
    ensures AfterFraction(s[k..]) == []
  {
    LeadingDigitsStopAt(s[..k], s[k..]);
    assert s[..k] + s[k..] == s;
    var r := s[k..];
    assert r[1..] == s[k + 1..];
    FractionOf(r);
  }

  /** Text that starts no number is NaN. */
  lemma ParseFloatOfWord()
    ensures ParseFloat("abc").None? && ParseFloat("").None?
  {
    ParseFloatNaNIff("abc");
    ParseFloatNaNIff("");
    assert "abc"[LeadingWhitespace("abc")..] == "abc";
  }
}
