/** Python's `int(text)`, `str(n)` and a decimal subset of `float(text)`. */
module PyNumbers {
  import opened Wrappers
  import opened PyStrings

  predicate IsDigit(c: char) {
    '0' <= c <= '9'
  }

  function DigitOf(c: char): nat
    requires IsDigit(c)
  {
    c as int - '0' as int
  }

  function DigitChar(d: nat): (c: char)
    requires d < 10
    ensures IsDigit(c) && DigitOf(c) == d
  {
    ('0' as int + d) as char
  }

  /** A run of ASCII digits in which single underscores may separate two
      digits (`1_000`), the digit grammar of Python's numeric literals. */
  predicate IsDigitPart(s: string)
    decreases |s|
  {
    |s| > 0 && IsDigit(s[0]) &&
    (|s| == 1 || IsDigitPart(s[1..]) || (s[1] == '_' && IsDigitPart(s[2..])))
  }

  lemma {:induction false} AllDigitsIsDigitPart(s: string)
    requires |s| > 0 && forall i :: 0 <= i < |s| ==> IsDigit(s[i])
    ensures IsDigitPart(s)
    decreases |s|
  {
    if |s| > 1 {
      AllDigitsIsDigitPart(s[1..]);
    }
  }

  /** The number the digits of `s` spell, underscores ignored. */
  function DigitsValue(s: string): nat {
    if s == [] then 0
    else
      var last := s[|s| - 1];
      if IsDigit(last) then DigitsValue(s[..|s| - 1]) * 10 + DigitOf(last)
      else DigitsValue(s[..|s| - 1])
  }

  /** How many digits `s` holds. */
  function NumDigits(s: string): nat {
    if s == [] then 0
    else (if IsDigit(s[|s| - 1]) then 1 else 0) + NumDigits(s[..|s| - 1])
  }

  function Pow10(n: nat): (p: nat)
    ensures p >= 1
  {
    if n == 0 then 1 else 10 * Pow10(n - 1)
  }

  /** Python `str(n)` for a natural number. */
  function ShowNat(n: nat): (r: string)
    ensures |r| >= 1
  {
    if n < 10 then [DigitChar(n)] else ShowNat(n / 10) + [DigitChar(n % 10)]
  }

  /** `str(n)` is made of digits only. */
  lemma {:induction false} ShowNatDigits(n: nat)
    ensures forall i :: 0 <= i < |ShowNat(n)| ==> IsDigit(ShowNat(n)[i])
  {
    if n >= 10 {
      ShowNatDigits(n / 10);
    }
  }

  /** Whether the text starts with a `-` sign. */
  predicate Negative(t: string) {
    |t| > 0 && t[0] == '-'
  }

  /** The text after any leading sign. */
  function Unsigned(t: string): string {
    if |t| > 0 && (t[0] == '+' || t[0] == '-') then t[1..] else t
  }

  /** The blanks `int()` and `float()` skip around a number. CPython first
      turns every non-ASCII character that `str.isspace()` accepts into a
      space, then skips tab, LF, VT, FF, CR and space only: the ASCII
      separators U+001C to U+001F, which `isspace()` accepts, are kept and
      make the conversion fail. */
  predicate IsNumberSpace(c: char) {
    var n := c as int;
    (9 <= n <= 13) || n == 32 || (n >= 128 && IsSpace(c))
  }

  function TrimLeft(s: string): (r: string)
    ensures s == [] || !IsNumberSpace(s[0]) ==> r == s
    decreases |s|
  {
    if s != [] && IsNumberSpace(s[0]) then TrimLeft(s[1..]) else s
  }

  function TrimRight(s: string): (r: string)
    ensures s == [] || !IsNumberSpace(s[|s| - 1]) ==> r == s
    decreases |s|
  {
    if s != [] && IsNumberSpace(s[|s| - 1]) then TrimRight(s[..|s| - 1]) else s
  }

  /** The text a number is read from: `s` without the blanks of
      `IsNumberSpace` at either end. */
  function NumberStrip(s: string): string {
    TrimRight(TrimLeft(s))
  }

  /** Every blank `int()` skips is whitespace to `strip()`, so text that
      `strip()` leaves alone `int()` reads whole. */
  lemma {:induction false} NumberStripTrimmed(s: string)
    requires IsTrimmed(s)
    ensures NumberStrip(s) == s
  {
  }

  lemma {:induction false} TrimLeftSuffix(s: string)
    ensures |TrimLeft(s)| <= |s| && TrimLeft(s) == s[|s| - |TrimLeft(s)|..]
    decreases |s|
  {
    if s != [] && IsNumberSpace(s[0]) {
      TrimLeftSuffix(s[1..]);
    }
  }

  lemma {:induction false} TrimRightPrefix(s: string)
    ensures |TrimRight(s)| <= |s| && TrimRight(s) == s[..|TrimRight(s)|]
    decreases |s|
  {
    if s != [] && IsNumberSpace(s[|s| - 1]) {
      TrimRightPrefix(s[..|s| - 1]);
    }
  }

  /** What `int()` reads is a piece of its argument. */
  lemma {:induction false} NumberStripInside(s: string)
    ensures |TrimLeft(s)| <= |s|
    ensures OccursAt(s, NumberStrip(s), |s| - |TrimLeft(s)|)
  {
    var l := TrimLeft(s);
    var t := TrimRight(l);
    TrimLeftSuffix(s);
    TrimRightPrefix(l);
    PrefixOfSuffix(s, l, t);
  }

  /** Python `int(s)` for a `str` argument: surrounding blanks are
      ignored, one optional sign, then a digit part; `None` is ValueError. */
  function ParseInt(s: string): Option<int> {
    var t := NumberStrip(s);
    var body := Unsigned(t);
    if IsDigitPart(body) then
      var v: int := DigitsValue(body);
      Some(if Negative(t) then -v else v)
    else None
  }

  /** The unsigned part of a Python float literal without exponent:
      `digits`, `digits.`, `.digits` or `digits.digits`. */
  function DecimalMagnitude(body: string): Option<real> {
    match FindFirst(body, ".")
    case None =>
      if IsDigitPart(body) then Some(DigitsValue(body) as real) else None
    case Some(i) =>
      var whole := body[..i];
      var frac := body[i + 1..];
      if (whole == [] || IsDigitPart(whole)) && (frac == [] || IsDigitPart(frac)) &&
         (whole != [] || frac != [])
      then Some(DigitsValue(whole) as real + DigitsValue(frac) as real / Pow10(NumDigits(frac)) as real)
      else None
  }

  /** Python `float(s)` on decimal notation, as an exact real; `None` is
      ValueError. */
  function ParseDecimal(s: string): Option<real> {
    var t := NumberStrip(s);
    match DecimalMagnitude(Unsigned(t))
    case None => None
    case Some(v) => Some(if Negative(t) then -v else v)
  }

  lemma {:induction false} ShowNatValue(n: nat)
    ensures DigitsValue(ShowNat(n)) == n && NumDigits(ShowNat(n)) == |ShowNat(n)|
  {
    var r := ShowNat(n);
    if n >= 10 {
      ShowNatValue(n / 10);
      assert r[..|r| - 1] == ShowNat(n / 10);
    }
  }

  /** Unsigned digits with nothing around them: the text `str(n)`
      produces and `int` reads back without help. */
  predicate Numeral(x: string) {
    IsTrimmed(x) && IsDigitPart(x) && Unsigned(x) == x && !Negative(x)
  }

  /** A digit part holds only digits and underscores. */
  lemma {:induction false} DigitPartChars(s: string)
    requires IsDigitPart(s)
    ensures forall i :: 0 <= i < |s| ==> IsDigit(s[i]) || s[i] == '_'
    decreases |s|
  {
    if |s| > 1 {
      if IsDigitPart(s[1..]) {
        DigitPartChars(s[1..]);
        forall i | 1 <= i < |s| ensures IsDigit(s[i]) || s[i] == '_' {
          assert s[i] == s[1..][i - 1];
        }
      } else {
        DigitPartChars(s[2..]);
        forall i | 2 <= i < |s| ensures IsDigit(s[i]) || s[i] == '_' {
          assert s[i] == s[2..][i - 2];
        }
      }
    }
  }

  /** A text with a character other than a digit or '_' is no digit part. */
  lemma {:induction false} StrayCharNoDigitPart(s: string, i: nat)
    requires i < |s| && !IsDigit(s[i]) && s[i] != '_'
    ensures !IsDigitPart(s)
  {
    if IsDigitPart(s) {
      DigitPartChars(s);
      assert false;
    }
  }

  /** A digit part holds no other character. */
  lemma {:induction false} DigitPartLacks(x: string, c: char)
    requires IsDigitPart(x) && !IsDigit(c) && c != '_'
    ensures !Contains(x, [c])
  {
    DigitPartChars(x);
    ContainsChar(x, c);
  }

  /** `int` reads a numeral as the number its digits spell. */
  lemma {:induction false} ParseIntNumeral(x: string)
    requires Numeral(x)
    ensures ParseInt(x) == Some(DigitsValue(x))
  {
    NumberStripTrimmed(x);
  }

  /** A run of digits is a numeral. */
  lemma {:induction false} DigitRunIsNumeral(s: string)
    requires |s| > 0 && forall i :: 0 <= i < |s| ==> IsDigit(s[i])
    ensures Numeral(s)
  {
    assert !IsSpace(s[0]) && !IsSpace(s[|s| - 1]);
    AllDigitsIsDigitPart(s);
  }

  /** `str(n)` is a numeral that spells `n`. */
  lemma {:induction false} ShowNatFacts(n: nat)
    ensures Numeral(ShowNat(n)) && DigitsValue(ShowNat(n)) == n
  {
    ShowNatDigits(n);
    DigitRunIsNumeral(ShowNat(n));
    ShowNatValue(n);
  }

  /** `int(str(n)) == n`: decimal rendering and parsing are inverse. */
  lemma {:induction false} ParseIntShowNat(n: nat)
    ensures ParseInt(ShowNat(n)) == Some(n)
  {
    ShowNatFacts(n);
    ParseIntNumeral(ShowNat(n));
  }

  /** `str` is injective on naturals. */
  lemma {:induction false} ShowNatInjective(a: nat, b: nat)
    requires ShowNat(a) == ShowNat(b)
    ensures a == b
  {
    ParseIntShowNat(a);
    ParseIntShowNat(b);
  }

  /** Text with nothing but blanks is not a number. */
  lemma {:induction false} ParseIntBlank(s: string)
    requires AllSpace(s)
    ensures ParseInt(s) == None
  {
    var t := NumberStrip(s);
    NumberStripInside(s);
    if t != [] {
      var lo := |s| - |TrimLeft(s)|;
      assert t[0] == s[lo..lo + |t|][0];
      assert Unsigned(t) == t;
      StrayCharNoDigitPart(t, 0);
    }
  }

  /** `int()` does not skip the ASCII separators that `strip()` removes:
      `int("\x1c45")` raises although `"\x1c45".strip()` is "45". */
  lemma {:induction false} SeparatorNotSkipped()
    ensures Strip([28 as char] + "45") == "45"
    ensures ParseInt([28 as char] + "45") == None
  {
    var s := [28 as char] + "45";
    assert IsSpace(s[0]) && !IsNumberSpace(s[0]);
    assert s[1..] == "45";
    StrayCharNoDigitPart(s, 0);
  }

  /** `float("7.5") == 7.5`: a score written as `a.d` reads back as
      a + d/10. */
  lemma {:induction false} ParseDecimalOneDecimal(a: nat, d: nat)
    requires d < 10
    ensures ParseDecimal(ShowNat(a) + "." + [DigitChar(d)]) == Some(a as real + d as real / 10.0)
  {
    ShowNatFacts(a);
    ParseDecimalNumeralPoint(ShowNat(a), d);
  }

  lemma {:induction false} ParseDecimalNumeralPoint(x: string, d: nat)
    requires Numeral(x) && d < 10
    ensures ParseDecimal(x + "." + [DigitChar(d)]) == Some(DigitsValue(x) as real + d as real / 10.0)
  {
    var s := x + "." + [DigitChar(d)];
    assert IsDigit(s[0]) by { assert s[0] == x[0]; }
    assert s[|s| - 1] == DigitChar(d);
    assert Unsigned(s) == s && !Negative(s);
    NumberStripTrimmed(s);
    NumeralPointMagnitude(x, d);
  }

  lemma {:induction false} NumeralPointMagnitude(x: string, d: nat)
    requires Numeral(x) && d < 10
    ensures DecimalMagnitude(x + "." + [DigitChar(d)]) == Some(DigitsValue(x) as real + d as real / 10.0)
  {
    var f := [DigitChar(d)];
    var s := x + "." + f;
    DigitPartLacks(x, '.');
    FirstCharAfterFreePrefix(x, '.', f);
    assert FindFirst(s, ".") == Some(|x|);
    assert s[..|x|] == x;
    assert s[|x| + 1..] == f;
    SingleDigit(d);
    assert Pow10(1) == 10;
    assert x != [] && IsDigitPart(x) && IsDigitPart(f);
    assert DigitsValue(f) as real / Pow10(NumDigits(f)) as real == d as real / 10.0;
  }

  lemma {:induction false} SingleDigit(d: nat)
    requires d < 10
    ensures IsDigitPart([DigitChar(d)])
    ensures DigitsValue([DigitChar(d)]) == d && NumDigits([DigitChar(d)]) == 1
  {
    assert [DigitChar(d)][..0] == [];
  }

  /** The sentinel `-` is not a number. */
  lemma {:induction false} DashIsNotANumber()
    ensures ParseDecimal("-") == None && ParseInt("-") == None
  {
    assert IsTrimmed("-");
    NumberStripTrimmed("-");
    assert "-"[1..] == "";
  }
}
