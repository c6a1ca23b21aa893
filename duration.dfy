/** `convert_to_minutes` (movie_scraper.py, lines 77-87): a duration cell
    such as "2h 15m" or "45m" as a whole number of minutes. */
module Duration {
  import opened Wrappers
  import opened PyStrings
  import opened PyNumbers

  /** The argument's dynamic type matters: only a `str` is parsed. */
  datatype Cell = NotText | Text(s: string)

  /** The pieces of a text that holds an 'h': hours before it, minutes
      after it with every 'm' removed, and the default "0" the source keeps
      for a split with a single piece. */
  function HourPart(s: string): string {
    Strip(Split(s, "h")[0])
  }

  function MinutePart(s: string): string {
    var parts := Split(s, "h");
    if |parts| > 1 then RemoveChar(Strip(parts[1]), 'm') else "0"
  }

  /** The outcome of a conversion: a number of minutes, or the ValueError
      `int` raises on text that is not an integer. */
  datatype Converted = Raised | Minutes(total: int)

  /** Lines 80-83: `int(hours) * 60 + int(minutes)`; the hours are read
      first. */
  function HoursAndMinutes(hours: string, minutes: string): Converted {
    match ParseInt(hours)
    case None => Raised
    case Some(h) =>
      match ParseInt(minutes)
      case None => Raised
      case Some(m) => Minutes(h * 60 + m)
  }

  /** Line 85: `int(duration.replace('m', ''))`. */
  function PlainMinutes(s: string): Converted {
    match ParseInt(RemoveChar(s, 'm'))
    case None => Raised
    case Some(v) => Minutes(v)
  }

  /** Lines 77-87 as written. */
  function ConvertToMinutes(d: Cell): Converted {
    match d
    case NotText => Minutes(0)
    case Text(s) =>
      if Contains(s, "h") then HoursAndMinutes(HourPart(s), MinutePart(s))
      else PlainMinutes(s)
  }

  /** The default "0" at line 82 is dead code: a text that holds 'h' always
      splits into at least two pieces. */
  lemma {:induction false} MinuteDefaultUnreachable(s: string)
    requires Contains(s, "h")
    ensures |Split(s, "h")| >= 2
    ensures MinutePart(s) == RemoveChar(Strip(Split(s, "h")[1]), 'm')
  {
  }

  /** A value that is not a string counts as zero minutes. */
  lemma {:induction false} NotTextIsZero()
    ensures ConvertToMinutes(NotText) == Minutes(0)
  {
  }

  /** How `x + "h" + y` splits when neither `x` nor `y` holds an 'h'. */
  lemma {:induction false} SplitAtSingleH(x: string, y: string)
    requires !Contains(x, "h") && !Contains(y, "h")
    ensures Contains(x + "h" + y, "h")
    ensures Split(x + "h" + y, "h") == [x, y]
  {
    var s := x + "h" + y;
    FirstCharAfterFreePrefix(x, 'h', y);
    assert s[..|x|] == x;
    assert After(s, "h") == y;
    SplitUnfold(s, "h");
  }

  /** The conversion of a text without 'h': `int` of the text with its
      'm's removed. */
  lemma {:induction false} ConvertPlain(s: string, v: int)
    requires !Contains(s, "h") && ParseInt(RemoveChar(s, 'm')) == Some(v)
    ensures ConvertToMinutes(Text(s)) == Minutes(v)
  {
  }

  /** The conversion of a text with an 'h' whose two pieces both read as
      integers: hours times sixty plus minutes. */
  lemma {:induction false} ConvertHoursMinutes(s: string, a: int, b: int)
    requires Contains(s, "h") && ParseInt(HourPart(s)) == Some(a) && ParseInt(MinutePart(s)) == Some(b)
    ensures ConvertToMinutes(Text(s)) == Minutes(60 * a + b)
  {
  }

  /** `x + "m"` with `x` a numeral has no 'h' and loses exactly its 'm'. */
  lemma {:induction false} NumeralThenM(x: string)
    requires Numeral(x)
    ensures !Contains(x + "m", "h")
    ensures RemoveChar(x + "m", 'm') == x
  {
    DigitPartLacks(x, 'h');
    DigitPartLacks(x, 'm');
    ContainsChar("m", 'h');
    ContainsCharAppend(x, "m", 'h');
    RemoveCharAppend(x, "m", 'm');
    RemoveCharAbsent(x, 'm');
    assert RemoveChar("m", 'm') == "";
  }

  /** "45m" style: a numeral followed by "m" converts to its value. */
  lemma {:induction false} MinutesOnlyNumeral(x: string)
    requires Numeral(x)
    ensures ConvertToMinutes(Text(x + "m")) == Minutes(DigitsValue(x))
  {
    NumeralThenM(x);
    ParseIntNumeral(x);
    ConvertPlain(x + "m", DigitsValue(x));
  }

  /** "45m" style: `str(m) + "m"` converts back to `m`. */
  lemma {:induction false} MinutesOnlyRoundTrip(m: nat)
    ensures ConvertToMinutes(Text(ShowNat(m) + "m")) == Minutes(m)
  {
    ShowNatFacts(m);
    MinutesOnlyNumeral(ShowNat(m));
  }

  /** "120 min", the example the duration box suggests, raises: removing
      every 'm' leaves "120 in", which is not an integer. */
  lemma {:induction false} MinWordRaises()
    ensures ConvertToMinutes(Text("120 min")) == Raised
  {
    MinWordHasNoHour();
    MinWordLosesM();
    InWordIsNoInteger();
    PlainRaises("120 min");
  }

  lemma {:induction false} MinWordHasNoHour()
    ensures !Contains("120 min", "h")
  {
    ContainsChar("120 min", 'h');
  }

  lemma {:induction false} MinWordLosesM()
    ensures RemoveChar("120 min", 'm') == "120 in"
  {
    calc {
      RemoveChar("120 min", 'm');
      { assert "120 min" == "120 " + ("m" + "in"); }
      RemoveChar("120 " + ("m" + "in"), 'm');
      { RemoveCharAppend("120 ", "m" + "in", 'm'); }
      RemoveChar("120 ", 'm') + RemoveChar("m" + "in", 'm');
      { RemoveCharUnchanged("120 ", 'm');
        RemoveCharAppend("m", "in", 'm');
        RemoveCharUnchanged("in", 'm');
        assert RemoveChar("m", 'm') == ""; }
      "120 " + ("" + "in");
      "120 in";
    }
  }

  lemma {:induction false} InWordIsNoInteger()
    ensures ParseInt("120 in") == None
  {
    var t := "120 in";
    assert t[3] == ' ';
    StrayCharNoDigitPart(t, 3);
    NumberStripTrimmed(t);
  }

  /** A leading U+001C, which `strip()` would remove but `int` does not
      skip, makes the conversion raise. */
  lemma {:induction false} SeparatorRaises()
    ensures ConvertToMinutes(Text([28 as char] + "45m")) == Raised
  {
    var x := [28 as char] + "45";
    assert x + "m" == [28 as char] + "45m";
    SeparatorLosesM(x);
    SeparatorNotSkipped();
    PlainRaises(x + "m");
  }

  lemma {:induction false} SeparatorLosesM(x: string)
    requires x == [28 as char] + "45"
    ensures !Contains(x + "m", "h") && RemoveChar(x + "m", 'm') == x
  {
    ContainsChar(x + "m", 'h');
    RemoveCharAppend(x, "m", 'm');
    RemoveCharUnchanged(x, 'm');
    assert RemoveChar("m", 'm') == "";
  }

  /** A text without 'h' whose 'm'-free form is no integer raises. */
  lemma {:induction false} PlainRaises(s: string)
    requires !Contains(s, "h") && ParseInt(RemoveChar(s, 'm')).None?
    ensures ConvertToMinutes(Text(s)) == Raised
  {
  }

  /** Stripping a single leading blank off trimmed text. */
  lemma {:induction false} StripLeadingBlank(z: string)
    requires |z| > 0 && IsTrimmed(z)
    ensures Strip(" " + z) == z
  {
    assert (" " + z)[1..] == z;
    assert LStrip(" " + z) == LStrip(z);
  }

  /** The minutes piece " 15m" of "2h 15m" reduces to "15". */
  lemma {:induction false} MinutePieceOf(z: string)
    requires Numeral(z)
    ensures RemoveChar(Strip(" " + z + "m"), 'm') == z
    ensures !Contains(" " + z + "m", "h")
  {
    NumeralThenM(z);
    assert (z + "m")[0] == z[0];
    StripLeadingBlank(z + "m");
    assert " " + z + "m" == " " + (z + "m");
    ContainsChar(" ", 'h');
    ContainsCharAppend(" ", z + "m", 'h');
  }

  /** The pieces of `x + "h" + y` when only the middle 'h' is present. */
  lemma {:induction false} PiecesAtSingleH(x: string, y: string)
    requires !Contains(x, "h") && !Contains(y, "h") && IsTrimmed(x)
    ensures Contains(x + "h" + y, "h")
    ensures HourPart(x + "h" + y) == x
    ensures MinutePart(x + "h" + y) == RemoveChar(Strip(y), 'm')
  {
    SplitAtSingleH(x, y);
    StripTrimmed(x);
  }

  /** The pieces of "2h 15m" with numerals `x` and `z`. */
  lemma {:induction false} HoursMinutesPieces(x: string, z: string)
    requires Numeral(x) && Numeral(z)
    ensures var s := x + "h " + z + "m";
      Contains(s, "h") && HourPart(s) == x && MinutePart(s) == z
  {
    var y := " " + z + "m";
    assert x + "h " + z + "m" == x + "h" + y;
    DigitPartLacks(x, 'h');
    MinutePieceOf(z);
    PiecesAtSingleH(x, y);
  }

  /** "2h 15m" style with numerals `x` and `z`. */
  lemma {:induction false} HoursMinutesNumerals(x: string, z: string)
    requires Numeral(x) && Numeral(z)
    ensures ConvertToMinutes(Text(x + "h " + z + "m")) == Minutes(60 * DigitsValue(x) + DigitsValue(z))
  {
    var s := x + "h " + z + "m";
    HoursMinutesParsed(x, z);
    ConvertHoursMinutes(s, DigitsValue(x), DigitsValue(z));
  }

  lemma {:induction false} HoursMinutesParsed(x: string, z: string)
    requires Numeral(x) && Numeral(z)
    ensures var s := x + "h " + z + "m";
      Contains(s, "h") && ParseInt(HourPart(s)) == Some(DigitsValue(x) as int) &&
      ParseInt(MinutePart(s)) == Some(DigitsValue(z) as int)
  {
    HoursMinutesPieces(x, z);
    ParseIntNumeral(x);
    ParseIntNumeral(z);
  }

  /** "2h 15m" style: `str(h) + "h " + str(m) + "m"` converts back to
      `60 * h + m`. */
  lemma {:induction false} HoursMinutesRoundTrip(h: nat, m: nat)
    ensures ConvertToMinutes(Text(ShowNat(h) + "h " + ShowNat(m) + "m")) == Minutes(60 * h + m)
  {
    ShowNatFacts(h);
    ShowNatFacts(m);
    HoursMinutesNumerals(ShowNat(h), ShowNat(m));
  }

  /** The pieces of "3h": the minutes piece is empty. */
  lemma {:induction false} HoursOnlyPieces(x: string)
    requires Numeral(x)
    ensures Contains(x + "h", "h") && HourPart(x + "h") == x && MinutePart(x + "h") == ""
  {
    DigitPartLacks(x, 'h');
    assert !Contains("", "h");
    PiecesAtSingleH(x, "");
    assert x + "h" + "" == x + "h";
    assert RemoveChar(Strip(""), 'm') == "";
  }

  /** A text with an 'h' whose minutes piece is empty raises. */
  lemma {:induction false} EmptyMinutesRaise(s: string)
    requires Contains(s, "h") && MinutePart(s) == ""
    ensures ConvertToMinutes(Text(s)) == Raised
  {
    ParseIntBlank("");
  }

  /** As written, an hours-only duration such as "3h" raises: the piece
      after 'h' is empty and `int('')` fails. */
  lemma {:induction false} HoursOnlyRaises(h: nat)
    ensures ConvertToMinutes(Text(ShowNat(h) + "h")) == Raised
  {
    ShowNatFacts(h);
    HoursOnlyPieces(ShowNat(h));
    EmptyMinutesRaise(ShowNat(h) + "h");
  }

  /** The conversion as evidently intended: a missing minutes piece counts
      as zero minutes, as the default "0" at line 82 was meant to ensure. */
  function ConvertToMinutesIntended(d: Cell): Converted {
    match d
    case NotText => Minutes(0)
    case Text(s) =>
      if Contains(s, "h") then
        HoursAndMinutes(HourPart(s), if MinutePart(s) == "" then "0" else MinutePart(s))
      else PlainMinutes(s)
  }

  /** With the correction, an empty minutes piece counts as zero minutes. */
  lemma {:induction false} IntendedEmptyMinutes(s: string, a: int)
    requires Contains(s, "h") && ParseInt(HourPart(s)) == Some(a) && MinutePart(s) == ""
    ensures ConvertToMinutesIntended(Text(s)) == Minutes(60 * a)
  {
    ParseIntShowNat(0);
  }

  /** With the correction, "3h" is 180 minutes. */
  lemma {:induction false} IntendedHoursOnly(h: nat)
    ensures ConvertToMinutesIntended(Text(ShowNat(h) + "h")) == Minutes(60 * h)
  {
    ShowNatFacts(h);
    HoursOnlyPieces(ShowNat(h));
    ParseIntNumeral(ShowNat(h));
    IntendedEmptyMinutes(ShowNat(h) + "h", h);
  }

  /** The correction only changes inputs on which the source raises. */
  lemma {:induction false} IntendedAgreesWhereDefined(d: Cell)
    requires ConvertToMinutes(d).Minutes?
    ensures ConvertToMinutesIntended(d) == ConvertToMinutes(d)
  {
    if d.Text? && Contains(d.s, "h") && MinutePart(d.s) == "" {
      ParseIntBlank("");
    }
  }
}
