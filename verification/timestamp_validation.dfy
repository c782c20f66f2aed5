/**
 * The server's check of a range bound (server.py, `validate_timestamp`): a regular
 * expression for the `YYMMDDHHMMSS` shape, then `datetime.strptime(s, "%y%m%d%H%M%S")`,
 * whose failure (ValueError) means "not valid".
 */
module TimestampValidation {
  import opened Digits
  import opened Calendar

  /** The pattern's month group `(0[1-9]|1[0-2])`. */
  predicate MonthGroup(c1: char, c2: char) {
    (c1 == '0' && '1' <= c2 <= '9') || (c1 == '1' && '0' <= c2 <= '2')
  }

  /** The pattern's day group `(0[1-9]|[12]\d|3[01])`. */
  predicate DayGroup(c1: char, c2: char) {
    || (c1 == '0' && '1' <= c2 <= '9')
    || ((c1 == '1' || c1 == '2') && IsDigit(c2))
    || (c1 == '3' && (c2 == '0' || c2 == '1'))
  }

  /** The pattern's hour group `([01]\d|2[0-3])`. */
  predicate HourGroup(c1: char, c2: char) {
    ((c1 == '0' || c1 == '1') && IsDigit(c2)) || (c1 == '2' && '0' <= c2 <= '3')
  }

  /** The pattern's minute and second groups `([0-5]\d)`. */
  predicate SixtyGroup(c1: char, c2: char) {
    '0' <= c1 <= '5' && IsDigit(c2)
  }

  /** The twelve characters the pattern describes, `\d{2}` then the five groups. */
  predicate PatternBody(s: string)
    requires |s| >= 12
  {
    && IsDigit(s[0]) && IsDigit(s[1])
    && MonthGroup(s[2], s[3]) && DayGroup(s[4], s[5]) && HourGroup(s[6], s[7])
    && SixtyGroup(s[8], s[9]) && SixtyGroup(s[10], s[11])
  }

  /**
   * `re.match(pattern, s)` succeeds: the match is anchored at the start by `^`, and `$`
   * matches at the very end or just before a newline that ends the text.
   */
  predicate MatchesPattern(s: string)
    ensures MatchesPattern(s) ==> |s| >= 12 && AllDigits(s[..12]) && (|s| == 12 || s[12..] == "\n")
  {
    (|s| == 12 || (|s| == 13 && s[12] == '\n')) && PatternBody(s)
  }

  /** `%y`: years 69..99 are taken as 1969..1999, years 00..68 as 2000..2068. */
  function PivotYear(yy: int): (y: int)
    requires 0 <= yy < 100
    ensures 1969 <= y <= 2068 && y % 100 == yy
  {
    if yy <= 68 then 2000 + yy else 1900 + yy
  }

  /** The date and time `strptime` reads from the first twelve characters, two per directive. */
  function StrptimeDate(s: string): (d: DateTime)
    requires |s| >= 12 && AllDigits(s[..12])
    ensures 1969 <= d.year <= 2068 && 0 <= d.month < 100 && 0 <= d.day < 100
    ensures 0 <= d.hour < 100 && 0 <= d.minute < 100 && 0 <= d.second < 100
  {
    assert forall i :: 0 <= i < 12 ==> s[..12][i] == s[i];
    DateTime(PivotYear(TwoDigitValue(s[0], s[1])), TwoDigitValue(s[2], s[3]), TwoDigitValue(s[4], s[5]),
             TwoDigitValue(s[6], s[7]), TwoDigitValue(s[8], s[9]), TwoDigitValue(s[10], s[11]))
  }

  /**
   * `datetime.strptime(s, "%y%m%d%H%M%S")` returns without ValueError, for a text that
   * already matched the pattern. On such a text each directive's expression takes exactly
   * two characters; what is left after them is "unconverted data" (an error), and the
   * fields must name an existing date and time.
   */
  predicate StrptimeSucceeds(s: string)
    requires MatchesPattern(s)
    ensures StrptimeSucceeds(s) ==> |s| == 12 && AllDigits(s)
    ensures s[|s| - 1] == '\n' ==> !StrptimeSucceeds(s)
  {
    assert AllDigits(s[..12]);
    |s| == 12 && IsValid(StrptimeDate(s))
  }

  /** `validate_timestamp`: the pattern matches and `strptime` accepts. */
  predicate ValidateTimestamp(s: string)
    ensures ValidateTimestamp(s) ==> |s| == 12 && AllDigits(s) && IsValid(StrptimeDate(s))
  {
    MatchesPattern(s) && StrptimeSucceeds(s)
  }

  /** Each regex group accepts exactly the two-digit values of its field's range. */
  lemma GroupsAreRanges(c1: char, c2: char)
    ensures MonthGroup(c1, c2) <==> IsDigit(c1) && IsDigit(c2) && 1 <= TwoDigitValue(c1, c2) <= 12
    ensures DayGroup(c1, c2) <==> IsDigit(c1) && IsDigit(c2) && 1 <= TwoDigitValue(c1, c2) <= 31
    ensures HourGroup(c1, c2) <==> IsDigit(c1) && IsDigit(c2) && TwoDigitValue(c1, c2) <= 23
    ensures SixtyGroup(c1, c2) <==> IsDigit(c1) && IsDigit(c2) && TwoDigitValue(c1, c2) <= 59
  {
  }

  /**
   * What the validator accepts, in full: exactly twelve ASCII digits whose fields, with the
   * `%y` century pivot, name a date that exists and a time of day.
   */
  lemma ValidateTimestampSpec(s: string)
    ensures ValidateTimestamp(s) <==> |s| == 12 && AllDigits(s) && IsValid(StrptimeDate(s))
  {
    if |s| == 12 && AllDigits(s) {
      assert s[..12] == s;
      GroupsAreRanges(s[2], s[3]);
      GroupsAreRanges(s[4], s[5]);
      GroupsAreRanges(s[6], s[7]);
      GroupsAreRanges(s[8], s[9]);
      GroupsAreRanges(s[10], s[11]);
    }
    if ValidateTimestamp(s) {
      assert forall i :: 0 <= i < 12 ==> IsDigit(s[i]);
    }
  }

  /**
   * The pattern's `$` lets a final newline through, but `strptime` then finds unconverted
   * data, so no accepted text is longer than twelve characters.
   */
  lemma TrailingNewlineRejected(s: string)
    requires ValidateTimestamp(s)
    ensures |s| == 12
    ensures MatchesPattern(s + "\n") && !ValidateTimestamp(s + "\n")
  {
    assert (s + "\n")[..12] == s;
  }

  /** In the pivot's range 1969..2068 the only century year is 2000, a leap year. */
  lemma PivotLeapYear(yy: int)
    requires 0 <= yy < 100
    ensures IsLeapYear(PivotYear(yy)) <==> yy % 4 == 0
  {
    var y := PivotYear(yy);
    if yy <= 68 {
      assert y % 4 == yy % 4 && (y % 100 == 0 <==> yy == 0) && 2000 % 400 == 0;
    } else {
      assert y % 4 == yy % 4 && y % 100 != 0;
    }
  }

  /** 29 February is accepted exactly in the two-digit years divisible by four. */
  lemma LeapDayAccepted(s: string)
    requires |s| == 12 && AllDigits(s)
    requires s[2..6] == "0229"
    requires TwoDigitValue(s[6], s[7]) <= 23 && TwoDigitValue(s[8], s[9]) <= 59 && TwoDigitValue(s[10], s[11]) <= 59
    ensures ValidateTimestamp(s) <==> TwoDigitValue(s[0], s[1]) % 4 == 0
  {
    ValidateTimestampSpec(s);
    assert s[..12] == s;
    assert s[2] == '0' && s[3] == '2' && s[4] == '2' && s[5] == '9';
    PivotLeapYear(TwoDigitValue(s[0], s[1]));
  }
}
