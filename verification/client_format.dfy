/**
 * The browser side's fixed-width timestamps (doc/script.js): the `YYMMDDHHMMSS` query
 * encoder, the `HH:MM:SS` display of a server timestamp and the `HH:MM` tooltip time,
 * with the decoder that reads an encoded timestamp back into its fields.
 */
module ClientFormat {
  import opened Options
  import opened Digits
  import opened Calendar

  /** `formatTimestamp`: the characters at [6,8), [8,10) and [10,12) joined with colons. */
  function FormatTimestamp(timestamp: string): (r: string)
    ensures |timestamp| >= 12 ==>
      r == timestamp[6..8] + ":" + timestamp[8..10] + ":" + timestamp[10..12] && |r| == 8
    ensures |timestamp| <= 6 ==> r == "::"
  {
    Slice(timestamp, 6, 8) + ":" + Slice(timestamp, 8, 10) + ":" + Slice(timestamp, 10, 12)
  }

  /** `formatApiTimestamp`: two-digit year, then month, day, hour, minute, second, each padded. */
  function FormatApiTimestamp(date: DateTime): (r: string)
    ensures FitsTwoDigits(date) ==> |r| == 12 && AllDigits(r)
  {
    SliceLast2(IntToString(date.year)) + Pad2(date.month) + Pad2(date.day)
      + Pad2(date.hour) + Pad2(date.minute) + Pad2(date.second)
  }

  /** `formatTooltipTime`: padded hours and minutes. */
  function FormatTooltipTime(date: DateTime): (r: string)
    ensures 0 <= date.hour < 100 && 0 <= date.minute < 100 ==>
      |r| == 5 && r[2] == ':' && AllDigits(r[..2]) && AllDigits(r[3..])
  {
    Pad2(date.hour) + ":" + Pad2(date.minute)
  }

  /**
   * Reads a `YYMMDDHHMMSS` text back into its six two-digit fields; the year is the
   * two-digit year as written. Anything but twelve ASCII digits is refused.
   */
  function ParseApiTimestamp(s: string): (r: Option<DateTime>)
    ensures r.Some? <==> |s| == 12 && AllDigits(s)
    ensures r.Some? ==>
      && 0 <= r.value.year < 100 && 0 <= r.value.month < 100 && 0 <= r.value.day < 100
      && 0 <= r.value.hour < 100 && 0 <= r.value.minute < 100 && 0 <= r.value.second < 100
  {
    if |s| == 12 && AllDigits(s) then
      Some(DateTime(TwoDigitValue(s[0], s[1]), TwoDigitValue(s[2], s[3]), TwoDigitValue(s[4], s[5]),
                    TwoDigitValue(s[6], s[7]), TwoDigitValue(s[8], s[9]), TwoDigitValue(s[10], s[11])))
    else None
  }

  /** Every field of `date` is written by `pad` as exactly two digits, and the year has at least two. */
  predicate FitsTwoDigits(date: DateTime) {
    date.year >= 10 && 0 <= date.month < 100 && 0 <= date.day < 100
    && 0 <= date.hour < 100 && 0 <= date.minute < 100 && 0 <= date.second < 100
  }

  /** The twelve digits the encoder writes for `date`: the year modulo 100, then each field's two digits. */
  function EncodedDigits(date: DateTime): (s: string)
    requires date.year >= 0 && 0 <= date.month < 100 && 0 <= date.day < 100
    requires 0 <= date.hour < 100 && 0 <= date.minute < 100 && 0 <= date.second < 100
  {
    DigitPair(date.year % 100) + DigitPair(date.month) + DigitPair(date.day)
      + DigitPair(date.hour) + DigitPair(date.minute) + DigitPair(date.second)
  }

  /** The encoder's output is twelve digits, two per field, at fixed offsets. */
  lemma FormatApiTimestampLayout(date: DateTime)
    requires FitsTwoDigits(date)
    ensures FormatApiTimestamp(date) == EncodedDigits(date)
  {
    YearSuffixDigits(date.year);
    Pad2TwoDigits(date.month);
    Pad2TwoDigits(date.day);
    Pad2TwoDigits(date.hour);
    Pad2TwoDigits(date.minute);
    Pad2TwoDigits(date.second);
  }

  /** Decoding six two-digit pieces laid end to end reads one field from each piece. */
  lemma ParseOfPairs(p0: string, p1: string, p2: string, p3: string, p4: string, p5: string)
    requires |p0| == |p1| == |p2| == |p3| == |p4| == |p5| == 2
    requires AllDigits(p0) && AllDigits(p1) && AllDigits(p2) && AllDigits(p3) && AllDigits(p4) && AllDigits(p5)
    ensures ParseApiTimestamp(p0 + p1 + p2 + p3 + p4 + p5)
      == Some(DateTime(TwoDigitValue(p0[0], p0[1]), TwoDigitValue(p1[0], p1[1]), TwoDigitValue(p2[0], p2[1]),
                       TwoDigitValue(p3[0], p3[1]), TwoDigitValue(p4[0], p4[1]), TwoDigitValue(p5[0], p5[1])))
  {
    var s := p0 + p1 + p2 + p3 + p4 + p5;
    assert s == [p0[0], p0[1], p1[0], p1[1], p2[0], p2[1], p3[0], p3[1], p4[0], p4[1], p5[0], p5[1]] by {
      assert p0 == [p0[0], p0[1]] && p1 == [p1[0], p1[1]] && p2 == [p2[0], p2[1]];
      assert p3 == [p3[0], p3[1]] && p4 == [p4[0], p4[1]] && p5 == [p5[0], p5[1]];
    }
    assert IsDigit(p0[0]) && IsDigit(p0[1]) && IsDigit(p1[0]) && IsDigit(p1[1]);
    assert IsDigit(p2[0]) && IsDigit(p2[1]) && IsDigit(p3[0]) && IsDigit(p3[1]);
    assert IsDigit(p4[0]) && IsDigit(p4[1]) && IsDigit(p5[0]) && IsDigit(p5[1]);
  }

  /**
   * Round trip: decoding the encoder's output gives back the year modulo 100 and the
   * other five fields unchanged.
   */
  lemma ApiTimestampRoundTrip(date: DateTime)
    requires FitsTwoDigits(date)
    ensures ParseApiTimestamp(FormatApiTimestamp(date))
      == Some(DateTime(date.year % 100, date.month, date.day, date.hour, date.minute, date.second))
  {
    FormatApiTimestampLayout(date);
    ParseOfPairs(DigitPair(date.year % 100), DigitPair(date.month), DigitPair(date.day),
                 DigitPair(date.hour), DigitPair(date.minute), DigitPair(date.second));
  }

  /**
   * The other direction: any twelve-digit text is what the encoder writes for the fields
   * it decodes to, placed in any century from the first on.
   */
  lemma ApiTimestampReencode(s: string, century: int)
    requires |s| == 12 && AllDigits(s)
    requires century >= 1
    ensures var d := ParseApiTimestamp(s).value;
      FormatApiTimestamp(d.(year := 100 * century + d.year)) == s
  {
    EncodeInCentury(ParseApiTimestamp(s).value, century);
    DecodedFieldsReencode(s);
  }

  /** Placing two-digit fields in a century from the first on does not change their encoding. */
  lemma EncodeInCentury(d: DateTime, century: int)
    requires 0 <= d.year < 100 && 0 <= d.month < 100 && 0 <= d.day < 100
    requires 0 <= d.hour < 100 && 0 <= d.minute < 100 && 0 <= d.second < 100
    requires century >= 1
    ensures FormatApiTimestamp(d.(year := 100 * century + d.year)) == EncodedDigits(d)
  {
    CenturyKeepsTwoDigitYear(century, d.year);
    var e := d.(year := 100 * century + d.year);
    assert e.year % 100 == d.year % 100;
    FormatApiTimestampLayout(e);
  }

  /** The decoded fields of a twelve-digit text are written back as that same text. */
  lemma DecodedFieldsReencode(s: string)
    requires |s| == 12 && AllDigits(s)
    ensures EncodedDigits(ParseApiTimestamp(s).value) == s
  {
    var d := ParseApiTimestamp(s).value;
    var p0, p1, p2 := [s[0], s[1]], [s[2], s[3]], [s[4], s[5]];
    var p3, p4, p5 := [s[6], s[7]], [s[8], s[9]], [s[10], s[11]];
    assert d.year % 100 == d.year;
    assert DigitPair(d.year) == p0 by { DigitPairOfValue(s[0], s[1]); }
    assert DigitPair(d.month) == p1 by { DigitPairOfValue(s[2], s[3]); }
    assert DigitPair(d.day) == p2 by { DigitPairOfValue(s[4], s[5]); }
    assert DigitPair(d.hour) == p3 by { DigitPairOfValue(s[6], s[7]); }
    assert DigitPair(d.minute) == p4 by { DigitPairOfValue(s[8], s[9]); }
    assert DigitPair(d.second) == p5 by { DigitPairOfValue(s[10], s[11]); }
    assert EncodedDigits(d) == p0 + p1 + p2 + p3 + p4 + p5;
    assert s == p0 + p1 + p2 + p3 + p4 + p5 by { PairsAt(p0, p1, p2, p3, p4, p5); }
  }

  /** Placing a two-digit year in a century keeps it as the year modulo 100. */
  lemma CenturyKeepsTwoDigitYear(century: int, yy: int)
    requires century >= 1 && 0 <= yy < 100
    ensures 100 * century + yy >= 10 && (100 * century + yy) % 100 == yy
  {
  }

  /** Six two-character pieces laid end to end: where each piece sits. */
  lemma PairsAt(p0: string, p1: string, p2: string, p3: string, p4: string, p5: string)
    requires |p0| == |p1| == |p2| == |p3| == |p4| == |p5| == 2
    ensures var t := p0 + p1 + p2 + p3 + p4 + p5;
      && |t| == 12
      && t[0..2] == p0 && t[2..4] == p1 && t[4..6] == p2
      && t[6..8] == p3 && t[8..10] == p4 && t[10..12] == p5
  {
  }

  /** Displaying an encoded timestamp shows its hour, minute and second fields. */
  lemma DisplayOfEncoded(date: DateTime)
    requires FitsTwoDigits(date)
    ensures FormatTimestamp(FormatApiTimestamp(date))
      == Pad2(date.hour) + ":" + Pad2(date.minute) + ":" + Pad2(date.second)
  {
    FormatApiTimestampLayout(date);
    Pad2TwoDigits(date.hour);
    Pad2TwoDigits(date.minute);
    Pad2TwoDigits(date.second);
    PairsAt(DigitPair(date.year % 100), DigitPair(date.month), DigitPair(date.day),
            DigitPair(date.hour), DigitPair(date.minute), DigitPair(date.second));
  }

  /** The tooltip time is the first five characters of the display of the same instant's encoding. */
  lemma TooltipTimeIsDisplayPrefix(date: DateTime)
    requires FitsTwoDigits(date)
    ensures |FormatTooltipTime(date)| == 5
    ensures FormatTooltipTime(date) == FormatTimestamp(FormatApiTimestamp(date))[..5]
  {
    var h, m, sec := Pad2(date.hour), Pad2(date.minute), Pad2(date.second);
    assert FormatTimestamp(FormatApiTimestamp(date)) == h + ":" + m + ":" + sec by { DisplayOfEncoded(date); }
    assert (h + ":" + m + ":" + sec)[..5] == h + ":" + m;
  }
}
