/**
 * How the client and the server fit together: the timestamps the client writes are the
 * texts the server accepts, and every request the partition loop sends passes the
 * endpoint's argument checks.
 */
module EndToEnd {
  import opened Options
  import opened Digits
  import opened Calendar
  import opened ClientFormat
  import opened TimestampValidation
  import opened ElectricityEndpoint
  import opened GraphPartition

  /** On twelve digits, `strptime` reads the client decoder's fields, with the pivot year. */
  lemma StrptimeReadsDecodedFields(s: string)
    requires |s| == 12 && AllDigits(s)
    ensures var d := ParseApiTimestamp(s).value;
      StrptimeDate(s) == d.(year := PivotYear(d.year))
  {
    assert s[..12] == s;
  }

  /** A date that exists in year `y` also exists in the pivot year of `y`'s last two digits. */
  lemma RealDateInPivotYear(y: int, m: int, d: int)
    requires y >= 0 && IsRealDate(y, m, d)
    ensures IsRealDate(PivotYear(y % 100), m, d)
  {
    if m == 2 && IsLeapYear(y) {
      PivotLeapYear(y % 100);
      assert (y % 100) % 4 == y % 4 by {
        assert y == 100 * (y / 100) + y % 100;
        assert 100 * (y / 100) == 4 * (25 * (y / 100));
      }
    }
  }

  /**
   * Every timestamp the client writes for an existing date from year 10 on is accepted by
   * the server, which reads back the same date with the century chosen by `%y`.
   */
  lemma EncodedTimestampAccepted(date: DateTime)
    requires date.year >= 10 && IsValid(date)
    ensures ValidateTimestamp(FormatApiTimestamp(date))
    ensures var s := FormatApiTimestamp(date);
      |s| == 12 && AllDigits(s) && StrptimeDate(s) == date.(year := PivotYear(date.year % 100))
  {
    var s := FormatApiTimestamp(date);
    ApiTimestampRoundTrip(date);
    StrptimeReadsDecodedFields(s);
    RealDateInPivotYear(date.year, date.month, date.day);
    ValidateTimestampSpec(s);
  }

  /** Conversely, every text the server accepts is what the client writes for the date `strptime` reads from it. */
  lemma AcceptedTimestampReencodes(s: string)
    requires ValidateTimestamp(s)
    ensures |s| == 12 && AllDigits(s) && FormatApiTimestamp(StrptimeDate(s)) == s
  {
    assert |s| == 12 && AllDigits(s) by { ValidateTimestampSpec(s); }
    var d := ParseApiTimestamp(s).value;
    var e := StrptimeDate(s);
    StrptimeReadsDecodedFields(s);
    assert FormatApiTimestamp(e) == EncodedDigits(d) by {
      if d.year <= 68 {
        EncodeInCentury(d, 20);
      } else {
        EncodeInCentury(d, 19);
      }
    }
    DecodedFieldsReencode(s);
  }

  /**
   * When the local dates of a window's two bounds exist and lie in year 10 or later, the
   * request the partition loop builds for it passes the endpoint's checks: the answer is
   * 404 or 200, decided by the database alone.
   */
  lemma PartitionRequestsPassGuard(i: int, now: int, midnight: int, midnightYesterday: int,
                                   localTime: int -> DateTime,
                                   lastBefore: Option<Reading>, lastWithin: Option<Reading>)
    requires var w := SlotWindow(i, now, midnight, midnightYesterday);
      && localTime(w.start).year >= 10 && IsValid(localTime(w.start))
      && localTime(w.end).year >= 10 && IsValid(localTime(w.end))
    ensures var q := QueryFor(SlotWindow(i, now, midnight, midnightYesterday), localTime);
      var r := Electricity(Some(q.from), Some(q.to), lastBefore, lastWithin);
      !r.BadRequest? && (r.Found? <==> lastBefore.Some? && lastWithin.Some?)
  {
    var w := SlotWindow(i, now, midnight, midnightYesterday);
    var q := QueryFor(w, localTime);
    assert ValidateTimestamp(q.from) by { EncodedTimestampAccepted(localTime(w.start)); }
    assert ValidateTimestamp(q.to) by { EncodedTimestampAccepted(localTime(w.end)); }
    ValidArgumentsPassGuard(q.from, q.to, lastBefore, lastWithin);
  }

  /** Two accepted arguments get past every guard; the lookups alone decide 404 or 200. */
  lemma ValidArgumentsPassGuard(queryFrom: string, queryTo: string,
                                lastBefore: Option<Reading>, lastWithin: Option<Reading>)
    requires ValidateTimestamp(queryFrom) && ValidateTimestamp(queryTo)
    ensures var r := Electricity(Some(queryFrom), Some(queryTo), lastBefore, lastWithin);
      !r.BadRequest? && (r.Found? <==> lastBefore.Some? && lastWithin.Some?)
  {
    TrailingNewlineRejected(queryFrom);
    TrailingNewlineRejected(queryTo);
  }
}
