/**
 * The slice of Python's `datetime` the pipeline uses: civil dates in years 1..9999,
 * stepping back whole days (`date - timedelta(days=x)`), and the fixed-width
 * `strptime`/`str` formats `%Y%m%d%H%M%S`, `%Y-%m-%d %H:%M` and `%Y-%m-%d %H:%M:%S`.
 */
module DateTimes {
  import opened Wrappers
  import opened Strings

  datatype Date = Date(year: nat, month: nat, day: nat)

  datatype DateTime = DateTime(date: Date, hour: nat, minute: nat, second: nat)

  const MIN_YEAR := 1
  const MAX_YEAR := 9999

  predicate IsLeapYear(y: int)
  {
    y % 4 == 0 && (y % 100 != 0 || y % 400 == 0)
  }

  function DaysInMonth(y: int, m: int): (n: int)
    requires 1 <= m <= 12
    ensures 28 <= n <= 31
  {
    if m == 2 then (if IsLeapYear(y) then 29 else 28)
    else if m == 4 || m == 6 || m == 9 || m == 11 then 30
    else 31
  }

  predicate ValidDate(d: Date)
  {
    MIN_YEAR <= d.year <= MAX_YEAR && 1 <= d.month <= 12 && 1 <= d.day <= DaysInMonth(d.year, d.month)
  }

  predicate ValidDateTime(t: DateTime)
  {
    ValidDate(t.date) && 0 <= t.hour < 24 && 0 <= t.minute < 60 && 0 <= t.second < 60
  }

  /** Chronological order of dates. */
  predicate Before(a: Date, b: Date)
  {
    a.year < b.year || (a.year == b.year && (a.month < b.month || (a.month == b.month && a.day < b.day)))
  }

  lemma BeforeTransitive(a: Date, b: Date, c: Date)
    requires Before(a, b) && Before(b, c)
    ensures Before(a, c)
  {
  }

  // ---------------------------------------------------------------------------
  // Stepping back in the calendar
  // ---------------------------------------------------------------------------

  /** The day before `d`; `None` for 0001-01-01, where Python raises OverflowError. */
  function PrevDay(d: Date): (r: Option<Date>)
    requires ValidDate(d)
    ensures r.None? <==> d == Date(MIN_YEAR, 1, 1)
    ensures r.Some? ==> ValidDate(r.value) && Before(r.value, d)
  {
    if d.day > 1 then Some(d.(day := d.day - 1))
    else if d.month > 1 then Some(Date(d.year, d.month - 1, DaysInMonth(d.year, d.month - 1)))
    else if d.year > MIN_YEAR then Some(Date(d.year - 1, 12, 31))
    else None
  }

  /** No valid date lies strictly between `PrevDay(d)` and `d`: it is the immediate predecessor. */
  lemma PrevDayImmediate(d: Date, e: Date)
    requires ValidDate(d) && ValidDate(e) && PrevDay(d).Some?
    requires Before(e, d)
    ensures !Before(PrevDay(d).value, e)
  {
    if d.day == 1 && d.month > 1 && e.year == d.year && e.month == d.month - 1 {
      assert e.day <= DaysInMonth(d.year, d.month - 1);
    }
  }

  /** `today - timedelta(days=x)` as a calendar date; `None` when that falls before year 1. */
  function DaysBefore(today: Date, x: nat): (r: Option<Date>)
    requires ValidDate(today)
    ensures r.Some? ==> ValidDate(r.value)
  {
    if x == 0 then Some(today)
    else
      match DaysBefore(today, x - 1)
      case None => None
      case Some(d) => PrevDay(d)
  }

  /** Going further back gives a strictly earlier date, and every nearer offset exists. */
  lemma {:induction false} DaysBeforeDecreasing(today: Date, x: nat, y: nat)
    requires ValidDate(today) && x < y && DaysBefore(today, y).Some?
    ensures DaysBefore(today, x).Some?
    ensures Before(DaysBefore(today, y).value, DaysBefore(today, x).value)
    decreases y
  {
    var prev := DaysBefore(today, y - 1);
    assert prev.Some?;
    if x < y - 1 {
      DaysBeforeDecreasing(today, x, y - 1);
      BeforeTransitive(DaysBefore(today, y).value, prev.value, DaysBefore(today, x).value);
    }
  }

  /** Distinct offsets give distinct dates. */
  lemma DaysBeforeInjective(today: Date, x: nat, y: nat)
    requires ValidDate(today) && DaysBefore(today, x).Some? && DaysBefore(today, y).Some?
    requires DaysBefore(today, x) == DaysBefore(today, y)
    ensures x == y
  {
    if x < y {
      DaysBeforeDecreasing(today, x, y);
    } else if y < x {
      DaysBeforeDecreasing(today, y, x);
    }
  }

  // ---------------------------------------------------------------------------
  // strptime(s, "%Y%m%d%H%M%S"), strict fixed-width digits
  // ---------------------------------------------------------------------------

  /** `t.strftime("%Y%m%d%H%M%S")`. */
  function FormatCompact(t: DateTime): string
    requires ValidDateTime(t)
  {
    Pad(t.date.year, 4) + (Pad(t.date.month, 2) + (Pad(t.date.day, 2)
    + (Pad(t.hour, 2) + (Pad(t.minute, 2) + Pad(t.second, 2)))))
  }

  function ParseCompact(s: string): (r: Option<DateTime>)
    ensures r.Some? ==> ValidDateTime(r.value)
  {
    if |s| == 14 && AllDigits(s) then
      var t := DateTime(Date(DigitsValue(s[..4]), DigitsValue(s[4..6]), DigitsValue(s[6..8])),
                        DigitsValue(s[8..10]), DigitsValue(s[10..12]), DigitsValue(s[12..]));
      if ValidDateTime(t) then Some(t) else None
    else None
  }

  /** A fourteen-character text is its six fields, in order. */
  lemma CompactPieces(s: string)
    requires |s| == 14
    ensures s == s[..4] + (s[4..6] + (s[6..8] + (s[8..10] + (s[10..12] + s[12..]))))
  {
    Unglue(s, 0, 4);
    Unglue(s, 4, 2);
    Unglue(s, 6, 2);
    Unglue(s, 8, 2);
    Unglue(s, 10, 2);
    assert s[0..] == s && s[0..4] == s[..4];
  }

  lemma CompactParsedFormats(s: string)
    requires ParseCompact(s).Some?
    ensures FormatCompact(ParseCompact(s).value) == s
  {
    PadOfDigits(s[..4]);
    PadOfDigits(s[4..6]);
    PadOfDigits(s[6..8]);
    PadOfDigits(s[8..10]);
    PadOfDigits(s[10..12]);
    PadOfDigits(s[12..]);
    CompactPieces(s);
  }

  lemma CompactFormatParses(t: DateTime)
    requires ValidDateTime(t)
    ensures ParseCompact(FormatCompact(t)) == Some(t)
  {
    var s := FormatCompact(t);
    CompactPieces(s);
    var y, mo, d := Pad(t.date.year, 4), Pad(t.date.month, 2), Pad(t.date.day, 2);
    var h, mi, se := Pad(t.hour, 2), Pad(t.minute, 2), Pad(t.second, 2);
    ConcatCancel(s[..4], s[4..6] + (s[6..8] + (s[8..10] + (s[10..12] + s[12..]))), y, mo + (d + (h + (mi + se))));
    ConcatCancel(s[4..6], s[6..8] + (s[8..10] + (s[10..12] + s[12..])), mo, d + (h + (mi + se)));
    ConcatCancel(s[6..8], s[8..10] + (s[10..12] + s[12..]), d, h + (mi + se));
    ConcatCancel(s[8..10], s[10..12] + s[12..], h, mi + se);
    ConcatCancel(s[10..12], s[12..], mi, se);
    PadValue(t.date.year, 4);
    PadValue(t.date.month, 2);
    PadValue(t.date.day, 2);
    PadValue(t.hour, 2);
    PadValue(t.minute, 2);
    PadValue(t.second, 2);
  }

  /** Parsing exactly inverts formatting: `s` parses to `t` iff `t` is valid and formats to `s`. */
  lemma CompactRoundTrip(s: string, t: DateTime)
    ensures ParseCompact(s) == Some(t) <==> ValidDateTime(t) && FormatCompact(t) == s
  {
    if ParseCompact(s) == Some(t) {
      CompactParsedFormats(s);
    }
    if ValidDateTime(t) && FormatCompact(t) == s {
      CompactFormatParses(t);
    }
  }

  // ---------------------------------------------------------------------------
  // str(datetime): "%Y-%m-%d %H:%M:%S" (no fractional seconds in this pipeline)
  // ---------------------------------------------------------------------------

  function IsoFormat(t: DateTime): string
  {
    Pad(t.date.year, 4) + ("-" + (Pad(t.date.month, 2) + ("-" + (Pad(t.date.day, 2) + (" "
    + (Pad(t.hour, 2) + (":" + (Pad(t.minute, 2) + (":" + Pad(t.second, 2))))))))))
  }

  /** Distinct valid timestamps are written as distinct text. */
  lemma IsoFormatInjective(a: DateTime, b: DateTime)
    requires ValidDateTime(a) && ValidDateTime(b) && IsoFormat(a) == IsoFormat(b)
    ensures a == b
  {
    var y1, mo1, d1 := Pad(a.date.year, 4), Pad(a.date.month, 2), Pad(a.date.day, 2);
    var h1, mi1, s1 := Pad(a.hour, 2), Pad(a.minute, 2), Pad(a.second, 2);
    var y2, mo2, d2 := Pad(b.date.year, 4), Pad(b.date.month, 2), Pad(b.date.day, 2);
    var h2, mi2, s2 := Pad(b.hour, 2), Pad(b.minute, 2), Pad(b.second, 2);
    var r1 := ":" + s1;
    var r2 := ":" + s2;
    var q1 := ":" + (mi1 + r1);
    var q2 := ":" + (mi2 + r2);
    var p1 := "-" + (d1 + (" " + (h1 + q1)));
    var p2 := "-" + (d2 + (" " + (h2 + q2)));
    ConcatCancel(y1, "-" + (mo1 + p1), y2, "-" + (mo2 + p2));
    ConcatCancel("-", mo1 + p1, "-", mo2 + p2);
    ConcatCancel(mo1, p1, mo2, p2);
    ConcatCancel("-", d1 + (" " + (h1 + q1)), "-", d2 + (" " + (h2 + q2)));
    ConcatCancel(d1, " " + (h1 + q1), d2, " " + (h2 + q2));
    ConcatCancel(" ", h1 + q1, " ", h2 + q2);
    ConcatCancel(h1, q1, h2, q2);
    ConcatCancel(":", mi1 + r1, ":", mi2 + r2);
    ConcatCancel(mi1, r1, mi2, r2);
    ConcatCancel(":", s1, ":", s2);
    PadInjective(a.date.year, b.date.year, 4);
    PadInjective(a.date.month, b.date.month, 2);
    PadInjective(a.date.day, b.date.day, 2);
    PadInjective(a.hour, b.hour, 2);
    PadInjective(a.minute, b.minute, 2);
    PadInjective(a.second, b.second, 2);
  }

  // ---------------------------------------------------------------------------
  // strptime(s, "%Y-%m-%d %H:%M"), strict fixed-width digits, seconds zero
  // ---------------------------------------------------------------------------

  function FormatMinute(t: DateTime): string
    requires ValidDateTime(t)
  {
    Pad(t.date.year, 4) + ("-" + (Pad(t.date.month, 2) + ("-" + (Pad(t.date.day, 2) + (" "
    + (Pad(t.hour, 2) + (":" + Pad(t.minute, 2))))))))
  }

  /** The shape `%Y-%m-%d %H:%M` asks for: digits with separators at fixed places. */
  predicate MinuteShape(s: string)
  {
    |s| == 16 && s[4] == '-' && s[7] == '-' && s[10] == ' ' && s[13] == ':'
    && AllDigits(s[..4]) && AllDigits(s[5..7]) && AllDigits(s[8..10])
    && AllDigits(s[11..13]) && AllDigits(s[14..])
  }

  function ParseMinute(s: string): (r: Option<DateTime>)
    ensures r.Some? ==> ValidDateTime(r.value) && r.value.second == 0
  {
    if MinuteShape(s) then
      var t := DateTime(Date(DigitsValue(s[..4]), DigitsValue(s[5..7]), DigitsValue(s[8..10])),
                        DigitsValue(s[11..13]), DigitsValue(s[14..]), 0);
      if ValidDateTime(t) then Some(t) else None
    else None
  }

  /** A sixteen-character text is its fields and the single characters between them. */
  lemma MinutePieces(s: string)
    requires |s| == 16
    ensures s == s[..4] + ([s[4]] + (s[5..7] + ([s[7]] + (s[8..10] + ([s[10]] + (s[11..13] + ([s[13]] + s[14..])))))))
  {
    Unglue(s, 13, 1);
    assert s[13..14] == [s[13]];
    var t13 := [s[13]] + s[14..];
    assert s[13..] == t13;
    Unglue(s, 11, 2);
    var t11 := s[11..13] + t13;
    assert s[11..] == t11;
    Unglue(s, 10, 1);
    assert s[10..11] == [s[10]];
    var t10 := [s[10]] + t11;
    assert s[10..] == t10;
    Unglue(s, 8, 2);
    var t8 := s[8..10] + t10;
    assert s[8..] == t8;
    Unglue(s, 7, 1);
    assert s[7..8] == [s[7]];
    var t7 := [s[7]] + t8;
    assert s[7..] == t7;
    Unglue(s, 5, 2);
    var t5 := s[5..7] + t7;
    assert s[5..] == t5;
    Unglue(s, 4, 1);
    assert s[4..5] == [s[4]];
    var t4 := [s[4]] + t5;
    assert s[4..] == t4;
    Unglue(s, 0, 4);
    assert s[0..] == s && s[0..4] == s[..4];
  }

  lemma MinuteParsedFormats(s: string)
    requires ParseMinute(s).Some?
    ensures FormatMinute(ParseMinute(s).value) == s
  {
    PadOfDigits(s[..4]);
    PadOfDigits(s[5..7]);
    PadOfDigits(s[8..10]);
    PadOfDigits(s[11..13]);
    PadOfDigits(s[14..]);
    MinutePieces(s);
    assert [s[4]] == "-" && [s[7]] == "-" && [s[10]] == " " && [s[13]] == ":";
  }

  lemma MinuteFormatParses(t: DateTime)
    requires ValidDateTime(t) && t.second == 0
    ensures ParseMinute(FormatMinute(t)) == Some(t)
  {
    var s := FormatMinute(t);
    var y, mo, d := Pad(t.date.year, 4), Pad(t.date.month, 2), Pad(t.date.day, 2);
    var h, mi := Pad(t.hour, 2), Pad(t.minute, 2);
    MinutePieces(s);
    var r1 := [s[13]] + s[14..];
    var r2 := [s[10]] + (s[11..13] + r1);
    var r3 := [s[7]] + (s[8..10] + r2);
    var q1 := ":" + mi;
    var q2 := " " + (h + q1);
    var q3 := "-" + (d + q2);
    ConcatCancel(s[..4], [s[4]] + (s[5..7] + r3), y, "-" + (mo + q3));
    ConcatCancel([s[4]], s[5..7] + r3, "-", mo + q3);
    ConcatCancel(s[5..7], r3, mo, q3);
    ConcatCancel([s[7]], s[8..10] + r2, "-", d + q2);
    ConcatCancel(s[8..10], r2, d, q2);
    ConcatCancel([s[10]], s[11..13] + r1, " ", h + q1);
    ConcatCancel(s[11..13], r1, h, q1);
    ConcatCancel([s[13]], s[14..], ":", mi);
    assert MinuteShape(s);
    PadValue(t.date.year, 4);
    PadValue(t.date.month, 2);
    PadValue(t.date.day, 2);
    PadValue(t.hour, 2);
    PadValue(t.minute, 2);
  }

  /** `s` parses to `t` iff `t` is a valid whole-minute timestamp that formats to `s`. */
  lemma MinuteRoundTrip(s: string, t: DateTime)
    ensures ParseMinute(s) == Some(t) <==> ValidDateTime(t) && t.second == 0 && FormatMinute(t) == s
  {
    if ParseMinute(s) == Some(t) {
      MinuteParsedFormats(s);
    }
    if ValidDateTime(t) && t.second == 0 && FormatMinute(t) == s {
      MinuteFormatParses(t);
    }
  }

  /** `strptime` with `%Y-%m-%d %H:%M` rejects exactly the texts no valid minute is written as. */
  lemma MinuteRejects(s: string)
    ensures ParseMinute(s).None? <==> forall t :: !(ValidDateTime(t) && t.second == 0 && FormatMinute(t) == s)
  {
    if ParseMinute(s).Some? {
      MinuteRoundTrip(s, ParseMinute(s).value);
    } else {
      forall t | ValidDateTime(t) && t.second == 0 && FormatMinute(t) == s ensures false {
        MinuteRoundTrip(s, t);
      }
    }
  }
}
