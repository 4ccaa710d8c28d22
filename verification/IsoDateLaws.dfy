/**
 The calendar and the grammar once more, told another way: the usual month table
 and day count, and the texts that can be written.
 */
module IsoDateLaws {
  import opened DecimalDigits
  import opened IsoDate

  /** Thirty days hath September, and so on. */
  lemma MonthTable(y: int, m: int)
    requires 1 <= m <= 12
    ensures MonthLength(y, m) ==
      [31, if y % 400 == 0 || (y % 4 == 0 && y % 100 != 0) then 29 else 28, 31, 30, 31, 30, 31, 31, 30, 31, 30, 31][m - 1]
  {
    if y % 400 == 0 { Multiples(y); }
  }

  lemma MonthsBefore(y: int, m: int)
    requires 1 <= m <= 12
    ensures DaysBeforeMonth(y, m) ==
      if m <= 2 then (153 * (m + 9) + 2) / 5 - 306
      else (if Leap(y) then 366 else 365) + (153 * (m - 3) + 2) / 5 - 306
  {
    if m > 1 { MonthsBefore(y, m - 1); }
  }

  /** The day number is the count of days from 0001-01-01, as it is usually
      computed with years that begin in March. */
  lemma DayNumberCounts(d: Date)
    requires RealDay(d)
    ensures var y := if d.month <= 2 then d.year - 1 else d.year; var m := if d.month <= 2 then d.month + 9 else d.month - 3;
      DayNumber(d) == 365 * y + y / 4 - y / 100 + y / 400 + (153 * m + 2) / 5 + d.day - 306
    ensures d == Date(1970, 1, 1) ==> DayNumber(d) == 719163
  {
    MonthsBefore(d.year, d.month);
    YearLength(d.year);
    hide Leap, DaysBeforeMonth, MonthLength;
  }

  /** Two digits, or four. */
  predicate Number(s: string, n: nat) {
    |s| == n && forall k :: 0 <= k < n ==> '0' <= s[k] <= '9'
  }

  ghost predicate DateText(s: string, y: string, m: string, d: string) {
    && Number(y, 4) && Number(m, 2) && Number(d, 2) && s == y + "-" + m + "-" + d
    && 1 <= Parse(y) && 1 <= Parse(m) <= 12 && 1 <= Parse(d) <= MonthLength(Parse(y), Parse(m))
  }

  /** A date is a year, a month and a day with dashes between, all in range. */
  lemma DatesAreWritten(s: string)
    ensures ValidDate(s) <==> exists y, m, d :: DateText(s, y, m, d)
  {
    hide Parse, MonthLength;
    if ValidDate(s) {
      DateJoins(s);
      assert DateText(s, s[0..4], s[5..7], s[8..10]);
    }
    if y, m, d :| DateText(s, y, m, d) { DateParts(s, y, m, d); }
  }

  lemma DateJoins(s: string)
    requires |s| == 10 && s[4] == '-' && s[7] == '-'
    ensures s == s[0..4] + "-" + s[5..7] + "-" + s[8..10]
  {
  }

  lemma DateParts(s: string, y: string, m: string, d: string)
    requires Number(y, 4) && Number(m, 2) && Number(d, 2) && s == y + "-" + m + "-" + d
    ensures |s| == 10 && s[0..4] == y && s[4] == '-' && s[5..7] == m && s[7] == '-' && s[8..10] == d
  {
  }

  ghost predicate TimeText(s: string, h: string, m: string, sec: string) {
    Number(h, 2) && Number(m, 2) && Number(sec, 2) && s == h + ":" + m + ":" + sec
  }

  lemma TimesAreWritten(s: string)
    ensures TimeShape(s) <==> exists h, m, sec :: TimeText(s, h, m, sec)
  {
    if TimeShape(s) { assert TimeText(s, s[0..2], s[3..5], s[6..8]); }
    if h, m, sec :| TimeText(s, h, m, sec) {
      assert s[0..2] == h && s[3..5] == m && s[6..8] == sec;
    }
  }

  ghost predicate FractionText(s: string, digits: string) {
    1 <= |digits| <= 9 && Number(digits, |digits|) && s == "." + digits
  }

  lemma FractionsAreWritten(s: string)
    ensures FractionShape(s) <==> s == "" || exists digits :: FractionText(s, digits)
  {
    if FractionShape(s) && s != "" { assert FractionText(s, s[1..]); }
    if digits :| FractionText(s, digits) { assert s[1..] == digits; }
  }

  ghost predicate OffsetText(s: string, sign: string, h: string, m: string) {
    && (sign == "+" || sign == "-") && Number(h, 2) && Number(m, 2) && s == sign + h + ":" + m
    && Parse(h) <= 15 && Parse(m) <= 59
  }

  lemma ZonesAreWritten(s: string)
    ensures ZoneShape(s) <==> s == "Z" || s == "z" || exists sign, h, m :: OffsetText(s, sign, h, m)
  {
    hide Parse;
    if ZoneShape(s) && s != "Z" && s != "z" {
      assert s[0..1] == [s[0]] && s == s[0..1] + s[1..3] + ":" + s[4..6];
      assert OffsetText(s, s[0..1], s[1..3], s[4..6]);
    }
    if sign, h, m :| OffsetText(s, sign, h, m) {
      assert s[1..3] == h && s[4..6] == m && s[0] == sign[0] && s[3] == ':';
    }
  }

  ghost predicate StampText(s: string, date: string, t: string, time: string, fraction: string, zone: string) {
    && ValidDate(date) && (t == "T" || t == "t") && TimeShape(time) && FractionShape(fraction) && ZoneShape(zone)
    && s == date + t + time + fraction + zone
  }

  /** A timestamp is a date, a T, a time, perhaps a fraction, and a zone. */
  lemma StampsAreWritten(s: string)
    ensures IsTimestamp(s) <==> exists date, t, time, fraction, zone :: StampText(s, date, t, time, fraction, zone)
  {
    hide ValidDate, TimeShape, FractionShape, ZoneShape;
    if f, z :| FractionShape(f) && ZoneShape(z) && Composed(s, f, z) {
      assert s == s[0..10] + s[10..11] + s[11..19] + f + z;
      assert StampText(s, s[0..10], s[10..11], s[11..19], f, z);
    }
    if date, t, time, f, z :| StampText(s, date, t, time, f, z) {
      StampParts(s, date, t, time, f, z);
      assert Composed(s, f, z);
    }
  }

  lemma StampParts(s: string, date: string, t: string, time: string, f: string, z: string)
    requires StampText(s, date, t, time, f, z)
    ensures |s| >= 19 && s[0..10] == date && s[10] == t[0] && s[11..19] == time && s[19..] == f + z
  {
    assert |date| == 10 && |t| == 1 && |time| == 8;
    assert s == date + (t + (time + (f + z)));
  }
}
