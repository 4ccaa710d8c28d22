/**
 Stored dates as text: which strings are dates, and why sorting the text sorts
 the days.
 */
module IsoDate {
  import opened DecimalDigits
  import opened Prelude
  import opened TextOrder

  predicate Digits(s: string) {
    s != "" && forall k :: 0 <= k < |s| ==> IsDigit(s[k])
  }

  predicate Leap(y: int) {
    y % 4 == 0 && (y % 100 != 0 || y % 400 == 0)
  }

  function MonthLength(y: int, m: int): nat {
    if m == 2 then (if Leap(y) then 29 else 28) else if m == 4 || m == 6 || m == 9 || m == 11 then 30 else 31
  }

  datatype Date = Date(year: int, month: int, day: int)

  predicate RealDay(d: Date) {
    1 <= d.year && 1 <= d.month <= 12 && 1 <= d.day <= MonthLength(d.year, d.month)
  }

  predicate DateShape(s: string) {
    |s| == 10 && Digits(s[0..4]) && s[4] == '-' && Digits(s[5..7]) && s[7] == '-' && Digits(s[8..10])
  }

  function Read(s: string): Date
    requires DateShape(s)
  {
    Date(Parse(s[0..4]), Parse(s[5..7]), Parse(s[8..10]))
  }

  predicate ValidDate(s: string) {
    DateShape(s) && RealDay(Read(s))
  }

  method AllDigits(s: string) returns (ok: bool)
    ensures ok <==> Digits(s)
  {
    for i := 0 to |s|
      invariant forall k :: 0 <= k < i ==> IsDigit(s[k])
    {
      if s[i] < '0' || s[i] > '9' { return false; }
    }
    return s != "";
  }

  /** ParseDate: the shape first, then the calendar, then the year. */
  method ParseDate(s: string) returns (d: Option<Date>)
    ensures d.Some? <==> ValidDate(s)
    ensures d.Some? ==> d.value == Read(s)
  {
    if |s| != 10 { return None; }
    var year := AllDigits(s[0..4]);
    if !year || s[4] != '-' { return None; }
    var month := AllDigits(s[5..7]);
    if !month || s[7] != '-' { return None; }
    var day := AllDigits(s[8..10]);
    if !day { return None; }
    var read := Date(Parse(s[0..4]), Parse(s[5..7]), Parse(s[8..10]));
    if !(1 <= read.month <= 12 && 1 <= read.day <= MonthLength(read.year, read.month)) || read.year < 1 { return None; }
    return Some(read);
  }

  // ------------------------------------------------------------------------ order

  predicate DateBefore(a: Date, b: Date) {
    a.year < b.year || (a.year == b.year && (a.month < b.month || (a.month == b.month && a.day < b.day)))
  }

  /** Days in the years before y, and in the months of y before m. */
  function DaysBeforeYear(y: int): int {
    365 * (y - 1) + (y - 1) / 4 - (y - 1) / 100 + (y - 1) / 400
  }

  function DaysBeforeMonth(y: int, m: int): nat
    decreases m
  {
    if m <= 1 then 0 else DaysBeforeMonth(y, m - 1) + MonthLength(y, m - 1)
  }

  function DayNumber(d: Date): int {
    DaysBeforeYear(d.year) + DaysBeforeMonth(d.year, d.month) + d.day
  }

  lemma {:induction false} ValueBound(s: string)
    requires forall k :: 0 <= k < |s| ==> IsDigit(s[k])
    ensures Parse(s) < Pow10(|s|)
  {
    if s != "" { ValueBound(s[..|s| - 1]); }
  }

  function Pow10(n: nat): nat {
    if n == 0 then 1 else 10 * Pow10(n - 1)
  }

  function Times(h: nat, p: nat): nat {
    if h == 0 then 0 else Times(h - 1, p) + p
  }

  lemma {:induction false} ValueCons(s: string)
    requires s != "" && forall k :: 0 <= k < |s| ==> IsDigit(s[k])
    ensures Parse(s) == Times(DigitValue(s[0]), Pow10(|s| - 1)) + Parse(s[1..])
  {
    if |s| > 1 {
      var init := s[..|s| - 1];
      ValueCons(init);
      assert s[1..][..|s| - 2] == init[1..];
      var head, rest, p := DigitValue(s[0]), Parse(init[1..]), Pow10(|s| - 2);
      Distribute(head, p, rest);
    } else {
      assert s[..0] == s[1..] == "";
      TimesOne(DigitValue(s[0]));
    }
  }

  lemma {:induction false} TimesOne(h: nat)
    ensures Times(h, 1) == h
  {
    if h > 0 { TimesOne(h - 1); }
  }

  lemma {:induction false} Distribute(h: nat, p: nat, r: int)
    ensures (Times(h, p) + r) * 10 == Times(h, 10 * p) + r * 10
  {
    if h > 0 { Distribute(h - 1, p, r); }
  }

  /** Digit strings of one length sort as their values. */
  lemma {:induction false} DigitsSort(a: string, b: string)
    requires |a| == |b|
    requires forall k :: 0 <= k < |a| ==> IsDigit(a[k])
    requires forall k :: 0 <= k < |b| ==> IsDigit(b[k])
    ensures TextBefore(a, b) <==> Parse(a) < Parse(b)
    ensures a == b <==> Parse(a) == Parse(b)
  {
    hide Times, Pow10;
    if a != "" {
      DigitsSort(a[1..], b[1..]);
      ValueCons(a);
      ValueCons(b);
      ValueBound(a[1..]);
      ValueBound(b[1..]);
      var p, h, g := Pow10(|a| - 1), DigitValue(a[0]), DigitValue(b[0]);
      Gap(h, g, p);
      Gap(g, h, p);
      Leading(h, g, Times(h, p), Times(g, p), Parse(a[1..]), Parse(b[1..]), p);
      assert a == [a[0]] + a[1..] && b == [b[0]] + b[1..];
    }
  }

  lemma {:induction false} Gap(h: nat, g: nat, p: nat)
    ensures h < g ==> Times(h, p) + p <= Times(g, p)
  {
    if h < g - 1 { Gap(h, g - 1, p); }
  }

  lemma Leading(h: int, g: int, hp: int, gp: int, r: nat, q: nat, p: nat)
    requires r < p && q < p && (h < g ==> hp + p <= gp) && (g < h ==> gp + p <= hp) && (h == g ==> hp == gp)
    ensures hp + r < gp + q <==> h < g || (h == g && r < q)
    ensures hp + r == gp + q <==> h == g && r == q
  {
  }

  /** Texts that share a front sort by the rest; texts that do not, by the front. */
  lemma {:induction false} SortByParts(a: string, b: string, n: nat)
    requires n <= |a| && n <= |b|
    ensures TextBefore(a, b) <==> TextBefore(a[..n], b[..n]) || (a[..n] == b[..n] && TextBefore(a[n..], b[n..]))
  {
    if n == 0 {
      assert a[0..] == a && b[0..] == b;
    } else {
      SortByParts(a[1..], b[1..], n - 1);
      assert a[..n][1..] == a[1..][..n - 1] && b[..n][1..] == b[1..][..n - 1];
      assert a[1..][n - 1..] == a[n..] && b[1..][n - 1..] == b[n..];
      assert a[..n] == [a[0]] + a[1..][..n - 1] && b[..n] == [b[0]] + b[1..][..n - 1];
    }
  }

  /** Sorting stored dates as text sorts them by the calendar. */
  lemma TextOrderIsCalendarOrder(a: string, b: string)
    requires DateShape(a) && DateShape(b)
    ensures TextBefore(a, b) <==> DateBefore(Read(a), Read(b))
    ensures a == b <==> Read(a) == Read(b)
  {
    hide Parse;
    var x, y := a[4..], b[4..];
    assert a[0..4] == a[..4] && b[0..4] == b[..4];
    SortByParts(a, b, 4);
    DigitsSort(a[..4], b[..4]);
    assert a[5..7] == x[1..3] && b[5..7] == y[1..3] && a[8..10] == x[4..6] && b[8..10] == y[4..6];
    MonthAndDay(x, y);
    assert a == a[..4] + x && b == b[..4] + y;
  }

  /** "-mm-dd". */
  lemma MonthAndDay(x: string, y: string)
    requires |x| == 6 && |y| == 6 && x[0] == y[0] && x[3] == y[3]
    requires Digits(x[1..3]) && Digits(y[1..3]) && Digits(x[4..6]) && Digits(y[4..6])
    ensures TextBefore(x, y) <==>
      Parse(x[1..3]) < Parse(y[1..3]) || (Parse(x[1..3]) == Parse(y[1..3]) && Parse(x[4..6]) < Parse(y[4..6]))
    ensures x == y <==> Parse(x[1..3]) == Parse(y[1..3]) && Parse(x[4..6]) == Parse(y[4..6])
  {
    hide Parse, TextBefore;
    DigitsSort(x[1..3], y[1..3]);
    DigitsSort(x[4..6], y[4..6]);
    SkipSame(x, y);
    SortByParts(x[1..], y[1..], 2);
    var p, q := x[3..], y[3..];
    SkipSame(p, q);
    assert x[1..][..2] == x[1..3] && x[1..][2..] == p && p[1..] == x[4..6];
    assert y[1..][..2] == y[1..3] && y[1..][2..] == q && q[1..] == y[4..6];
    SameParts(x, y);
  }

  lemma SkipSame(a: string, b: string)
    requires a != "" && b != "" && a[0] == b[0]
    ensures TextBefore(a, b) <==> TextBefore(a[1..], b[1..])
  {
  }

  lemma SameParts(x: string, y: string)
    requires |x| == 6 && |y| == 6 && x[0] == y[0] && x[3] == y[3]
    ensures x == y <==> x[1..3] == y[1..3] && x[4..6] == y[4..6]
  {
    assert x == [x[0]] + x[1..3] + [x[3]] + x[4..6] && y == [y[0]] + y[1..3] + [y[3]] + y[4..6];
  }

  lemma YearLength(y: int)
    ensures DaysBeforeYear(y + 1) == DaysBeforeYear(y) + (if Leap(y) then 366 else 365)
  {
    FourYears(y);
    Century(y);
    FourCenturies(y);
    Multiples(y);
  }

  lemma FourYears(y: int)
    ensures y / 4 - (y - 1) / 4 == if y % 4 == 0 then 1 else 0
  {
  }

  lemma Century(y: int)
    ensures y / 100 - (y - 1) / 100 == if y % 100 == 0 then 1 else 0
  {
  }

  lemma FourCenturies(y: int)
    ensures y / 400 - (y - 1) / 400 == if y % 400 == 0 then 1 else 0
  {
  }

  lemma Multiples(y: int)
    ensures y % 100 == 0 ==> y % 4 == 0
    ensures y % 400 == 0 ==> y % 100 == 0
  {
    if y % 100 == 0 { assert y == 4 * (25 * (y / 100)); }
    if y % 400 == 0 { assert y == 100 * (4 * (y / 400)); }
  }

  lemma {:induction false} YearsGrow(a: int, b: int)
    requires a <= b
    ensures DaysBeforeYear(a) + 365 * (b - a) <= DaysBeforeYear(b)
    ensures a < b ==> DaysBeforeYear(a) + (if Leap(a) then 366 else 365) <= DaysBeforeYear(b)
    decreases b - a
  {
    hide DaysBeforeYear;
    if a < b {
      YearLength(a);
      YearsGrow(a + 1, b);
    }
  }

  lemma {:induction false} MonthsGrow(y: int, m: int, n: int)
    requires 1 <= m < n
    ensures DaysBeforeMonth(y, m) + MonthLength(y, m) <= DaysBeforeMonth(y, n)
    decreases n
  {
    if m < n - 1 { MonthsGrow(y, m, n - 1); }
  }

  /** A day of year y comes within its year. */
  lemma WithinYear(d: Date)
    requires RealDay(d)
    ensures 1 <= DaysBeforeMonth(d.year, d.month) + d.day <= if Leap(d.year) then 366 else 365
  {
    if d.month < 13 { MonthsGrow(d.year, d.month, 13); }
    YearOfMonths(d.year);
  }

  lemma YearOfMonths(y: int)
    ensures DaysBeforeMonth(y, 13) == if Leap(y) then 366 else 365
  {
    assert DaysBeforeMonth(y, 3) == 31 + MonthLength(y, 2);
    assert DaysBeforeMonth(y, 5) == DaysBeforeMonth(y, 3) + 61;
    assert DaysBeforeMonth(y, 7) == DaysBeforeMonth(y, 5) + 61;
    assert DaysBeforeMonth(y, 9) == DaysBeforeMonth(y, 7) + 62;
    assert DaysBeforeMonth(y, 11) == DaysBeforeMonth(y, 9) + 61;
  }

  /** The calendar's order is the order of the days themselves. */
  lemma CalendarOrderIsDayOrder(a: Date, b: Date)
    requires RealDay(a) && RealDay(b)
    ensures DateBefore(a, b) <==> DayNumber(a) < DayNumber(b)
    ensures a == b <==> DayNumber(a) == DayNumber(b)
  {
    EarlierIsLess(a, b);
    EarlierIsLess(b, a);
  }

  lemma EarlierIsLess(a: Date, b: Date)
    requires RealDay(a) && RealDay(b)
    ensures DateBefore(a, b) ==> DayNumber(a) < DayNumber(b)
  {
    hide DaysBeforeYear, DaysBeforeMonth;
    WithinYear(a);
    WithinYear(b);
    if a.year < b.year {
      YearsGrow(a.year, b.year);
    } else if a.year == b.year && a.month < b.month {
      MonthsGrow(a.year, a.month, b.month);
    }
  }

  /** For every two strings the parser accepts: text, calendar and day order are one. */
  lemma TextSortsDays(a: string, b: string)
    requires ValidDate(a) && ValidDate(b)
    ensures TextBefore(a, b) <==> DayNumber(Read(a)) < DayNumber(Read(b))
    ensures a == b <==> DayNumber(Read(a)) == DayNumber(Read(b))
  {
    TextOrderIsCalendarOrder(a, b);
    CalendarOrderIsDayOrder(Read(a), Read(b));
  }

  // ------------------------------------------------------------------- timestamps

  /** hh:mm:ss, ranges left to the parse. */
  predicate TimeShape(s: string) {
    |s| == 8 && Digits(s[0..2]) && s[2] == ':' && Digits(s[3..5]) && s[5] == ':' && Digits(s[6..8])
  }

  predicate FractionShape(s: string) {
    s == "" || (2 <= |s| <= 10 && s[0] == '.' && Digits(s[1..]))
  }

  /** Z, or an offset up to 15:59. */
  predicate ZoneShape(s: string) {
    || s == "Z" || s == "z"
    || (|s| == 6 && (s[0] == '+' || s[0] == '-') && Digits(s[1..3]) && s[3] == ':' && Digits(s[4..6])
        && Parse(s[1..3]) <= 15 && Parse(s[4..6]) <= 59)
  }

  /** The grammar: a valid date, T, a time, perhaps a fraction, a zone. */
  ghost predicate IsTimestamp(s: string) {
    exists fraction, zone :: FractionShape(fraction) && ZoneShape(zone) && Composed(s, fraction, zone)
  }

  ghost predicate Composed(s: string, fraction: string, zone: string) {
    && |s| >= 19 && ValidDate(s[0..10]) && (s[10] == 'T' || s[10] == 't') && TimeShape(s[11..19])
    && s[19..] == fraction + zone
  }

  /** The rest after the time splits in one way only. */
  lemma SplitsOnce(rest: string, n: nat, fraction: string, zone: string)
    requires FractionShape(fraction) && ZoneShape(zone) && rest == fraction + zone
    requires 1 <= n <= |rest| && (forall k :: 1 <= k < n ==> IsDigit(rest[k])) && (n < |rest| ==> !IsDigit(rest[n]))
    ensures if rest[0] == '.' then fraction == rest[..n] && zone == rest[n..] && 2 <= n <= 10 else fraction == "" && zone == rest
  {
    if fraction == "" {
      assert rest == zone;
    } else {
      assert forall k | 1 <= k < |fraction| :: rest[k] == fraction[1..][k - 1];
      assert zone[0] == rest[|fraction|];
      assert n == |fraction|;
    }
  }

  /** timestampShape: accepts exactly the grammar. */
  method TimestampShape(s: string) returns (ok: bool)
    ensures ok <==> IsTimestamp(s)
  {
    if |s| < 20 {
      TooShort(s);
      return false;
    }
    var date := ParseDate(s[0..10]);
    if date.None? || (s[10] != 'T' && s[10] != 't') { return false; }
    var time := IsTime(s[11..19]);
    if !time { return false; }
    ok := IsTail(s[19..]);
    assert forall f, z :: Composed(s, f, z) <==> s[19..] == f + z;
  }

  method IsTime(s: string) returns (ok: bool)
    requires |s| == 8
    ensures ok <==> TimeShape(s)
  {
    var h := AllDigits(s[0..2]);
    if !h || s[2] != ':' { return false; }
    var m := AllDigits(s[3..5]);
    if !m || s[5] != ':' { return false; }
    ok := AllDigits(s[6..8]);
  }

  ghost predicate Tail(rest: string) {
    exists f, z :: FractionShape(f) && ZoneShape(z) && rest == f + z
  }

  /** A '.' and the digits after it are the fraction, and the rest is the zone. */
  lemma TailIs(rest: string, n: nat)
    requires 1 <= n <= |rest| && (forall k :: 1 <= k < n ==> IsDigit(rest[k])) && (n < |rest| ==> !IsDigit(rest[n]))
    ensures Tail(rest) <==> if rest[0] == '.' then 2 <= n <= 10 && ZoneShape(rest[n..]) else ZoneShape(rest)
  {
    hide ZoneShape, FractionShape, Digits;
    if f, z :| FractionShape(f) && ZoneShape(z) && rest == f + z { SplitsOnce(rest, n, f, z); }
    if rest[0] == '.' && 2 <= n <= 10 && ZoneShape(rest[n..]) { IsFraction(rest, n); }
    if rest[0] != '.' && ZoneShape(rest) { NoFraction(rest); }
  }

  lemma IsFraction(rest: string, n: nat)
    requires 2 <= n <= 10 && n <= |rest| && rest[0] == '.' && (forall k :: 1 <= k < n ==> IsDigit(rest[k]))
    ensures FractionShape(rest[..n]) && rest == rest[..n] + rest[n..]
  {
    assert rest[..n][1..] == rest[1..n];
  }

  lemma NoFraction(rest: string)
    ensures FractionShape("") && rest == "" + rest
  {
  }

  /** The fraction, if there is one, and the zone. */
  method IsTail(rest: string) returns (ok: bool)
    requires rest != ""
    ensures ok <==> Tail(rest)
  {
    hide Tail, ZoneShape;
    var zone, n := rest, 1;
    while n < |rest| && IsDigit(rest[n])
      invariant 1 <= n <= |rest| && forall k :: 1 <= k < n ==> IsDigit(rest[k])
    {
      n := n + 1;
    }
    TailIs(rest, n);
    if rest[0] == '.' {
      if n == 1 || n > 10 { return false; }
      zone := rest[n..];
    }
    ok := IsZone(zone);
  }

  method IsZone(s: string) returns (ok: bool)
    ensures ok <==> ZoneShape(s)
  {
    if s == "Z" || s == "z" { return true; }
    if |s| != 6 || (s[0] != '+' && s[0] != '-') { return false; }
    var h := AllDigits(s[1..3]);
    if !h || s[3] != ':' { return false; }
    var m := AllDigits(s[4..6]);
    if !m { return false; }
    AtMost(s[1..3], "15");
    AtMost(s[4..6], "59");
    TwoDigits('1', '5');
    TwoDigits('5', '9');
    return !TextBefore("15", s[1..3]) && !TextBefore("59", s[4..6]);
  }

  lemma AtMost(a: string, b: string)
    requires |a| == |b| && Digits(a) && Digits(b)
    ensures !TextBefore(b, a) <==> Parse(a) <= Parse(b)
  {
    DigitsSort(b, a);
  }

  lemma TwoDigits(x: char, y: char)
    requires IsDigit(x) && IsDigit(y)
    ensures Parse([x, y]) == 10 * (x as int - '0' as int) + (y as int - '0' as int)
  {
    assert [x, y][..1] == [x] && [x][..0] == [];
    assert Parse([x]) == x as int - '0' as int;
  }

  lemma TooShort(s: string)
    requires |s| < 20
    ensures !IsTimestamp(s)
  {
    forall f, z | FractionShape(f) && ZoneShape(z) ensures !Composed(s, f, z) {
      assert |f + z| >= 1;
      if |s| == 19 { assert |s[19..]| == 0; }
    }
  }
}
