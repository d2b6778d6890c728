/**
 Day numbers and calendar dates (`civil_from_days`, `now_iso`).

 `CivilFromDays` is the arithmetic of the program. `DayNumber` is an independent
 definition of the proleptic Gregorian calendar (section 5.7 and Appendix C of
 RFC 3339): the days of the earlier years, plus the days of the earlier months,
 plus the day of the month. The two are proved to be inverse bijections between
 all integers and all valid dates.
 */
module CivilCalendar {

  datatype Date = Date(year: int, month: int, day: int)

  // ----- The program -----

  // Days since 1970-01-01 to a date. Every divisor is positive, so the program's
  // operators (`div_euclid`/`rem_euclid`, then truncation on nonnegative values)
  // are Dafny's.
  function CivilFromDays(days: int): Date {
    var z := days + 719468;
    var era := z / 146097;
    var doe := z % 146097;
    var yoe := (doe - doe / 1460 + doe / 36524 - doe / 146096) / 365;
    var y := yoe + era * 400;
    var doy := doe - (365 * yoe + yoe / 4 - yoe / 100);
    var mp := (5 * doy + 2) / 153;
    var d := doy - (153 * mp + 2) / 5 + 1;
    var m := if mp < 10 then mp + 3 else mp - 9;
    Date(if m <= 2 then y + 1 else y, m, d)
  }

  // ----- The calendar -----

  predicate IsLeap(y: int) {
    y % 4 == 0 && (y % 100 != 0 || y % 400 == 0)
  }

  function DaysInMonth(y: int, m: int): int
    requires 1 <= m <= 12
  {
    if m == 2 then (if IsLeap(y) then 29 else 28)
    else if m == 4 || m == 6 || m == 9 || m == 11 then 30
    else 31
  }

  predicate IsDate(t: Date) {
    1 <= t.month <= 12 && 1 <= t.day <= DaysInMonth(t.year, t.month)
  }

  function NextDate(t: Date): Date
    requires IsDate(t)
  {
    if t.day < DaysInMonth(t.year, t.month) then t.(day := t.day + 1)
    else if t.month < 12 then Date(t.year, t.month + 1, 1)
    else Date(t.year + 1, 1, 1)
  }

  // Days from 0000-01-01 to the first day of year y.
  function DaysBeforeYear(y: int): int {
    365 * y + (y + 3) / 4 - (y + 99) / 100 + (y + 399) / 400
  }

  function DaysBeforeMonth(y: int, m: int): int
    requires 1 <= m <= 12
  {
    if m == 1 then 0 else DaysBeforeMonth(y, m - 1) + DaysInMonth(y, m - 1)
  }

  // Days from 1970-01-01, counted year by year and month by month.
  function DayNumber(t: Date): int
    requires 1 <= t.month <= 12
  {
    DaysBeforeYear(t.year) - DaysBeforeYear(1970) + DaysBeforeMonth(t.year, t.month) + t.day - 1
  }

  ghost predicate Earlier(a: Date, b: Date) {
    a.year < b.year
    || (a.year == b.year && (a.month < b.month || (a.month == b.month && a.day < b.day)))
  }

  // ----- Facts about the calendar -----

  lemma DivStep(x: int, d: int)
    requires d > 1
    ensures (x + 1) / d == x / d + if (x + 1) % d == 0 then 1 else 0
  {
    var q, r := x / d, x % d;
    assert x + 1 == d * q + (r + 1);
    if r + 1 < d {
      DivIs(x + 1, d, q);
    } else {
      assert x + 1 == d * (q + 1);
      DivIs(x + 1, d, q + 1);
    }
  }

  lemma MulKeepsOrder(d: int, a: int, b: int)
    requires d > 0 && a < b
    ensures d * a + d <= d * b
  {
    var k := b - a - 1;
    assert d * k >= 0;
    assert d * b == d * (a + 1 + k) == d * a + d + d * k;
  }

  // The quotient is the integer whose multiple of d brackets x.
  lemma DivIs(x: int, d: int, q: int)
    requires d > 0 && d * q <= x < d * q + d
    ensures x / d == q
  {
    var p := x / d;
    if p < q {
      MulKeepsOrder(d, p, q);
    } else if q < p {
      MulKeepsOrder(d, q, p);
    }
  }

  lemma YearLength(y: int)
    ensures DaysBeforeYear(y + 1) - DaysBeforeYear(y) == if IsLeap(y) then 366 else 365
  {
    DivStep(y + 3, 4);
    DivStep(y + 99, 100);
    DivStep(y + 399, 400);
    Divisibility(y);
  }

  lemma Divisibility(y: int)
    ensures (y + 4) % 4 == y % 4 && (y + 100) % 100 == y % 100 && (y + 400) % 400 == y % 400
    ensures y % 400 == 0 ==> y % 100 == 0
    ensures y % 100 == 0 ==> y % 4 == 0
  {
    var q := y / 400;
    if y % 400 == 0 {
      DivIs(y, 100, 4 * q);
    }
    if y % 100 == 0 {
      DivIs(y, 4, 25 * (y / 100));
    }
  }

  lemma MonthTable(y: int)
    ensures DaysBeforeMonth(y, 1) == 0 && DaysBeforeMonth(y, 2) == 31
    ensures var k := if IsLeap(y) then 1 else 0;
            && DaysBeforeMonth(y, 3) == 59 + k && DaysBeforeMonth(y, 4) == 90 + k
            && DaysBeforeMonth(y, 5) == 120 + k && DaysBeforeMonth(y, 6) == 151 + k
            && DaysBeforeMonth(y, 7) == 181 + k && DaysBeforeMonth(y, 8) == 212 + k
            && DaysBeforeMonth(y, 9) == 243 + k && DaysBeforeMonth(y, 10) == 273 + k
            && DaysBeforeMonth(y, 11) == 304 + k && DaysBeforeMonth(y, 12) == 334 + k
  {
    assert DaysBeforeMonth(y, 4) == DaysBeforeMonth(y, 3) + 31;
    assert DaysBeforeMonth(y, 7) == DaysBeforeMonth(y, 6) + 30;
    assert DaysBeforeMonth(y, 10) == DaysBeforeMonth(y, 9) + 30;
  }

  lemma NextDateCounts(t: Date)
    requires IsDate(t)
    ensures IsDate(NextDate(t)) && DayNumber(NextDate(t)) == DayNumber(t) + 1
    ensures Earlier(t, NextDate(t))
  {
    MonthTable(t.year);
    MonthTable(t.year + 1);
    YearLength(t.year);
  }

  // ----- The program computes the calendar -----

  // The position of a day in its 400-year era: century, 4-year cycle, day of the cycle.
  lemma EraDigits(doe: int) returns (c: int, q: int, s: int)
    requires 0 <= doe < 146097
    ensures 0 <= c <= 3 && 0 <= q <= 24 && 0 <= s <= 1460
    ensures doe == 36524 * c + 1461 * q + s
    ensures q == 24 && s == 1460 ==> c == 3
  {
    c := if doe == 146096 then 3 else doe / 36524;
    var r := doe - 36524 * c;
    q := r / 1461;
    s := r % 1461;
  }

  lemma YearOfEra(doe: int, c: int, q: int, s: int)
    requires 0 <= c <= 3 && 0 <= q <= 24 && 0 <= s <= 1460
    requires q == 24 && s == 1460 ==> c == 3
    requires doe == 36524 * c + 1461 * q + s
    ensures (doe - doe / 1460 + doe / 36524 - doe / 146096) / 365
            == 100 * c + 4 * q + if s == 1460 then 3 else s / 365
  {
    var carry := if 24 * c + q + s >= 1460 then 1 else 0;
    DivIs(doe, 1460, 25 * c + q + carry);
    var last := if doe == 146096 then 1 else 0;
    DivIs(doe, 36524, c + last);
    DivIs(doe, 146096, last);
    var t := if s == 1460 then 3 else s / 365;
    assert 365 * t <= s - carry < 365 * t + 365;
    DivIs(36500 * c + 1460 * q + s - carry, 365, 100 * c + 4 * q + t);
  }

  // The day of the March-based year, and the length of that year.
  lemma DayOfYear(era: int, doe: int) returns (yoe: int, doy: int)
    requires 0 <= doe < 146097
    ensures yoe == (doe - doe / 1460 + doe / 36524 - doe / 146096) / 365
    ensures doy == doe - (365 * yoe + yoe / 4 - yoe / 100)
    ensures 0 <= yoe < 400 && 0 <= doy <= 365
    ensures doy == 365 ==> IsLeap(400 * era + yoe + 1)
  {
    var c, q, s := EraDigits(doe);
    YearOfEra(doe, c, q, s);
    var t := if s == 1460 then 3 else s / 365;
    yoe := 100 * c + 4 * q + t;
    DivIs(yoe, 4, 25 * c + q);
    DivIs(yoe, 100, c);
    doy := s - 365 * t;
    if doy == 365 {
      LeapYearEndsEra(era, c, q);
    }
  }

  lemma LeapYearEndsEra(era: int, c: int, q: int)
    requires 0 <= c <= 3 && 0 <= q <= 24 && (q == 24 ==> c == 3)
    ensures IsLeap(400 * era + 100 * c + 4 * q + 4)
  {
    var y := 400 * era + 100 * c + 4 * q + 4;
    DivIs(y, 4, 100 * era + 25 * c + q + 1);
    if q == 24 {
      DivIs(y, 400, era + 1);
    } else {
      DivIs(y, 100, 4 * era + c);
    }
  }

  // Days from 0000-03-01 to 1 March of year y, in both ways of counting.
  lemma MarchFirst(era: int, yoe: int)
    requires 0 <= yoe < 400
    ensures var y := 400 * era + yoe;
            && DaysBeforeYear(y + 1) == 366 + 146097 * era + 365 * yoe + yoe / 4 - yoe / 100
            && DaysBeforeYear(y) + (if IsLeap(y) then 1 else 0) + 365 == DaysBeforeYear(y + 1)
  {
    var y := 400 * era + yoe;
    DivIs(y + 4, 4, 100 * era + yoe / 4 + 1);
    DivIs(y + 100, 100, 4 * era + yoe / 100 + 1);
    DivIs(y + 400, 400, era + 1);
    YearLength(y);
  }

  // Month and day from the day of the March-based year.
  lemma MonthOfDay(doy: int)
    requires 0 <= doy <= 365
    ensures var mp := (5 * doy + 2) / 153;
            var start := (153 * mp + 2) / 5;
            && 0 <= mp <= 11
            && start == [0, 31, 61, 92, 122, 153, 184, 214, 245, 275, 306, 337][mp]
            && start <= doy
            && (mp < 11 ==> doy < [31, 61, 92, 122, 153, 184, 214, 245, 275, 306, 337][mp])
  {
  }

  // The date that a day of the March-based year y falls on.
  function MarchDate(y: int, doy: int): Date {
    var mp := (5 * doy + 2) / 153;
    var m := if mp < 10 then mp + 3 else mp - 9;
    Date(if m <= 2 then y + 1 else y, m, doy - (153 * mp + 2) / 5 + 1)
  }

  lemma MarchDateCounts(y: int, doy: int)
    requires 0 <= doy <= 365
    requires doy == 365 ==> IsLeap(y + 1)
    ensures var t := MarchDate(y, doy);
            && IsDate(t)
            && DaysBeforeMonth(t.year, t.month) + t.day - 1
               == doy + (if t.year == y then 59 + (if IsLeap(y) then 1 else 0) else -306)
  {
    MonthOfDay(doy);
    if (5 * doy + 2) / 153 < 10 {
      MonthTable(y);
    } else {
      MonthTable(y + 1);
    }
  }

  // The program's date is the March-based date of its era, year and day.
  lemma CivilSplits(days: int) returns (era: int, doe: int, yoe: int, doy: int)
    ensures days + 719468 == 146097 * era + doe && 0 <= doe < 146097
    ensures 0 <= yoe < 400 && 0 <= doy <= 365
    ensures doy == doe - (365 * yoe + yoe / 4 - yoe / 100)
    ensures doy == 365 ==> IsLeap(400 * era + yoe + 1)
    ensures CivilFromDays(days) == MarchDate(400 * era + yoe, doy)
  {
    era, doe := (days + 719468) / 146097, (days + 719468) % 146097;
    yoe, doy := DayOfYear(era, doe);
  }

  lemma CivilIsTheCalendar(days: int)
    ensures IsDate(CivilFromDays(days))
    ensures DayNumber(CivilFromDays(days)) == days
  {
    var era, doe, yoe, doy := CivilSplits(days);
    var y, t := 400 * era + yoe, CivilFromDays(days);
    MarchDateCounts(y, doy);
    MarchFirst(era, yoe);
    DayNumberFromMarch(t, y, doy);
  }

  lemma DayNumberFromMarch(t: Date, y: int, doy: int)
    requires 1 <= t.month <= 12 && (t.year == y || t.year == y + 1)
    requires DaysBeforeYear(y) + (if IsLeap(y) then 1 else 0) + 365 == DaysBeforeYear(y + 1)
    requires DaysBeforeMonth(t.year, t.month) + t.day - 1
             == doy + (if t.year == y then 59 + (if IsLeap(y) then 1 else 0) else -306)
    ensures DayNumber(t) == DaysBeforeYear(y + 1) - 306 + doy - 719528
  {
    assert DaysBeforeYear(1970) == 719528;
  }

  // ----- Order -----

  lemma {:induction false} LaterYearStartsLater(a: int, b: int)
    requires a <= b
    ensures DaysBeforeYear(a) <= DaysBeforeYear(b)
    decreases b - a
  {
    if a < b {
      LaterYearStartsLater(a, b - 1);
      YearLength(b - 1);
    }
  }

  lemma {:induction false} LaterMonthStartsLater(y: int, a: int, b: int)
    requires 1 <= a < b <= 12
    ensures DaysBeforeMonth(y, a) + DaysInMonth(y, a) <= DaysBeforeMonth(y, b)
    decreases b - a
  {
    if a < b - 1 {
      LaterMonthStartsLater(y, a, b - 1);
    }
  }

  lemma DayNumberKeepsOrder(a: Date, b: Date)
    requires IsDate(a) && IsDate(b) && Earlier(a, b)
    ensures DayNumber(a) < DayNumber(b)
  {
    if a.year == b.year {
      if a.month < b.month {
        LaterMonthStartsLater(a.year, a.month, b.month);
      }
    } else {
      MonthTable(a.year);
      MonthTable(b.year);
      YearLength(a.year);
      LaterYearStartsLater(a.year + 1, b.year);
      if a.month < 12 {
        LaterMonthStartsLater(a.year, a.month, 12);
      }
      if 1 < b.month {
        LaterMonthStartsLater(b.year, 1, b.month);
      }
      assert DayNumber(a) + DaysBeforeYear(1970) < DaysBeforeYear(a.year + 1);
    }
  }

  lemma SameDaySameDate(a: Date, b: Date)
    requires IsDate(a) && IsDate(b) && DayNumber(a) == DayNumber(b)
    ensures a == b
  {
    if Earlier(a, b) {
      DayNumberKeepsOrder(a, b);
    } else if Earlier(b, a) {
      DayNumberKeepsOrder(b, a);
    }
  }

  // ----- Main results on dates -----

  // Every valid date is reached, from exactly the day that the calendar gives it.
  lemma CivilInvertsDayNumber(t: Date)
    requires IsDate(t)
    ensures CivilFromDays(DayNumber(t)) == t
  {
    CivilIsTheCalendar(DayNumber(t));
    SameDaySameDate(CivilFromDays(DayNumber(t)), t);
  }

  lemma CivilEpoch()
    ensures CivilFromDays(0) == Date(1970, 1, 1)
  {
    CivilInvertsDayNumber(Date(1970, 1, 1));
  }

  // The date of the next day is the next date.
  lemma CivilSuccessor(days: int)
    ensures IsDate(CivilFromDays(days))
    ensures CivilFromDays(days + 1) == NextDate(CivilFromDays(days))
  {
    CivilIsTheCalendar(days);
    CivilIsTheCalendar(days + 1);
    NextDateCounts(CivilFromDays(days));
    SameDaySameDate(CivilFromDays(days + 1), NextDate(CivilFromDays(days)));
  }

  lemma CivilKeepsOrder(a: int, b: int)
    ensures a < b <==> Earlier(CivilFromDays(a), CivilFromDays(b))
    ensures a == b <==> CivilFromDays(a) == CivilFromDays(b)
  {
    var s, t := CivilFromDays(a), CivilFromDays(b);
    CivilIsTheCalendar(a);
    CivilIsTheCalendar(b);
    if Earlier(s, t) {
      DayNumberKeepsOrder(s, t);
    } else if Earlier(t, s) {
      DayNumberKeepsOrder(t, s);
    }
  }

  const I64_MIN: int := -0x8000_0000_0000_0000
  const I64_MAX: int := 0x7FFF_FFFF_FFFF_FFFF

  predicate Fits(x: int) {
    I64_MIN <= x <= I64_MAX
  }

  // Every intermediate value of the program after the first addition.
  predicate IntermediatesFit(era: int, doe: int, yoe: int, doy: int, mp: int) {
    && Fits(era) && Fits(doe)
    && Fits(doe / 1460) && Fits(doe / 36524) && Fits(doe / 146096) && Fits(doe - doe / 1460)
    && Fits(doe - doe / 1460 + doe / 36524) && Fits(doe - doe / 1460 + doe / 36524 - doe / 146096)
    && Fits(yoe) && Fits(era * 400) && Fits(yoe + era * 400) && Fits(yoe + era * 400 + 1)
    && Fits(365 * yoe) && Fits(yoe / 4) && Fits(365 * yoe + yoe / 4) && Fits(yoe / 100)
    && Fits(365 * yoe + yoe / 4 - yoe / 100) && Fits(doy)
    && Fits(5 * doy) && Fits(5 * doy + 2) && Fits(mp) && Fits(153 * mp) && Fits(153 * mp + 2)
    && Fits((153 * mp + 2) / 5) && Fits(doy - (153 * mp + 2) / 5) && Fits(mp + 3) && Fits(mp - 9)
  }

  // When the first addition fits a signed 64-bit word, so does every later
  // intermediate value, and the two narrowing casts keep month and day.
  lemma CivilFitsWords(days: int) returns (era: int, doe: int, yoe: int, doy: int, mp: int)
    requires Fits(days) && Fits(days + 719468)
    ensures era == (days + 719468) / 146097 && doe == (days + 719468) % 146097
    ensures yoe == (doe - doe / 1460 + doe / 36524 - doe / 146096) / 365
    ensures doy == doe - (365 * yoe + yoe / 4 - yoe / 100) && mp == (5 * doy + 2) / 153
    ensures IntermediatesFit(era, doe, yoe, doy, mp)
    ensures 1 <= CivilFromDays(days).month <= 12 && 1 <= CivilFromDays(days).day <= 31
  {
    era, doe := (days + 719468) / 146097, (days + 719468) % 146097;
    yoe, doy := DayOfYear(era, doe);
    mp := (5 * doy + 2) / 153;
    MonthOfDay(doy);
    CivilIsTheCalendar(days);
  }

  // ----- Timestamps (`now_iso`) -----

  function Digit(d: int): char
    requires 0 <= d < 10
  {
    '0' + d as char
  }

  // The decimal digits of n, padded with zeros to at least `width` (`{n:0width}`).
  function Pad(n: nat, width: nat): (s: string)
    decreases n + width
  {
    if width <= 1 && n < 10 then [Digit(n)]
    else Pad(n / 10, if width == 0 then 0 else width - 1) + [Digit(n % 10)]
  }

  function DateText(date: Date): string {
    Pad(Abs(date.year), 4) + "-" + Pad(Abs(date.month), 2) + "-" + Pad(Abs(date.day), 2)
  }

  function HourText(secs: nat): string {
    DateText(CivilFromDays(secs / 86400)) + "T" + Pad((secs / 3600) % 24, 2)
  }

  function SecondText(secs: nat): string {
    HourText(secs) + ":" + Pad((secs / 60) % 60, 2) + ":" + Pad(secs % 60, 2)
  }

  // Milliseconds since the epoch to `YYYY-MM-DDTHH:MM:SS.mmmZ`.
  function Iso(ms: nat): string {
    SecondText(ms / 1000) + "." + Pad(ms % 1000, 3) + "Z"
  }

  // Days since the epoch are nonnegative, so no field is negative.
  function Abs(n: int): nat {
    if n < 0 then -n else n
  }

  ghost predicate LexLess(a: string, b: string) {
    b != [] && (a == [] || a[0] < b[0] || (a[0] == b[0] && LexLess(a[1..], b[1..])))
  }

  lemma {:induction false} LexAppend(a: string, b: string, x: string, y: string)
    requires |a| == |b|
    ensures LexLess(a + x, b + y) <==> LexLess(a, b) || (a == b && LexLess(x, y))
  {
    if a == [] {
      assert a + x == x && b + y == y;
    } else {
      assert (a + x)[1..] == a[1..] + x && (b + y)[1..] == b[1..] + y;
      LexAppend(a[1..], b[1..], x, y);
      assert a == [a[0]] + a[1..] && b == [b[0]] + b[1..];
    }
  }

  function Pow10(w: nat): nat {
    if w == 0 then 1 else 10 * Pow10(w - 1)
  }

  lemma {:induction false} PadKeepsOrder(m: nat, n: nat, width: nat)
    requires 1 <= width && m < Pow10(width) && n < Pow10(width)
    ensures |Pad(m, width)| == |Pad(n, width)| == width
    ensures LexLess(Pad(m, width), Pad(n, width)) <==> m < n
    ensures Pad(m, width) == Pad(n, width) <==> m == n
  {
    if width == 1 {
      assert Pow10(1) == 10 * Pow10(0);
    } else {
      PadKeepsOrder(m / 10, n / 10, width - 1);
      var p, q := Pad(m / 10, width - 1), Pad(n / 10, width - 1);
      LexAppend(p, q, [Digit(m % 10)], [Digit(n % 10)]);
      if Pad(m, width) == Pad(n, width) {
        assert Pad(m, width)[..width - 1] == p && Pad(n, width)[..width - 1] == q;
        assert Pad(m, width)[width - 1] == Pad(n, width)[width - 1];
      }
    }
  }

  // One more field, after a separator.
  lemma AddField(a: string, b: string, sep: string, m: nat, n: nat, width: nat)
    requires |a| == |b| && 1 <= width && m < Pow10(width) && n < Pow10(width)
    ensures var s, t := a + sep + Pad(m, width), b + sep + Pad(n, width);
            && |s| == |t|
            && (LexLess(s, t) <==> LexLess(a, b) || (a == b && m < n))
            && (s == t <==> a == b && m == n)
  {
    PadKeepsOrder(m, n, width);
    LexSame(sep);
    LexAppend(a, b, sep, sep);
    LexAppend(a + sep, b + sep, Pad(m, width), Pad(n, width));
    var s, t := a + sep + Pad(m, width), b + sep + Pad(n, width);
    assert s[..|a|] == a && t[..|b|] == b;
    assert s[|a| + |sep|..] == Pad(m, width) && t[|b| + |sep|..] == Pad(n, width);
  }

  lemma {:induction false} LexSame(s: string)
    ensures !LexLess(s, s)
  {
    if s != [] {
      LexSame(s[1..]);
    }
  }

  lemma PowTable()
    ensures Pow10(2) == 100 && Pow10(3) == 1000 && Pow10(4) == 10000
  {
    assert Pow10(1) == 10 * Pow10(0);
    assert Pow10(3) == 10 * Pow10(2);
  }

  ghost predicate FourDigitYear(date: Date) {
    0 <= date.year <= 9999
  }

  // The day number of 9999-12-31.
  const LAST_DAY: nat := 2932896

  lemma LastDay()
    ensures CivilFromDays(LAST_DAY) == Date(9999, 12, 31)
  {
    hide CivilFromDays;
    MonthTable(9999);
    CivilInvertsDayNumber(Date(9999, 12, 31));
  }

  // The years of the days since the epoch have four digits up to that day and no longer.
  lemma FourDigitDays(days: nat)
    ensures FourDigitYear(CivilFromDays(days)) <==> days <= LAST_DAY
  {
    hide CivilFromDays, DayNumber, DaysInMonth;
    LastDay();
    CivilEpoch();
    CivilIsTheCalendar(days);
    CivilKeepsOrder(0, days);
    CivilKeepsOrder(LAST_DAY, days);
    assert DaysInMonth(CivilFromDays(days).year, 12) == 31 by {
      DecemberDays(CivilFromDays(days).year);
    }
  }

  lemma DecemberDays(y: int)
    ensures DaysInMonth(y, 12) == 31
  {
  }

  lemma DateTextKeepsOrder(a: Date, b: Date)
    requires IsDate(a) && IsDate(b) && FourDigitYear(a) && FourDigitYear(b)
    ensures |DateText(a)| == |DateText(b)|
    ensures LexLess(DateText(a), DateText(b)) <==> Earlier(a, b)
    ensures DateText(a) == DateText(b) <==> a == b
  {
    PowTable();
    PadKeepsOrder(a.year, b.year, 4);
    AddField(Pad(a.year, 4), Pad(b.year, 4), "-", a.month, b.month, 2);
    AddField(Pad(a.year, 4) + "-" + Pad(a.month, 2), Pad(b.year, 4) + "-" + Pad(b.month, 2),
             "-", a.day, b.day, 2);
  }

  lemma SplitOrder(s: nat, t: nat, k: nat)
    requires k > 0
    ensures s < t <==> s / k < t / k || (s / k == t / k && s % k < t % k)
    ensures s == t <==> s / k == t / k && s % k == t % k
  {
    var p, q := s / k, t / k;
    assert s == k * p + s % k && t == k * q + t % k;
    if p < q {
      MulKeepsOrder(k, p, q);
    } else if q < p {
      MulKeepsOrder(k, q, p);
    }
  }

  lemma DivDiv(s: nat)
    ensures s / 60 / 60 == s / 3600 && s / 3600 / 24 == s / 86400
  {
    DivIs(s, 3600, s / 60 / 60);
    DivIs(s, 86400, s / 3600 / 24);
  }

  lemma HourTextKeepsOrder(s: nat, t: nat)
    requires s / 86400 <= LAST_DAY && t / 86400 <= LAST_DAY
    ensures |HourText(s)| == |HourText(t)|
    ensures LexLess(HourText(s), HourText(t)) <==> s / 3600 < t / 3600
    ensures HourText(s) == HourText(t) <==> s / 3600 == t / 3600
  {
    var a, b := s / 86400, t / 86400;
    CivilIsTheCalendar(a);
    CivilIsTheCalendar(b);
    CivilKeepsOrder(a, b);
    FourDigitDays(a);
    FourDigitDays(b);
    DateTextKeepsOrder(CivilFromDays(a), CivilFromDays(b));
    PowTable();
    AddField(DateText(CivilFromDays(a)), DateText(CivilFromDays(b)), "T",
             (s / 3600) % 24, (t / 3600) % 24, 2);
    DivDiv(s);
    DivDiv(t);
    SplitOrder(s / 3600, t / 3600, 24);
  }

  lemma SecondTextKeepsOrder(s: nat, t: nat)
    requires s / 86400 <= LAST_DAY && t / 86400 <= LAST_DAY
    ensures |SecondText(s)| == |SecondText(t)|
    ensures LexLess(SecondText(s), SecondText(t)) <==> s < t
    ensures SecondText(s) == SecondText(t) <==> s == t
  {
    HourTextKeepsOrder(s, t);
    PowTable();
    AddField(HourText(s), HourText(t), ":", (s / 60) % 60, (t / 60) % 60, 2);
    AddField(HourText(s) + ":" + Pad((s / 60) % 60, 2), HourText(t) + ":" + Pad((t / 60) % 60, 2),
             ":", s % 60, t % 60, 2);
    DivDiv(s);
    DivDiv(t);
    SplitOrder(s / 60, t / 60, 60);
    SplitOrder(s, t, 60);
  }

  // Up to the end of the year 9999 the texts sort as their times (section 5.1 of RFC 3339).
  lemma IsoKeepsOrder(s: nat, t: nat)
    requires s / 1000 / 86400 <= LAST_DAY && t / 1000 / 86400 <= LAST_DAY
    ensures LexLess(Iso(s), Iso(t)) <==> s < t
    ensures Iso(s) == Iso(t) <==> s == t
  {
    var a, b := SecondText(s / 1000), SecondText(t / 1000);
    SecondTextKeepsOrder(s / 1000, t / 1000);
    PowTable();
    AddField(a, b, ".", s % 1000, t % 1000, 3);
    var x, y := a + "." + Pad(s % 1000, 3), b + "." + Pad(t % 1000, 3);
    assert Iso(s) == x + "Z" && Iso(t) == y + "Z";
    LexSame("Z");
    LexAppend(x, y, "Z", "Z");
    assert (x + "Z")[..|x|] == x && (y + "Z")[..|y|] == y;
    SplitOrder(s, t, 1000);
  }
}
