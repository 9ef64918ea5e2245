/**
 Seconds since the Epoch and broken-down UTC time: section 4.16 of the POSIX.1-2017
 Base Definitions one way, and its inverse, which is what `gmtime_r` computes.
 */
module Calendar {

  datatype Tm = Tm(year: int, mon: int, mday: int, hour: int, min: int, sec: int)

  predicate Leap(y: int) {
    y % 4 == 0 && (y % 100 != 0 || y % 400 == 0)
  }

  /** Days from 1 January 1970 to 1 January of year `y`. */
  function DaysBefore(y: int): int {
    (y - 1970) * 365 + (y - 1969) / 4 - (y - 1901) / 100 + (y - 1601) / 400
  }

  lemma YearLength(y: int)
    ensures DaysBefore(y + 1) == DaysBefore(y) + (if Leap(y) then 366 else 365)
  {
    Every4(y);
    Every100(y);
    Every400(y);
    Multiples(y);
  }

  lemma Every4(y: int)
    ensures (y - 1968) / 4 == (y - 1969) / 4 + (if y % 4 == 0 then 1 else 0)
  {
  }

  lemma Every100(y: int)
    ensures (y - 1900) / 100 == (y - 1901) / 100 + (if y % 100 == 0 then 1 else 0)
  {
  }

  lemma Every400(y: int)
    ensures (y - 1600) / 400 == (y - 1601) / 400 + (if y % 400 == 0 then 1 else 0)
  {
  }

  lemma Multiples(y: int)
    ensures y % 400 == 0 ==> y % 100 == 0
    ensures y % 100 == 0 ==> y % 4 == 0
  {
  }

  /** Days of year `y` before month `m`, with 13 for the whole year. */
  function DaysTo(y: int, m: int): int
    requires 1 <= m <= 13
  {
    [0, 31, 59, 90, 120, 151, 181, 212, 243, 273, 304, 334, 365][m - 1] + (if m > 2 && Leap(y) then 1 else 0)
  }

  /** The count of section 4.16; a day past the end of its month runs into the next. */
  function TimeGm(tm: Tm): int
    requires 1 <= tm.mon <= 12
  {
    (DaysBefore(tm.year) + DaysTo(tm.year, tm.mon) + tm.mday - 1) * 86400
    + tm.hour * 3600 + tm.min * 60 + tm.sec
  }

  function YearFrom(days: int, y: int): (r: int)
    requires DaysBefore(y) <= days
    ensures y <= r && DaysBefore(r) <= days < DaysBefore(r + 1)
    decreases days - DaysBefore(y)
  {
    YearLength(y);
    if days < DaysBefore(y + 1) then y else YearFrom(days, y + 1)
  }

  function MonthFrom(y: int, yday: int, m: int): (r: int)
    requires 1 <= m <= 12 && DaysTo(y, m) <= yday < DaysTo(y, 13)
    ensures m <= r <= 12 && DaysTo(y, r) <= yday < DaysTo(y, r + 1)
    decreases 12 - m
  {
    if yday < DaysTo(y, m + 1) then m else MonthFrom(y, yday, m + 1)
  }

  /** The fields of a real moment. */
  predicate Proper(tm: Tm) {
    && tm.year >= 1970 && 1 <= tm.mon <= 12
    && 1 <= tm.mday <= DaysTo(tm.year, tm.mon + 1) - DaysTo(tm.year, tm.mon)
    && 0 <= tm.hour < 24 && 0 <= tm.min < 60 && 0 <= tm.sec < 60
  }

  datatype Date = Date(year: int, mon: int, mday: int)

  function DateOf(days: int): (d: Date)
    requires days >= 0
    ensures d.year >= 1970 && 1 <= d.mon <= 12
    ensures 1 <= d.mday <= DaysTo(d.year, d.mon + 1) - DaysTo(d.year, d.mon)
    ensures days == DaysBefore(d.year) + DaysTo(d.year, d.mon) + d.mday - 1
  {
    var y := YearFrom(days, 1970);
    YearLength(y);
    var yday := days - DaysBefore(y);
    var m := MonthFrom(y, yday, 1);
    Date(y, m, yday - DaysTo(y, m) + 1)
  }

  function GmTime(t: int): (tm: Tm)
    requires t >= 0
    ensures Proper(tm)
  {
    var d, s := DateOf(t / 86400), t % 86400;
    Tm(d.year, d.mon, d.mday, s / 3600, s % 3600 / 60, s % 60)
  }

  /** Breaking a time down and counting it up again gives it back. */
  lemma GmTimeInverts(t: int)
    requires t >= 0
    ensures TimeGm(GmTime(t)) == t
  {
    var s := t % 86400;
    assert s == s / 3600 * 3600 + s % 3600 / 60 * 60 + s % 60;
  }

  lemma {:induction false} DaysBeforeMonotonic(a: int, b: int)
    requires a <= b
    ensures DaysBefore(b) >= DaysBefore(a) + 365 * (b - a)
    decreases b - a
  {
    if a < b {
      DaysBeforeMonotonic(a, b - 1);
      YearLength(b - 1);
    }
  }

  lemma YearUnique(days: int, y: int, z: int)
    requires DaysBefore(y) <= days < DaysBefore(y + 1) && DaysBefore(z) <= days < DaysBefore(z + 1)
    ensures y == z
  {
    if y < z { DaysBeforeMonotonic(y + 1, z); }
    if z < y { DaysBeforeMonotonic(z + 1, y); }
  }

  lemma MonthUnique(y: int, yday: int, m: int, n: int)
    requires 1 <= m <= 12 && 1 <= n <= 12
    requires DaysTo(y, m) <= yday < DaysTo(y, m + 1) && DaysTo(y, n) <= yday < DaysTo(y, n + 1)
    ensures m == n
  {
  }

  lemma SplitClock(h: int, m: int, sec: int)
    requires 0 <= h < 24 && 0 <= m < 60 && 0 <= sec < 60
    ensures var s := h * 3600 + m * 60 + sec;
            0 <= s < 86400 && s / 3600 == h && s % 3600 / 60 == m && s % 60 == sec
  {
    var s := h * 3600 + m * 60 + sec;
    assert s % 3600 == m * 60 + sec;
  }

  lemma GmTimeAt(days: int, s: int, t: int)
    requires days >= 0 && 0 <= s < 86400 && t == days * 86400 + s
    ensures t >= 0
    ensures GmTime(t) == Tm(DateOf(days).year, DateOf(days).mon, DateOf(days).mday, s / 3600, s % 3600 / 60, s % 60)
  {
    assert t / 86400 == days && t % 86400 == s;
  }

  lemma DaysToGrows(y: int, m: int)
    requires 1 <= m <= 12
    ensures 0 <= DaysTo(y, m) < DaysTo(y, m + 1) <= DaysTo(y, 13) == (if Leap(y) then 366 else 365)
  {
  }

  lemma YearOfDay(y: int, yday: int)
    requires y >= 1970 && 0 <= yday < DaysTo(y, 13)
    ensures DaysBefore(y) + yday >= 0 && YearFrom(DaysBefore(y) + yday, 1970) == y
  {
    DaysBeforeMonotonic(1970, y);
    assert DaysBefore(1970) == 0;
    YearLength(y);
    DaysToGrows(y, 12);
    YearUnique(DaysBefore(y) + yday, y, YearFrom(DaysBefore(y) + yday, 1970));
  }

  lemma DateOfDay(days: int, y: int, m: int, yday: int)
    requires days >= 0 && YearFrom(days, 1970) == y && yday == days - DaysBefore(y)
    requires 1 <= m <= 12 && DaysTo(y, m) <= yday < DaysTo(y, m + 1)
    ensures DateOf(days) == Date(y, m, yday - DaysTo(y, m) + 1)
  {
    DaysToGrows(y, m);
    DaysToGrows(y, 1);
    MonthUnique(y, yday, m, MonthFrom(y, yday, 1));
  }

  lemma SplitYear(tm: Tm, days: int)
    requires Proper(tm) && days == DaysBefore(tm.year) + DaysTo(tm.year, tm.mon) + tm.mday - 1
    ensures days >= 0 && DateOf(days) == Date(tm.year, tm.mon, tm.mday)
  {
    DaysToGrows(tm.year, tm.mon);
    YearOfDay(tm.year, days - DaysBefore(tm.year));
    DateOfDay(days, tm.year, tm.mon, days - DaysBefore(tm.year));
  }

  lemma TimeGmParts(tm: Tm, days: int, s: int)
    requires 1 <= tm.mon <= 12
    requires days == DaysBefore(tm.year) + DaysTo(tm.year, tm.mon) + tm.mday - 1
    requires s == tm.hour * 3600 + tm.min * 60 + tm.sec
    ensures TimeGm(tm) == days * 86400 + s
  {
  }

  lemma Assemble(tm: Tm, days: int, s: int, t: int)
    requires t == days * 86400 + s && days >= 0 && DateOf(days) == Date(tm.year, tm.mon, tm.mday)
    requires 0 <= tm.hour < 24 && 0 <= tm.min < 60 && 0 <= tm.sec < 60
    requires s == tm.hour * 3600 + tm.min * 60 + tm.sec
    ensures t >= 0 && GmTime(t) == tm
  {
    SplitClock(tm.hour, tm.min, tm.sec);
    GmTimeAt(days, s, t);
  }

  /** And the other way: every real moment is what its count breaks down to. */
  lemma TimeGmInverts(tm: Tm)
    requires Proper(tm)
    ensures TimeGm(tm) >= 0 && GmTime(TimeGm(tm)) == tm
  {
    var days := DaysBefore(tm.year) + DaysTo(tm.year, tm.mon) + tm.mday - 1;
    var s := tm.hour * 3600 + tm.min * 60 + tm.sec;
    SplitYear(tm, days);
    TimeGmParts(tm, days, s);
    Assemble(tm, days, s, TimeGm(tm));
  }

  // ---- The calendar, second by second ----

  /** Thirty days hath September, April, June and November. */
  function MonthLength(y: int, m: int): int {
    if m == 2 then (if y % 4 == 0 && (y % 100 != 0 || y % 400 == 0) then 29 else 28)
    else if m == 4 || m == 6 || m == 9 || m == 11 then 30
    else 31
  }

  /** A moment of the calendar, in any year. */
  predicate Civil(tm: Tm) {
    && 1 <= tm.mon <= 12 && 1 <= tm.mday <= MonthLength(tm.year, tm.mon)
    && 0 <= tm.hour <= 23 && 0 <= tm.min <= 59 && 0 <= tm.sec <= 59
  }

  /** The moment one second later. */
  function Tick(tm: Tm): Tm {
    if tm.sec < 59 then tm.(sec := tm.sec + 1)
    else if tm.min < 59 then tm.(min := tm.min + 1, sec := 0)
    else if tm.hour < 23 then tm.(hour := tm.hour + 1, min := 0, sec := 0)
    else if tm.mday < MonthLength(tm.year, tm.mon) then tm.(mday := tm.mday + 1, hour := 0, min := 0, sec := 0)
    else if tm.mon < 12 then tm.(mon := tm.mon + 1, mday := 1, hour := 0, min := 0, sec := 0)
    else Tm(tm.year + 1, 1, 1, 0, 0, 0)
  }

  const EPOCH := Tm(1970, 1, 1, 0, 0, 0)

  lemma MonthLengthIs(y: int, m: int)
    requires 1 <= m <= 12
    ensures DaysTo(y, m + 1) == DaysTo(y, m) + MonthLength(y, m)
  {
  }

  lemma ProperIs(tm: Tm)
    ensures Proper(tm) <==> tm.year >= 1970 && Civil(tm)
  {
    if 1 <= tm.mon <= 12 { MonthLengthIs(tm.year, tm.mon); }
  }

  function DayCount(y: int, m: int, d: int): int
    requires 1 <= m <= 12
  {
    DaysBefore(y) + DaysTo(y, m) + d - 1
  }

  function ClockCount(h: int, m: int, s: int): int {
    h * 3600 + m * 60 + s
  }

  lemma CountParts(tm: Tm)
    requires 1 <= tm.mon <= 12
    ensures TimeGm(tm) == DayCount(tm.year, tm.mon, tm.mday) * 86400 + ClockCount(tm.hour, tm.min, tm.sec)
  {
  }

  /** The first of the next month, and of the next year, follow the last of this one. */
  lemma MonthTurns(y: int, m: int)
    requires 1 <= m <= 12
    ensures m < 12 ==> DayCount(y, m + 1, 1) == DayCount(y, m, MonthLength(y, m)) + 1
    ensures m == 12 ==> DayCount(y + 1, 1, 1) == DayCount(y, 12, MonthLength(y, 12)) + 1
  {
    MonthLengthIs(y, m);
    YearLength(y);
  }

  lemma NextDayCounts(tm: Tm, next: Tm)
    requires Civil(tm) && next == Tick(tm) && tm.hour == 23 && tm.min == 59 && tm.sec == 59
    ensures Civil(next) && DayCount(next.year, next.mon, next.mday) == DayCount(tm.year, tm.mon, tm.mday) + 1
    ensures next.hour == next.min == next.sec == 0
  {
    MonthTurns(tm.year, tm.mon);
  }

  lemma SameDayCounts(tm: Tm, next: Tm)
    requires Civil(tm) && next == Tick(tm) && !(tm.hour == 23 && tm.min == 59 && tm.sec == 59)
    ensures Civil(next) && next.year == tm.year && next.mon == tm.mon && next.mday == tm.mday
    ensures ClockCount(next.hour, next.min, next.sec) == ClockCount(tm.hour, tm.min, tm.sec) + 1
  {
  }

  lemma CountDifference(a: Tm, b: Tm, d: int, c: int)
    requires 1 <= a.mon <= 12 && 1 <= b.mon <= 12
    requires d == DayCount(b.year, b.mon, b.mday) - DayCount(a.year, a.mon, a.mday)
    requires c == ClockCount(b.hour, b.min, b.sec) - ClockCount(a.hour, a.min, a.sec)
    ensures TimeGm(b) == TimeGm(a) + d * 86400 + c
  {
    CountParts(a);
    CountParts(b);
  }

  /** The count grows by one with every second, across the ends of minutes, hours, days, months and
      years. */
  lemma TickCounts(tm: Tm)
    requires Civil(tm)
    ensures Civil(Tick(tm)) && TimeGm(Tick(tm)) == TimeGm(tm) + 1
  {
    if tm.hour == 23 && tm.min == 59 && tm.sec == 59 {
      NextDayCounts(tm, Tick(tm));
      CountDifference(tm, Tick(tm), 1, -86399);
    } else {
      SameDayCounts(tm, Tick(tm));
      CountDifference(tm, Tick(tm), 0, 1);
    }
  }

  lemma EpochDay()
    ensures DaysBefore(1970) == 0 && DaysTo(1970, 1) == 0
  {
  }

  lemma EpochCount(tm: Tm, days: int)
    requires tm == EPOCH && days == DaysBefore(1970) + DaysTo(1970, 1)
    ensures TimeGm(tm) == days * 86400 && Civil(tm)
  {
  }

  lemma EpochZero(tm: Tm)
    requires tm == EPOCH
    ensures TimeGm(tm) == 0 && Civil(tm)
  {
    EpochDay();
    EpochCount(tm, 0);
  }

  lemma GmTimeOf(tm: Tm, t: int)
    requires Civil(tm) && tm.year >= 1970 && t == TimeGm(tm)
    ensures t >= 0 && GmTime(t) == tm
  {
    ProperIs(tm);
    TimeGmInverts(tm);
  }

  /** And starts at the Epoch. */
  lemma EpochIsZero(tm: Tm, t: int)
    requires tm == EPOCH && t == 0
    ensures TimeGm(tm) == t && GmTime(t) == tm
  {
    EpochZero(tm);
    GmTimeOf(tm, t);
  }

  /** Fields past their ends run on in the count. */
  lemma CountRunsOn(tm: Tm)
    requires 1 <= tm.mon <= 12
    ensures TimeGm(tm) == TimeGm(Tm(tm.year, tm.mon, 1, 0, 0, 0))
                          + (tm.mday - 1) * 86400 + tm.hour * 3600 + tm.min * 60 + tm.sec
  {
  }

  /** `gmtime_r` of successive seconds is the calendar from the Epoch on. */
  lemma GmTimeTicks(t: int)
    requires t >= 0
    ensures GmTime(t + 1) == Tick(GmTime(t))
  {
    GmTimeInverts(t);
    ProperIs(GmTime(t));
    TickInverts(GmTime(t), t);
  }

  lemma TickInverts(tm: Tm, t: int)
    requires Civil(tm) && tm.year >= 1970 && TimeGm(tm) == t
    ensures t + 1 >= 0 && GmTime(t + 1) == Tick(tm)
  {
    TickCounts(tm);
    TickYear(tm);
    GmTimeOf(Tick(tm), t + 1);
  }

  lemma TickYear(tm: Tm)
    ensures Tick(tm).year >= tm.year
  {
  }

  lemma YearOf(t: int)
    requires t >= 0
    ensures GmTime(t).year == YearFrom(t / 86400, 1970)
  {
  }

  lemma LaterYear(days: int, y: int, last: int)
    requires DaysBefore(y) <= days && last < y
    ensures days >= DaysBefore(last + 1)
  {
    DaysBeforeMonotonic(last + 1, y);
  }

  lemma EarlierYear(days: int, y: int, last: int)
    requires days < DaysBefore(y + 1) && y <= last
    ensures days < DaysBefore(last + 1)
  {
    DaysBeforeMonotonic(y + 1, last + 1);
  }

  lemma YearBefore(days: int, last: int)
    requires days >= 0
    ensures YearFrom(days, 1970) <= last <==> days < DaysBefore(last + 1)
  {
    var y := YearFrom(days, 1970);
    if y <= last { EarlierYear(days, y, last); } else { LaterYear(days, y, last); }
  }

  /** The first second of year 10000, and the first after the last year whose number, less 1900,
      fits an `int`. */
  const YEAR_10000 := 253402300800
  const YEAR_END := 67768036191676800

  lemma YearStarts()
    ensures DaysBefore(10000) * 86400 == YEAR_10000
    ensures DaysBefore(0x7fff_ffff + 1901) * 86400 == YEAR_END
  {
  }

  lemma FourDigitYear(t: int)
    requires t >= 0
    ensures GmTime(t).year <= 9999 <==> t < YEAR_10000
  {
    YearOf(t);
    YearBefore(t / 86400, 9999);
    YearStarts();
  }

  lemma LastYear(t: int)
    requires t >= 0
    ensures GmTime(t).year <= 0x7fff_ffff + 1900 <==> t < YEAR_END
  {
    YearOf(t);
    YearBefore(t / 86400, 0x7fff_ffff + 1900);
    YearStarts();
  }
}
