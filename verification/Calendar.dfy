/** Calendar arithmetic of the real-time clock drivers, against a count of days of the Gregorian
    calendar. */
module Calendar {
  import opened Remainders

  // ---------------------------------------------------------------- the reference

  predicate Leap(year: nat) {
    year % 4 == 0 && (year % 100 != 0 || year % 400 == 0)
  }

  function YearDays(year: nat): nat {
    if Leap(year) then 366 else 365
  }

  const LENGTHS := [31, 28, 31, 30, 31, 30, 31, 31, 30, 31, 30, 31]

  /** The days of a month, counted from 0 for January. */
  function MonthDays(month: nat, year: nat): (n: nat)
    requires month < 12
    ensures 28 <= n <= 31
  {
    if month == 1 && Leap(year) then 29 else LENGTHS[month]
  }

  /** Days from 1 January of year 0 to 1 January of `year`, and from there to the first of `month`. */
  function DaysBeforeYear(year: nat): nat {
    if year == 0 then 0 else DaysBeforeYear(year - 1) + YearDays(year - 1)
  }

  function DaysBeforeMonth(month: nat, year: nat): nat
    requires month <= 12
  {
    if month == 0 then 0 else DaysBeforeMonth(month - 1, year) + MonthDays(month - 1, year)
  }

  function DayNumber(day: nat, month: nat, year: nat): nat
    requires month < 12 && day >= 1
  {
    DaysBeforeYear(year) + DaysBeforeMonth(month, year) + day - 1
  }

  lemma MonthTable(year: nat)
    ensures var l := if Leap(year) then 1 else 0;
            && DaysBeforeMonth(0, year) == 0 && DaysBeforeMonth(1, year) == 31
            && DaysBeforeMonth(2, year) == 59 + l && DaysBeforeMonth(3, year) == 90 + l
            && DaysBeforeMonth(4, year) == 120 + l && DaysBeforeMonth(5, year) == 151 + l
            && DaysBeforeMonth(6, year) == 181 + l && DaysBeforeMonth(7, year) == 212 + l
            && DaysBeforeMonth(8, year) == 243 + l && DaysBeforeMonth(9, year) == 273 + l
            && DaysBeforeMonth(10, year) == 304 + l && DaysBeforeMonth(11, year) == 334 + l
            && DaysBeforeMonth(12, year) == YearDays(year)
  {
  }

  lemma YearEnd(year: nat)
    ensures DaysBeforeYear(year) + DaysBeforeMonth(11, year) + MonthDays(11, year) == DaysBeforeYear(year + 1)
    ensures DaysBeforeMonth(0, year + 1) == 0
  {
    MonthTable(year);
  }

  lemma MonthEnd(month: nat, year: nat)
    requires month < 12
    ensures DaysBeforeMonth(month, year) + MonthDays(month, year) == DaysBeforeMonth(month + 1, year)
  {
  }

  /** The number of leap years before `year + 1`. */
  function LeapsTo(year: nat): nat {
    year / 4 - year / 100 + year / 400
  }

  lemma NextQuotient(x: nat, d: nat)
    requires d > 0
    ensures (x + 1) / d == x / d + if (x + 1) % d == 0 then 1 else 0
  {
    var q, r := x / d, x % d;
    assert x == q * d + r && (q + 1) * d == q * d + d;
    if r + 1 == d {
      DivIs(x + 1, q + 1, 0, d);
    } else {
      DivIs(x + 1, q, r + 1, d);
    }
  }

  lemma Multiples(x: nat)
    ensures x % 100 == 0 ==> x % 4 == 0
    ensures x % 400 == 0 ==> x % 100 == 0
  {
    var q, p := x / 100, x / 400;
    if x % 400 == 0 {
      DivIs(x, 4 * p, 0, 100);
    }
    if x % 100 == 0 {
      DivIs(x, 25 * q, 0, 4);
    }
  }

  lemma LeapStep(year: nat)
    ensures LeapsTo(year + 1) == LeapsTo(year) + if Leap(year + 1) then 1 else 0
  {
    NextQuotient(year, 4);
    NextQuotient(year, 100);
    NextQuotient(year, 400);
    Multiples(year + 1);
  }

  lemma {:induction false} YearsClosed(year: nat)
    ensures DaysBeforeYear(year + 1) == 365 * (year + 1) + LeapsTo(year) + 1
  {
    if year > 0 {
      YearsClosed(year - 1);
      LeapStep(year - 1);
    }
  }

  // ---------------------------------------------------------------- the driver's functions

  /** _is_leap_year; a zero low nibble means a multiple of 16 */
  predicate IsLeapYear(year: nat) {
    if year % 4 != 0 then false else year % 25 != 0 || year % 16 == 0
  }

  /** Within a cycle of 400 years. */
  lemma CycleRule(s: nat)
    requires s < 400
    ensures IsLeapYear(s) <==> Leap(s)
  {
    ModMod(s, 25, 4);
    ModMod(s, 4, 25);
    if s % 100 == 0 {
      assert s == 0 || s == 100 || s == 200 || s == 300;
    }
  }

  /** The tests by 4, 25 and 16 amount to the Gregorian rule. */
  lemma LeapRule(year: nat)
    ensures IsLeapYear(year) <==> Leap(year)
  {
    var s := year % 400;
    ModMod(year, 100, 4);
    ModMod(year, 16, 25);
    ModMod(year, 25, 16);
    ModMod(year, 4, 100);
    assert (IsLeapYear(year) <==> IsLeapYear(s)) && (Leap(year) <==> Leap(s));
    CycleRule(s);
  }

  /** _month_length */
  function MonthLength(month: nat, year: nat): nat {
    if month == 1 then 28 + (if IsLeapYear(year) then 1 else 0) else 31 - month % 7 % 2
  }

  lemma MonthLengthRight(month: nat, year: nat)
    requires month < 12
    ensures MonthLength(month, year) == MonthDays(month, year)
  {
    LeapRule(year);
  }

  const T := [0, 3, 2, 5, 0, 3, 5, 1, 4, 6, 2, 4]

  /** The sum of Sakamoto's method, in which January and February belong to the year before. */
  function WdaySum(day: nat, month: nat, year: nat): nat
    requires month < 12 && year > 0
  {
    var y := if month < 2 then year - 1 else year;
    y + LeapsTo(y) + T[month] + day
  }

  /** _wday: Sakamoto's day of the week, 0 for Sunday */
  function Wday(day: nat, month: nat, year: nat): nat
    requires month < 12 && year > 0
  {
    WdaySum(day, month, year) % 7
  }

  function CumulativeDays(month: nat): nat
    requires month < 12
  {
    [0, 31, 59, 90, 120, 151, 181, 212, 243, 273, 304, 334][month]
  }

  lemma Weeks(a: nat, k: nat)
    ensures (a + 7 * k) % 7 == a % 7
  {
  }

  /** Sakamoto's table is the days before the month, less one from March on, modulo 7. */
  lemma TableWeeks(month: nat) returns (w: nat)
    requires month < 12
    ensures CumulativeDays(month) + (if month < 2 then 7 else 6) == T[month] + 7 * w
  {
    w := (CumulativeDays(month) + (if month < 2 then 7 else 6) - T[month]) / 7;
  }

  lemma CumulativeRight(month: nat, year: nat)
    requires month < 12
    ensures DaysBeforeMonth(month, year) == CumulativeDays(month) + if month >= 2 && Leap(year) then 1 else 0
  {
    MonthTable(year);
  }

  /** The leap day of a year counts from March on. */
  lemma LeapsCounted(month: nat, year: nat)
    requires year > 0
    ensures LeapsTo(year - 1) + (if month >= 2 && Leap(year) then 1 else 0)
            == if month < 2 then LeapsTo(year - 1) else LeapsTo(year)
  {
    LeapStep(year - 1);
  }

  lemma DaysClosed(month: nat, year: nat)
    requires month < 12 && year > 0
    ensures var y := if month < 2 then year - 1 else year;
            DaysBeforeYear(year) + DaysBeforeMonth(month, year)
            == 365 * y + LeapsTo(y) + CumulativeDays(month) + (if month < 2 then 366 else 1)
  {
    CumulativeRight(month, year);
    YearsClosed(year - 1);
    LeapsCounted(month, year);
  }

  /** The weekday is the day count modulo 7, up to a constant. */
  lemma WdayCountsDays(day: nat, month: nat, year: nat)
    requires month < 12 && year > 0 && day >= 1
    ensures Wday(day, month, year) == (DayNumber(day, month, year) + 6) % 7
  {
    var w := TableWeeks(month);
    DaysClosed(month, year);
    Weeks(WdaySum(day, month, year), 52 * year + w);
  }

  const D := [0, 31, 59, 90, 120, 151, 181, 212, 243, 17, 48, 78]

  /** _yday; for a day below 256 setting bit 8 adds 256 */
  function Yday(day: nat, month: nat, year: nat): int
    requires month < 12
  {
    var leap := if month > 1 && IsLeapYear(year) then 1 else 0;
    var wrapped := if month > 8 then 0x100 else 0;
    D[month] + (day + leap + wrapped) - 1
  }

  /** The day of the year counts from 1 January in spite of the table's 8 bits. */
  lemma YdayCountsDays(day: nat, month: nat, year: nat)
    requires month < 12 && 1 <= day <= MonthDays(month, year)
    ensures Yday(day, month, year) == DayNumber(day, month, year) - DayNumber(1, 0, year)
  {
    LeapRule(year);
    MonthTable(year);
  }

  // ---------------------------------------------------------------- points in time

  /** The fields of struct tm: years since 1900, months from 0, days from 1. */
  datatype Stamp = Stamp(year: nat, mon: nat, mday: nat, hour: nat, min: nat, sec: nat)

  const BASE := 1900

  /** All fields are in calendar range. */
  predicate Normal(t: Stamp) {
    && t.mon < 12 && 1 <= t.mday <= MonthDays(t.mon, BASE + t.year)
    && t.hour < 24 && t.min < 60 && t.sec < 60
  }

  /** What rtc_tm_normalize takes: no negative field and a day of at least 1. */
  predicate Given(t: Stamp) {
    t.mday >= 1
  }

  function Day(t: Stamp): nat
    requires Given(t)
  {
    DayNumber(t.mday, t.mon % 12, BASE + t.year + t.mon / 12)
  }

  lemma NormalDay(t: Stamp)
    requires Given(t) && t.mon < 12
    ensures Day(t) == DayNumber(t.mday, t.mon, BASE + t.year)
  {
  }

  /** Seconds since 1 January of year 0, for any non-negative fields. */
  function Instant(t: Stamp): nat
    requires Given(t)
  {
    86400 * Day(t) + 3600 * t.hour + 60 * t.min + t.sec
  }

  /** The day after. */
  function NextDay(t: Stamp): Stamp
    requires Normal(t)
  {
    if t.mday < MonthDays(t.mon, BASE + t.year) then t.(mday := t.mday + 1)
    else if t.mon < 11 then t.(mon := t.mon + 1, mday := 1)
    else t.(year := t.year + 1, mon := 0, mday := 1)
  }

  /** A day past the end of its month, as a day of the next month. */
  function Spilled(t: Stamp): Stamp
    requires t.mon < 12 && t.mday > MonthDays(t.mon, BASE + t.year)
  {
    var left := t.mday - MonthDays(t.mon, BASE + t.year);
    if t.mon < 11 then t.(mon := t.mon + 1, mday := left) else t.(year := t.year + 1, mon := 0, mday := left)
  }

  lemma LaterDay(t: Stamp, n: nat)
    requires Given(t)
    ensures Day(t.(mday := t.mday + n)) == Day(t) + n
  {
  }

  /** A day past the end of its month counts as one of the next month. */
  lemma DayOver(day: nat, month: nat, year: nat)
    requires month < 12 && day > MonthDays(month, year)
    ensures var left := day - MonthDays(month, year);
            DayNumber(day, month, year)
            == if month < 11 then DayNumber(left, month + 1, year) else DayNumber(left, 0, year + 1)
  {
    if month < 11 {
      MonthEnd(month, year);
    } else {
      YearEnd(year);
    }
  }

  lemma MonthOver(t: Stamp)
    requires t.mon < 12 && t.mday > MonthDays(t.mon, BASE + t.year)
    ensures Spilled(t).mday >= 1 && Day(Spilled(t)) == Day(t)
  {
    DayOver(t.mday, t.mon, BASE + t.year);
    NormalDay(t);
    NormalDay(Spilled(t));
  }

  lemma NextDayNormal(t: Stamp)
    requires Normal(t)
    ensures Normal(NextDay(t))
  {
  }

  lemma DayAdvances(t: Stamp)
    requires Normal(t)
    ensures Normal(NextDay(t)) && Day(NextDay(t)) == Day(t) + 1
  {
    var next := t.(mday := t.mday + 1);
    NextDayNormal(t);
    LaterDay(t, 1);
    if NextDay(t) != next {
      assert NextDay(t) == Spilled(next);
      MonthOver(next);
    }
  }

  lemma NextWeekday(d: nat)
    ensures (d + 1) % 7 == (d % 7 + 1) % 7
  {
  }

  /** Each day, across months, years and leap days, advances the weekday by one. */
  lemma WdayAdvances(t: Stamp)
    requires Normal(t)
    ensures Normal(NextDay(t)) && Day(NextDay(t)) == Day(t) + 1
    ensures var n := NextDay(t);
            Wday(n.mday, n.mon, BASE + n.year) == (Wday(t.mday, t.mon, BASE + t.year) + 1) % 7
  {
    var n := NextDay(t);
    DayAdvances(t);
    NormalDay(t);
    NormalDay(n);
    WdayCountsDays(t.mday, t.mon, BASE + t.year);
    WdayCountsDays(n.mday, n.mon, BASE + n.year);
    NextWeekday(Day(t) + 6);
  }

  // ---------------------------------------------------------------- comparing

  /** rtc_tm_compare */
  function Compare(a: Stamp, b: Stamp): int {
    if a.year != b.year then a.year - b.year
    else if a.mon != b.mon then a.mon - b.mon
    else if a.mday != b.mday then a.mday - b.mday
    else if a.hour != b.hour then a.hour - b.hour
    else if a.min != b.min then a.min - b.min
    else a.sec - b.sec
  }

  lemma {:induction false} YearsGrow(a: nat, b: nat)
    requires a <= b
    ensures DaysBeforeYear(a) <= DaysBeforeYear(b)
  {
    if a < b {
      YearsGrow(a, b - 1);
    }
  }

  lemma {:induction false} MonthsGrow(a: nat, b: nat, year: nat)
    requires a <= b <= 12
    ensures DaysBeforeMonth(a, year) <= DaysBeforeMonth(b, year)
  {
    if a < b {
      MonthsGrow(a, b - 1, year);
    }
  }

  lemma EarlierMonth(a: Stamp, b: Stamp)
    requires Normal(a) && Normal(b) && a.year == b.year && a.mon < b.mon
    ensures Day(a) < Day(b)
  {
    NormalDay(a);
    NormalDay(b);
    MonthEnd(a.mon, BASE + a.year);
    MonthsGrow(a.mon + 1, b.mon, BASE + a.year);
  }

  lemma WithinYear(day: nat, month: nat, year: nat)
    requires month < 12 && 1 <= day <= MonthDays(month, year)
    ensures DaysBeforeYear(year) <= DayNumber(day, month, year) < DaysBeforeYear(year + 1)
  {
    MonthEnd(month, year);
    MonthsGrow(month + 1, 12, year);
    MonthEnd(11, year);
    YearEnd(year);
  }

  lemma DayInYear(t: Stamp)
    requires Normal(t)
    ensures DaysBeforeYear(BASE + t.year) <= Day(t) < DaysBeforeYear(BASE + t.year + 1)
  {
    NormalDay(t);
    WithinYear(t.mday, t.mon, BASE + t.year);
  }

  lemma EarlierYear(a: Stamp, b: Stamp)
    requires Normal(a) && Normal(b) && a.year < b.year
    ensures Day(a) < Day(b)
  {
    DayInYear(a);
    DayInYear(b);
    YearsGrow(BASE + a.year + 1, BASE + b.year);
  }

  /** A date that is earlier field by field is an earlier day. */
  lemma EarlierDay(a: Stamp, b: Stamp)
    requires Normal(a) && Normal(b)
    requires a.year < b.year || (a.year == b.year && (a.mon < b.mon || (a.mon == b.mon && a.mday < b.mday)))
    ensures Day(a) < Day(b)
  {
    if a.year < b.year {
      EarlierYear(a, b);
    } else if a.mon < b.mon {
      EarlierMonth(a, b);
    } else {
      NormalDay(a);
      NormalDay(b);
    }
  }

  /** For normal stamps the comparison has the sign of the difference of the instants. */
  lemma CompareOrdersInstants(a: Stamp, b: Stamp)
    requires Normal(a) && Normal(b)
    ensures Compare(a, b) < 0 <==> Instant(a) < Instant(b)
    ensures Compare(a, b) == 0 <==> Instant(a) == Instant(b)
    ensures Compare(a, b) > 0 <==> Instant(a) > Instant(b)
    ensures Instant(a) == Instant(b) ==> a == b
  {
    if a.year == b.year && a.mon == b.mon && a.mday == b.mday {
      assert Day(a) == Day(b);
    } else if a.year < b.year || (a.year == b.year && (a.mon < b.mon || (a.mon == b.mon && a.mday < b.mday))) {
      EarlierDay(a, b);
    } else {
      EarlierDay(b, a);
    }
  }

  // ---------------------------------------------------------------- normalising

  /** What the divisions at the start of rtc_tm_normalize make of a stamp. */
  function Carried(t: Stamp): Stamp {
    var min := t.min + t.sec / 60;
    var hour := t.hour + min / 60;
    Stamp(t.year + t.mon / 12, t.mon % 12, t.mday + hour / 24, hour % 24, min % 60, t.sec % 60)
  }

  lemma CarriedDay(t: Stamp, day: nat)
    requires Given(t)
    ensures Day(Stamp(t.year + t.mon / 12, t.mon % 12, t.mday + day, 0, 0, 0)) == Day(t) + day
  {
    NormalDay(Stamp(t.year + t.mon / 12, t.mon % 12, t.mday + day, 0, 0, 0));
  }

  lemma CarriedTime(t: Stamp)
    ensures var c := Carried(t);
            3600 * t.hour + 60 * t.min + t.sec == 86400 * (c.mday - t.mday) + 3600 * c.hour + 60 * c.min + c.sec
  {
  }

  lemma CarriedInstant(t: Stamp)
    requires Given(t)
    ensures Given(Carried(t)) && Instant(Carried(t)) == Instant(t)
  {
    var c := Carried(t);
    assert Day(c) == Day(t) + (c.mday - t.mday) by {
      CarriedDay(t, c.mday - t.mday);
    }
    CarriedTime(t);
  }

  lemma CarriedNormal(t: Stamp)
    requires t.mon < 12 && t.hour < 24 && t.min < 60 && t.sec < 60
    ensures Carried(t) == t
  {
  }

  /** The day of the year, and of the week. */
  function YearDay(t: Stamp): int
    requires Given(t)
  {
    Day(t) - DayNumber(1, 0, BASE + t.year)
  }

  function Weekday(t: Stamp): nat
    requires Given(t)
  {
    (Day(t) + 6) % 7
  }

  /** The derived fields, from the day count. */
  lemma DerivedFields(t: Stamp)
    requires Normal(t)
    ensures Yday(t.mday, t.mon, t.year + BASE) == YearDay(t)
    ensures Wday(t.mday, t.mon, t.year + BASE) == Weekday(t)
  {
    NormalDay(t);
    YdayCountsDays(t.mday, t.mon, t.year + BASE);
    WdayCountsDays(t.mday, t.mon, t.year + BASE);
  }

  /** struct tm */
  class Tm {
    var sec: nat
    var min: nat
    var hour: nat
    var mday: nat
    var mon: nat
    var year: nat
    var yday: int
    var wday: int

    function Value(): Stamp
      reads this
    {
      Stamp(year, mon, mday, hour, min, sec)
    }

    /** The divisions at the start of rtc_tm_normalize. */
    method Carry()
      requires Given(Value())
      modifies this`sec, this`min, this`hour, this`mday, this`mon, this`year
      ensures Given(Value()) && Instant(Value()) == old(Instant(Value()))
      ensures sec < 60 && min < 60 && hour < 24 && mon < 12 && mday >= 1
      ensures old(Normal(Value())) ==> Value() == old(Value())
    {
      ghost var t := Value();
      min, sec := min + sec / 60, sec % 60;
      hour, min := hour + min / 60, min % 60;
      mday, hour := mday + hour / 24, hour % 24;
      year, mon := year + mon / 12, mon % 12;
      assert Value() == Carried(t);
      CarriedInstant(t);
      if Normal(t) {
        CarriedNormal(t);
      }
    }

    /** The loop of rtc_tm_normalize. */
    method SpillDays()
      requires mon < 12 && hour < 24 && min < 60 && sec < 60 && mday >= 1
      modifies this`mday, this`mon, this`year
      ensures Normal(Value()) && Instant(Value()) == old(Instant(Value()))
      ensures old(Normal(Value())) ==> Value() == old(Value())
    {
      ghost var carried, instant := Value(), Instant(Value());
      while true
        invariant mon < 12 && mday >= 1 && hour == carried.hour && min == carried.min && sec == carried.sec
        invariant Instant(Value()) == instant
        invariant Normal(carried) ==> Value() == carried
        decreases mday
      {
        var days := MonthLength(mon, year + BASE);
        MonthLengthRight(mon, year + BASE);
        if mday <= days {
          break;
        }
        ghost var spilled := Spilled(Value());
        MonthOver(Value());
        mon := mon + 1;
        if mon > 11 {
          mon := 0;
          year := year + 1;
        }
        mday := mday - days;
        assert Value() == spilled;
      }
    }

    /** The derived fields under RTC_NORMALIZE_COMPAT. */
    method Derive()
      requires Normal(Value())
      modifies this`yday, this`wday
      ensures yday == YearDay(Value()) && wday == Weekday(Value())
    {
      ghost var t := Value();
      DerivedFields(t);
      yday := Yday(mday, mon, year + BASE);
      wday := Wday(mday, mon, year + BASE);
      assert Value() == t;
    }

    /** rtc_tm_normalize; `compat` for RTC_NORMALIZE_COMPAT */
    method Normalize(compat: bool)
      requires Given(Value())
      modifies this
      ensures Normal(Value()) && Instant(Value()) == old(Instant(Value()))
      ensures old(Normal(Value())) ==> Value() == old(Value())
      ensures compat ==> yday == YearDay(Value()) && wday == Weekday(Value())
      ensures !compat ==> yday == old(yday) && wday == old(wday)
    {
      Carry();
      SpillDays();
      if compat {
        Derive();
      }
    }
  }

  /** Every instant given in fields has exactly one normal form. */
  lemma NormalFormUnique(a: Stamp, b: Stamp)
    requires Normal(a) && Normal(b) && Instant(a) == Instant(b)
    ensures a == b
  {
    CompareOrdersInstants(a, b);
  }
}
