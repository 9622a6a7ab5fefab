/**
 The calendar time of /proc/rtc (kext/procfs_linux.c, procfs_dortc): seconds since the epoch to a
 civil date and time by arithmetic alone, against a reference that counts days year by year and
 month by month in the Gregorian calendar (section 3.2.1 of ISO 8601:2004).

 The seconds are a uint64_t and every intermediate value fits its 64-bit type, so the arithmetic is
 that of the integers.
 */
module RtcDate {

  datatype Date = Date(year: int, month: int, day: int)

  datatype DateTime = DateTime(date: Date, hour: int, minute: int, second: int)

  // ----- the conversion -----

  function YearOfEra(doe: nat): int {
    (doe - doe / 1460 + doe / 36524 - doe / 146096) / 365
  }

  /** Days from the start of a 400-year era, which begins on 1 March, to the start of its year `yoe`. */
  function EraDays(yoe: int): int {
    365 * yoe + yoe / 4 - yoe / 100
  }

  /** Days from 1 March to the start of month `mp`, counting March as 0. */
  function MonthStart(mp: int): int {
    (153 * mp + 2) / 5
  }

  /** Day `doy` of the year that begins on 1 March of year `y`. */
  function FromMarch(y: int, doy: int): Date {
    var mp := (5 * doy + 2) / 153;
    var day := doy - MonthStart(mp) + 1;
    var month := if mp < 10 then mp + 3 else mp - 9;
    Date(y + (if month <= 2 then 1 else 0), month, day)
  }

  /** Days since the epoch to year, month and day. */
  function Civil(days: nat): Date {
    var z := days + 719468;
    var era := z / 146097;
    var doe := z - era * 146097;
    var yoe := YearOfEra(doe);
    FromMarch(yoe + era * 400, doe - EraDays(yoe))
  }

  function Rtc(secs: nat): DateTime {
    var sod := secs % 86400;
    DateTime(Civil(secs / 86400), sod / 3600, sod % 3600 / 60, sod % 60)
  }

  // ----- the calendar -----

  predicate Leap(y: int) {
    y % 4 == 0 && (y % 100 != 0 || y % 400 == 0)
  }

  function YearDays(y: int): int {
    if Leap(y) then 366 else 365
  }

  function MonthDays(y: int, m: int): int {
    if m == 2 then (if Leap(y) then 29 else 28)
    else if m == 4 || m == 6 || m == 9 || m == 11 then 30
    else 31
  }

  predicate ValidDate(d: Date) {
    1970 <= d.year && 1 <= d.month <= 12 && 1 <= d.day <= MonthDays(d.year, d.month)
  }

  predicate ValidTime(t: DateTime) {
    ValidDate(t.date) && 0 <= t.hour < 24 && 0 <= t.minute < 60 && 0 <= t.second < 60
  }

  function DaysBeforeYear(y: int): int
    decreases y
  {
    if y <= 1970 then 0 else DaysBeforeYear(y - 1) + YearDays(y - 1)
  }

  function DaysBeforeMonth(y: int, m: int): int
    decreases m
  {
    if m <= 1 then 0 else DaysBeforeMonth(y, m - 1) + MonthDays(y, m - 1)
  }

  /** Days from 1 January 1970 to a date, counted. */
  function DayNumber(d: Date): int {
    DaysBeforeYear(d.year) + DaysBeforeMonth(d.year, d.month) + d.day - 1
  }

  function Seconds(t: DateTime): int {
    DayNumber(t.date) * 86400 + t.hour * 3600 + t.minute * 60 + t.second
  }

  function NextDate(d: Date): Date {
    if d.day < MonthDays(d.year, d.month) then d.(day := d.day + 1)
    else if d.month < 12 then Date(d.year, d.month + 1, 1)
    else Date(d.year + 1, 1, 1)
  }

  // ----- the year within the era -----

  /** Year `y` of the era, `t` days into it, is 100c + 4q + a. */
  predicate Decomposed(doe: nat, c: nat, q: nat, a: nat, t: nat) {
    && c <= 3 && q <= 24 && a <= 3 && t <= 365
    && doe == 36524 * c + 1461 * q + 365 * a + t
    && (t == 365 ==> a == 3 && (q == 24 ==> c == 3))
  }

  lemma Decompose(doe: nat) returns (c: nat, q: nat, a: nat, t: nat)
    requires doe < 146097
    ensures Decomposed(doe, c, q, a, t)
  {
    c := if doe == 146096 then 3 else doe / 36524;
    var r := doe - 36524 * c;
    q := r / 1461;
    var s := r - 1461 * q;
    a := if s == 1460 then 3 else s / 365;
    t := s - 365 * a;
  }

  /** The estimate finds the year. */
  lemma YearFound(doe: nat, c: nat, q: nat, a: nat, t: nat)
    requires Decomposed(doe, c, q, a, t)
    ensures YearOfEra(doe) == 100 * c + 4 * q + a
    ensures EraDays(100 * c + 4 * q + a) == doe - t
  {
    var y := 100 * c + 4 * q + a;
    assert y / 4 == 25 * c + q;
    assert y / 100 == c;
    var g := if 24 * c + q + 365 * a + t >= 1460 then 1 else 0;
    assert doe / 1460 == 25 * c + q + g;
    if t == 365 && q == 24 {
      assert doe == 146096;
    } else {
      assert 1461 * q + 365 * a + t < 36524;
      assert doe / 36524 == c;
      assert doe - doe / 1460 + doe / 36524 - doe / 146096 == 365 * y + t - g;
    }
  }

  /** Leap days in the years 1 to `y`. */
  function LeapDays(y: int): int {
    y / 4 - y / 100 + y / 400
  }

  /** The era, the year in it and the day in the year, as one count of days. */
  lemma EraCount(days: nat, era: int, yoe: int, doy: int)
    requires var z := days + 719468; era == z / 146097 && yoe == YearOfEra(z - era * 146097)
    requires doy == (days + 719468) - era * 146097 - EraDays(yoe)
    ensures era >= 0 && 0 <= yoe <= 399 && 0 <= doy <= 365 && (doy == 365 ==> Leap(yoe + era * 400 + 1))
    ensures days + 719468 == 365 * (yoe + era * 400) + LeapDays(yoe + era * 400) + doy
  {
    var z := days + 719468;
    var doe := z - era * 146097;
    var c, q, a, t := Decompose(doe);
    YearFound(doe, c, q, a, t);
    if t == 365 {
      LeapAtEnd(era, c, q);
    }
    LeapDaysOfEra(era, yoe);
  }

  /** A year of the era with a 366th day ends in the February of a leap year. */
  lemma LeapAtEnd(era: nat, c: nat, q: nat)
    requires c <= 3 && q <= 24 && (q == 24 ==> c == 3)
    ensures Leap(100 * c + 4 * q + 3 + era * 400 + 1)
  {
    var y := 100 * c + 4 * q + 4 + era * 400;
    assert y == 4 * (25 * c + q + 1 + era * 100);
    if q == 24 {
      assert y == 400 * (era + 1);
    } else {
      assert y == 100 * (c + 4 * era) + (4 * q + 4);
    }
  }

  lemma DivideShifted(k: int, r: int)
    ensures (4 * k + r) / 4 == k + r / 4
    ensures (100 * k + r) / 100 == k + r / 100
    ensures (400 * k + r) / 400 == k + r / 400
  {
  }

  lemma LeapDaysOfEra(era: nat, yoe: int)
    requires 0 <= yoe <= 399
    ensures LeapDays(yoe + era * 400) == yoe / 4 - yoe / 100 + 97 * era
  {
    DivideShifted(100 * era, yoe);
    DivideShifted(4 * era, yoe);
    DivideShifted(era, yoe);
  }

  // ----- the month within the year -----

  lemma MonthFound(doy: nat)
    requires doy <= 365
    ensures var mp := (5 * doy + 2) / 153; 0 <= mp <= 11 && MonthStart(mp) <= doy < MonthStart(mp + 1)
  {
  }

  /** The rounded line through 153/5 days a month gives the calendar's months. */
  lemma MonthLine(y: int, mp: int)
    requires 0 <= mp <= 11
    ensures mp < 10 ==> MonthStart(mp + 1) - MonthStart(mp) == MonthDays(y, mp + 3)
    ensures mp == 10 ==> MonthStart(11) - MonthStart(10) == 31 && MonthStart(11) == 337
  {
    MonthsOfHalf(mp % 5);
    assert MonthStart(mp) == 153 * (mp / 5) + MonthStart(mp % 5);
    assert MonthStart(mp + 1) == 153 * (mp / 5) + MonthStart(mp % 5 + 1);
  }

  lemma MonthsOfHalf(k: int)
    requires 0 <= k < 5
    ensures MonthStart(k + 1) - MonthStart(k) == if k == 1 || k == 3 then 30 else 31
  {
  }

  lemma DaysBeforeMarchMonth(y: int, mp: int)
    requires 0 <= mp <= 9
    ensures DaysBeforeMonth(y, mp + 3) == DaysBeforeMonth(y, 3) + MonthStart(mp)
    decreases mp
  {
    if mp > 0 {
      DaysBeforeMarchMonth(y, mp - 1);
      MonthLine(y, mp - 1);
    }
  }

  lemma BeforeMarch(y: int)
    ensures DaysBeforeMonth(y, 1) == 0 && DaysBeforeMonth(y, 2) == 31
    ensures DaysBeforeMonth(y, 3) == 59 + YearDays(y) - 365
  {
    assert DaysBeforeMonth(y, 3) == DaysBeforeMonth(y, 2) + MonthDays(y, 2);
  }

  // ----- the year -----

  lemma LeapStep(y: int)
    ensures LeapDays(y) == LeapDays(y - 1) + (if Leap(y) then 1 else 0)
  {
    QuotientStep(y);
    assert y % 100 == 0 ==> y % 4 == 0;
    assert y % 400 == 0 ==> y % 100 == 0;
  }

  lemma QuotientStep(y: int)
    ensures y / 4 == (y - 1) / 4 + (if y % 4 == 0 then 1 else 0)
    ensures y / 100 == (y - 1) / 100 + (if y % 100 == 0 then 1 else 0)
    ensures y / 400 == (y - 1) / 400 + (if y % 400 == 0 then 1 else 0)
  {
  }

  lemma {:induction false} DaysBeforeYearClosed(y: int)
    requires y >= 1970
    ensures DaysBeforeYear(y) == 365 * (y - 1970) + LeapDays(y - 1) - 477
    decreases y
  {
    if y > 1970 {
      DaysBeforeYearClosed(y - 1);
      LeapStep(y - 1);
    }
  }

  /** A count of days at or after the epoch falls in 1970 or later. */
  lemma NotBeforeEpoch(days: nat, y: int, doy: int)
    requires days + 719468 == 365 * y + LeapDays(y) + doy && 0 <= doy <= 365
    ensures y >= 1969 && (y == 1969 ==> doy >= 306)
  {
    assert y < 1969 ==> LeapDays(y) <= 365 * (1968 - y) + 477;
  }

  // ----- the theorems -----

  lemma CivilFromMarch(days: nat) returns (y: int, doy: nat)
    ensures Civil(days) == FromMarch(y, doy)
    ensures days + 719468 == 365 * y + LeapDays(y) + doy
    ensures doy <= 365 && (doy == 365 ==> Leap(y + 1))
  {
    var z := days + 719468;
    var era := z / 146097;
    var yoe := YearOfEra(z - era * 146097);
    EraCount(days, era, yoe, z - era * 146097 - EraDays(yoe));
    y, doy := yoe + era * 400, z - era * 146097 - EraDays(yoe);
  }

  /** The date is a date of the calendar, and the day it names is the day asked for. */
  lemma CivilIsDate(days: nat)
    ensures ValidDate(Civil(days))
    ensures DayNumber(Civil(days)) == days
  {
    var y, doy := CivilFromMarch(days);
    MarchDate(days, y, doy);
  }

  lemma MarchDate(days: nat, y: int, doy: nat)
    requires days + 719468 == 365 * y + LeapDays(y) + doy
    requires doy <= 365 && (doy == 365 ==> Leap(y + 1))
    ensures ValidDate(FromMarch(y, doy)) && DayNumber(FromMarch(y, doy)) == days
  {
    var mp := (5 * doy + 2) / 153;
    MonthFound(doy);
    NotBeforeEpoch(days, y, doy);
    MonthLine(y, mp);
    if mp < 10 {
      DaysBeforeYearClosed(y);
      DaysBeforeMarchMonth(y, mp);
      BeforeMarch(y);
      LeapStep(y);
    } else {
      DaysBeforeYearClosed(y + 1);
      BeforeMarch(y + 1);
    }
  }

  lemma {:induction false} YearsAccumulate(y: int, m: int)
    requires 1 <= m <= 12
    ensures 0 <= DaysBeforeMonth(y, m) && DaysBeforeMonth(y, m) + MonthDays(y, m) <= DaysBeforeMonth(y, 13)
    ensures DaysBeforeMonth(y, 13) == YearDays(y)
  {
    BeforeMarch(y);
    DaysBeforeMarchMonth(y, 9);
    assert DaysBeforeMonth(y, 13) == DaysBeforeMonth(y, 12) + 31;
    if m >= 3 {
      DaysBeforeMarchMonth(y, m - 3);
      MonthLine(y, m - 3);
    }
  }

  lemma {:induction false} MonthsInOrder(y: int, m: int, n: int)
    requires 1 <= m < n
    ensures DaysBeforeMonth(y, m) + MonthDays(y, m) <= DaysBeforeMonth(y, n)
    decreases n
  {
    if m + 1 < n {
      MonthsInOrder(y, m, n - 1);
    }
  }

  lemma {:induction false} YearsInOrder(x: int, y: int)
    requires 1970 <= x < y
    ensures DaysBeforeYear(x) + YearDays(x) <= DaysBeforeYear(y)
    decreases y
  {
    if x + 1 < y {
      YearsInOrder(x, y - 1);
    }
  }

  predicate Before(d: Date, e: Date) {
    || d.year < e.year
    || (d.year == e.year && d.month < e.month)
    || (d.year == e.year && d.month == e.month && d.day < e.day)
  }

  lemma Earlier(d: Date, e: Date)
    requires ValidDate(d) && ValidDate(e) && Before(d, e)
    ensures DayNumber(d) < DayNumber(e)
  {
    YearsAccumulate(d.year, d.month);
    YearsAccumulate(e.year, e.month);
    if d.year < e.year {
      YearsInOrder(d.year, e.year);
    } else if d.month < e.month {
      MonthsInOrder(d.year, d.month, e.month);
    }
  }

  /** Every date from 1970 on is the date of its own day: the conversion is onto, and has an inverse. */
  lemma EveryDateReached(d: Date)
    requires ValidDate(d)
    ensures DayNumber(d) >= 0 && Civil(DayNumber(d)) == d
  {
    YearsAccumulate(d.year, d.month);
    DaysBeforeYearClosed(d.year);
    var e := Civil(DayNumber(d));
    CivilIsDate(DayNumber(d));
    if Before(d, e) {
      Earlier(d, e);
    } else if Before(e, d) {
      Earlier(e, d);
    }
  }

  lemma NextDateCounts(d: Date)
    requires ValidDate(d)
    ensures ValidDate(NextDate(d)) && DayNumber(NextDate(d)) == DayNumber(d) + 1
  {
    if d.day == MonthDays(d.year, d.month) && d.month == 12 {
      YearsAccumulate(d.year, 12);
    }
  }

  /** Consecutive days are consecutive dates. */
  lemma NextDay(days: nat)
    ensures Civil(days + 1) == NextDate(Civil(days))
  {
    CivilIsDate(days);
    NextDateCounts(Civil(days));
    EveryDateReached(NextDate(Civil(days)));
  }

  lemma DayOrder(days: nat, later: nat)
    requires days < later
    ensures Before(Civil(days), Civil(later))
  {
    CivilIsDate(days);
    CivilIsDate(later);
    if Before(Civil(later), Civil(days)) {
      Earlier(Civil(later), Civil(days));
    }
  }

  predicate TimeOfDay(sod: int, hour: int, minute: int, second: int) {
    && 0 <= hour < 24 && 0 <= minute < 60 && 0 <= second < 60
    && sod == hour * 3600 + minute * 60 + second
  }

  lemma Clock(sod: nat)
    requires sod < 86400
    ensures TimeOfDay(sod, sod / 3600, sod % 3600 / 60, sod % 60)
  {
    assert sod == 60 * (sod / 60) + sod % 60;
    assert sod % 3600 / 60 == sod / 60 - 60 * (sod / 3600);
  }

  /** The time shown is a valid one and reads back as the seconds it was made from. */
  lemma RtcReadsBack(secs: nat)
    ensures ValidTime(Rtc(secs))
    ensures Seconds(Rtc(secs)) == secs
  {
    var days, sod := secs / 86400, secs % 86400;
    Shown(days, sod);
    assert secs == days * 86400 + sod;
  }

  lemma Shown(days: nat, sod: nat)
    requires sod < 86400
    ensures var t := DateTime(Civil(days), sod / 3600, sod % 3600 / 60, sod % 60);
            ValidTime(t) && Seconds(t) == days * 86400 + sod
  {
    CivilIsDate(days);
    Clock(sod);
  }

  lemma ClockUnique(sod: int, hour: int, minute: int, second: int)
    requires TimeOfDay(sod, hour, minute, second)
    ensures 0 <= sod < 86400 && hour == sod / 3600 && minute == sod % 3600 / 60 && second == sod % 60
  {
    assert sod % 3600 == minute * 60 + second;
  }

  /** And every valid time is the one shown for its own seconds. */
  lemma EveryTimeShown(t: DateTime)
    requires ValidTime(t)
    ensures Seconds(t) >= 0 && Rtc(Seconds(t)) == t
  {
    EveryDateReached(t.date);
    var days, sod := DayNumber(t.date), t.hour * 3600 + t.minute * 60 + t.second;
    ClockUnique(sod, t.hour, t.minute, t.second);
    DayAndSecond(days, sod);
  }

  lemma DayAndSecond(days: nat, sod: nat)
    requires sod < 86400
    ensures (days * 86400 + sod) / 86400 == days && (days * 86400 + sod) % 86400 == sod
  {
  }
}
