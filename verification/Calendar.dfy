/**
 Days since 1970-01-01 as dates of the proleptic Gregorian calendar
 (`civil_from_days` in rigflow-client/src/ui/app_audio.rs), over unbounded days.
 */
module Calendar {
  import opened Division

  datatype Date = Date(y: int, m: int, d: int)

  // ---- the calendar's own rules ------------------------------------------------

  predicate IsLeap(y: int) {
    y % 4 == 0 && (y % 100 != 0 || y % 400 == 0)
  }

  function DaysInMonth(y: int, m: int): int {
    if m == 2 then (if IsLeap(y) then 29 else 28)
    else if m == 4 || m == 6 || m == 9 || m == 11 then 30
    else 31
  }

  predicate ValidDate(t: Date) {
    1 <= t.m <= 12 && 1 <= t.d <= DaysInMonth(t.y, t.m)
  }

  function NextDay(t: Date): Date {
    if t.d < DaysInMonth(t.y, t.m) then Date(t.y, t.m, t.d + 1)
    else if t.m < 12 then Date(t.y, t.m + 1, 1)
    else Date(t.y + 1, 1, 1)
  }

  // ---- the computation ---------------------------------------------------------

  /** The month and day of day `doy` of a year that starts on March 1. */
  function MonthDay(doy: int): (int, int) {
    var mp := TruncDiv(5 * doy + 2, 153);
    var d := doy - TruncDiv(153 * mp + 2, 5) + 1;
    (if mp < 10 then mp + 3 else mp - 9, d)
  }

  /** The year of a 400-year era that day `doe` of the era falls in, counted from March 1. */
  function YearOfEra(doe: int): int {
    TruncDiv(doe - TruncDiv(doe, 1460) + TruncDiv(doe, 36524) - TruncDiv(doe, 146096), 365)
  }

  function DayOfYear(doe: int, yoe: int): int {
    doe - (365 * yoe + TruncDiv(yoe, 4) - TruncDiv(yoe, 100))
  }

  function CivilFromDays(day: int): Date {
    var z := day + 719468;
    var era := TruncDiv(if z >= 0 then z else z - 146096, 146097);
    var doe := z - era * 146097;
    var yoe := YearOfEra(doe);
    var (m, d) := MonthDay(DayOfYear(doe, yoe));
    Date(if m <= 2 then yoe + era * 400 + 1 else yoe + era * 400, m, d)
  }

  // ---- the position inside an era ------------------------------------------------

  /** The era is the floor of the division, also for days before year 0. */
  lemma EraIsFloor(z: int)
    ensures var era := TruncDiv(if z >= 0 then z else z - 146096, 146097);
            0 <= z - era * 146097 < 146097
  {
  }

  /** First day, within its era, of year `yoe`. */
  function YearStart(yoe: int): int {
    365 * yoe + yoe / 4 - yoe / 100
  }

  /** Years of an era from March: year `yoe` ends with the February of a leap year or not. */
  predicate LongYear(yoe: int) {
    (yoe + 1) % 4 == 0 && ((yoe + 1) % 100 != 0 || yoe == 399)
  }

  lemma YearLength(yoe: int)
    requires 0 <= yoe < 400
    ensures yoe < 399 ==> YearStart(yoe + 1) - YearStart(yoe) == if LongYear(yoe) then 366 else 365
    ensures yoe == 399 ==> YearStart(yoe) == 146097 - 366 && LongYear(yoe)
    ensures YearStart(0) == 0
  {
  }

  /** A century, a four-year group and a year of the group, and the day of that year. */
  lemma Decompose(doe: int) returns (c: int, q: int, e: int, t: int)
    requires 0 <= doe < 146097
    ensures 0 <= c <= 3 && 0 <= q <= 24 && 0 <= e <= 3 && 0 <= t <= 365
    ensures doe == 36524 * c + 1461 * q + 365 * e + t
    ensures t == 365 ==> e == 3 && (q < 24 || c == 3)
  {
    c := if doe == 146096 then 3 else doe / 36524;
    var r := doe - 36524 * c;
    q := if r == 36524 then 24 else r / 1461;
    var s := r - 1461 * q;
    e := if s == 1460 then 3 else s / 365;
    t := s - 365 * e;
  }

  lemma YearOfEraIs(doe: int, c: int, q: int, e: int, t: int)
    requires 0 <= doe < 146097
    requires 0 <= c <= 3 && 0 <= q <= 24 && 0 <= e <= 3 && 0 <= t <= 365
    requires doe == 36524 * c + 1461 * q + 365 * e + t
    requires t == 365 ==> e == 3 && (q < 24 || c == 3)
    ensures YearOfEra(doe) == 100 * c + 4 * q + e
    ensures DayOfYear(doe, YearOfEra(doe)) == t
  {
    var y := 100 * c + 4 * q + e;
    assert doe / 36524 == if doe == 146096 then 4 else c;
    assert doe / 1460 == if 24 * c + q + 365 * e + t < 1460 then 25 * c + q else 25 * c + q + 1;
    assert y / 4 == 25 * c + q && y / 100 == c;
  }

  /** The computed year and day of year are the ones the day falls in. */
  lemma YearAndDay(doe: int)
    requires 0 <= doe < 146097
    ensures var y := YearOfEra(doe);
            var t := DayOfYear(doe, y);
            && 0 <= y < 400 && 0 <= t <= 365 && doe == YearStart(y) + t
            && (t == 365 ==> LongYear(y))
  {
    var c, q, e, t := Decompose(doe);
    YearOfEraIs(doe, c, q, e, t);
    var y := 100 * c + 4 * q + e;
    assert y / 4 == 25 * c + q && y / 100 == c;
    assert (y + 1) % 100 == 0 ==> e == 3 && q == 24;
  }

  lemma YearStartMonotone(a: int, b: int)
    requires 0 <= a < b < 400
    ensures YearStart(b) >= YearStart(a) + if LongYear(a) then 366 else 365
  {
    YearLength(a);
    assert 365 * (b - (a + 1)) + b / 4 - (a + 1) / 4 >= b / 100 - (a + 1) / 100;
  }

  /** A day of an era lies in one year only. */
  lemma YearUnique(y: int, t: int, y': int, t': int)
    requires 0 <= y < 400 && 0 <= t <= 365 && (t == 365 ==> LongYear(y))
    requires 0 <= y' < 400 && 0 <= t' <= 365 && (t' == 365 ==> LongYear(y'))
    requires YearStart(y) + t == YearStart(y') + t'
    ensures y == y' && t == t'
  {
    if y < y' {
      YearStartMonotone(y, y');
    } else if y' < y {
      YearStartMonotone(y', y);
    }
  }

  // ---- day by day ----------------------------------------------------------------

  /** Day `t` of the year that starts on March 1 of `year`. */
  function DateAt(year: int, t: int): Date {
    var (m, d) := MonthDay(t);
    Date(if m <= 2 then year + 1 else year, m, d)
  }

  /** The era, year of era and day of year of a day. */
  ghost predicate At(day: int, era: int, y: int, t: int) {
    && 0 <= y < 400 && 0 <= t <= 365 && (t == 365 ==> LongYear(y))
    && day + 719468 == era * 146097 + YearStart(y) + t
  }

  lemma Locate(day: int) returns (era: int, y: int, t: int)
    ensures At(day, era, y, t) && CivilFromDays(day) == DateAt(era * 400 + y, t)
  {
    hide YearStart, LongYear, YearOfEra, DayOfYear, MonthDay;
    var z := day + 719468;
    EraIsFloor(z);
    era := TruncDiv(if z >= 0 then z else z - 146096, 146097);
    var doe := z - era * 146097;
    YearAndDay(doe);
    y := YearOfEra(doe);
    t := DayOfYear(doe, y);
  }

  lemma AtUnique(day: int, era: int, y: int, t: int)
    requires At(day, era, y, t)
    ensures CivilFromDays(day) == DateAt(era * 400 + y, t)
  {
    var era', y', t' := Locate(day);
    InsideEra(y, t);
    InsideEra(y', t');
    assert era == era';
    YearUnique(y, t, y', t');
  }

  lemma InsideEra(y: int, t: int)
    requires 0 <= y < 400 && 0 <= t <= 365 && (t == 365 ==> LongYear(y))
    ensures 0 <= YearStart(y) + t < 146097
  {
    YearLength(399);
    if y < 399 {
      YearStartMonotone(y, 399);
    }
  }

  lemma LongIsLeap(era: int, y: int)
    requires 0 <= y < 400
    ensures LongYear(y) <==> IsLeap(era * 400 + y + 1)
  {
    Mod4(100 * era, y + 1);
    Mod100(4 * era, y + 1);
    Mod400(era, y + 1);
  }

  lemma Mod4(k: int, n: int)
    ensures (4 * k + n) % 4 == n % 4
  {
  }

  lemma Mod100(k: int, n: int)
    ensures (100 * k + n) % 100 == n % 100
  {
  }

  lemma Mod400(k: int, n: int)
    ensures (400 * k + n) % 400 == n % 400
  {
  }

  /** Months run through the year without gaps, and only a long year has a day 365. */
  lemma MonthDayStep(year: int, t: int)
    requires 0 <= t <= 365 && (t == 365 ==> IsLeap(year + 1))
    ensures ValidDate(DateAt(year, t))
    ensures NextDay(DateAt(year, t))
            == if t == 365 || (t == 364 && !IsLeap(year + 1)) then DateAt(year + 1, 0) else DateAt(year, t + 1)
  {
    var mp := (5 * t + 2) / 153;
    assert 0 <= mp <= 11;
  }

  lemma CivilIsValid(day: int)
    ensures ValidDate(CivilFromDays(day))
  {
    hide CivilFromDays, DateAt, ValidDate, NextDay, YearStart, LongYear, IsLeap;
    var era, y, t := Locate(day);
    LongIsLeap(era, y);
    MonthDayStep(era * 400 + y, t);
  }

  /** Day after day, the computation follows the calendar. */
  lemma CivilSuccessor(day: int)
    ensures CivilFromDays(day + 1) == NextDay(CivilFromDays(day))
  {
    hide CivilFromDays, DateAt, ValidDate, NextDay, YearStart, LongYear, IsLeap;
    var era, y, t := Locate(day);
    LongIsLeap(era, y);
    MonthDayStep(era * 400 + y, t);
    YearLength(y);
    if t == 365 || (t == 364 && !LongYear(y)) {
      if y == 399 {
        AtUnique(day + 1, era + 1, 0, 0);
      } else {
        AtUnique(day + 1, era, y + 1, 0);
      }
    } else {
      AtUnique(day + 1, era, y, t + 1);
    }
  }

  // ---- counting days ---------------------------------------------------------------

  function DaysBeforeYear(y: int): int {
    365 * (y - 1) + (y - 1) / 4 - (y - 1) / 100 + (y - 1) / 400
  }

  function DaysBeforeMonth(y: int, m: int): int
    requires 1 <= m <= 12
  {
    if m == 1 then 0 else DaysBeforeMonth(y, m - 1) + DaysInMonth(y, m - 1)
  }

  /** Days from 1970-01-01 to a date, counted through years and months. */
  function DaysFromCivil(t: Date): int
    requires ValidDate(t)
  {
    DaysBeforeYear(t.y) + DaysBeforeMonth(t.y, t.m) + t.d - 1 - 719162
  }

  lemma CivilEpoch()
    ensures CivilFromDays(0) == Date(1970, 1, 1)
    ensures DaysFromCivil(Date(1970, 1, 1)) == 0
  {
  }

  lemma Carry4(y: int)
    ensures y / 4 - (y - 1) / 4 == if y % 4 == 0 then 1 else 0
  {
  }

  lemma Carry100(y: int)
    ensures y / 100 - (y - 1) / 100 == if y % 100 == 0 then 1 else 0
  {
  }

  lemma Carry400(y: int)
    ensures y / 400 - (y - 1) / 400 == if y % 400 == 0 then 1 else 0
    ensures y % 400 == 0 ==> y % 100 == 0
    ensures y % 100 == 0 ==> y % 4 == 0
  {
  }

  lemma YearDays(y: int)
    ensures DaysBeforeYear(y + 1) - DaysBeforeYear(y) == if IsLeap(y) then 366 else 365
  {
    Carry4(y);
    Carry100(y);
    Carry400(y);
  }

  lemma DecemberStart(y: int)
    ensures DaysBeforeMonth(y, 12) == if IsLeap(y) then 335 else 334
  {
    hide IsLeap;
    var leap := if IsLeap(y) then 1 else 0;
    assert DaysBeforeMonth(y, 1) == 0 && DaysBeforeMonth(y, 2) == 31;
    assert DaysBeforeMonth(y, 3) == 59 + leap;
    assert DaysBeforeMonth(y, 5) == 120 + leap;
    assert DaysBeforeMonth(y, 7) == 181 + leap;
    assert DaysBeforeMonth(y, 9) == 243 + leap;
    assert DaysBeforeMonth(y, 11) == 304 + leap;
  }

  lemma CountSuccessor(t: Date)
    requires ValidDate(t)
    ensures ValidDate(NextDay(t)) && DaysFromCivil(NextDay(t)) == DaysFromCivil(t) + 1
  {
    YearDays(t.y);
    DecemberStart(t.y);
  }

  /** Counting inverts the computation, for every day before and after the epoch. */
  lemma {:induction false} CivilRoundTrip(day: int)
    ensures ValidDate(CivilFromDays(day)) && DaysFromCivil(CivilFromDays(day)) == day
    decreases if day < 0 then -day else day
  {
    hide CivilFromDays, DaysFromCivil, ValidDate, NextDay;
    CivilIsValid(day);
    if day == 0 {
      CivilEpoch();
    } else if day > 0 {
      CivilRoundTrip(day - 1);
      CivilSuccessor(day - 1);
      CountSuccessor(CivilFromDays(day - 1));
    } else {
      CivilRoundTrip(day + 1);
      CivilSuccessor(day);
      CountSuccessor(CivilFromDays(day));
    }
  }

  lemma {:induction false} MonthsMonotone(y: int, m: int, m': int)
    requires 1 <= m < m' <= 12
    ensures DaysBeforeMonth(y, m') >= DaysBeforeMonth(y, m) + DaysInMonth(y, m)
    decreases m'
  {
    if m + 1 < m' {
      MonthsMonotone(y, m, m' - 1);
    }
  }

  lemma {:induction false} YearsMonotone(y: int, y': int)
    requires y < y'
    ensures DaysBeforeYear(y') >= DaysBeforeYear(y + 1)
    decreases y' - y
  {
    if y + 1 < y' {
      YearsMonotone(y, y' - 1);
      YearDays(y' - 1);
    }
  }

  lemma InsideYear(t: Date)
    requires ValidDate(t)
    ensures DaysBeforeYear(t.y) <= DaysFromCivil(t) + 719162 < DaysBeforeYear(t.y + 1)
  {
    YearDays(t.y);
    DecemberStart(t.y);
    if t.m < 12 {
      MonthsMonotone(t.y, t.m, 12);
    }
    if t.m > 1 {
      MonthsMonotone(t.y, 1, t.m);
    }
  }

  lemma CountInjective(t: Date, t': Date)
    requires ValidDate(t) && ValidDate(t') && DaysFromCivil(t) == DaysFromCivil(t')
    ensures t == t'
  {
    InsideYear(t);
    InsideYear(t');
    if t.y < t'.y {
      YearsMonotone(t.y, t'.y);
    } else if t'.y < t.y {
      YearsMonotone(t'.y, t.y);
    } else if t.m < t'.m {
      MonthsMonotone(t.y, t.m, t'.m);
    } else if t'.m < t.m {
      MonthsMonotone(t.y, t'.m, t.m);
    }
  }

  /** Every date of the calendar is the date of exactly one day. */
  lemma CivilIsOnto(t: Date)
    requires ValidDate(t)
    ensures CivilFromDays(DaysFromCivil(t)) == t
  {
    CivilRoundTrip(DaysFromCivil(t));
    CountInjective(CivilFromDays(DaysFromCivil(t)), t);
  }
}
