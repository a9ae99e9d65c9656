/** The timestamp calendar of `scan.rs`: `civil_from_days` turns a day count since
    1970-01-01 into a date of the proleptic Gregorian calendar. */
module Calendar {

  datatype Date = Date(year: int, month: int, day: int)

  /** The leap rule of Appendix C of RFC 3339. */
  predicate IsLeap(year: int) {
    year % 4 == 0 && (year % 100 != 0 || year % 400 == 0)
  }

  function DaysInMonth(year: int, month: int): int {
    if month == 2 then (if IsLeap(year) then 29 else 28)
    else if month == 4 || month == 6 || month == 9 || month == 11 then 30
    else 31
  }

  predicate IsDate(d: Date) {
    1 <= d.month <= 12 && 1 <= d.day <= DaysInMonth(d.year, d.month)
  }

  /** The calendar's own successor: the next day, month or year. */
  function NextDay(d: Date): Date {
    if d.day < DaysInMonth(d.year, d.month) then Date(d.year, d.month, d.day + 1)
    else if d.month < 12 then Date(d.year, d.month + 1, 1)
    else Date(d.year + 1, 1, 1)
  }

  /** Division of the source's signed words: toward zero. */
  function TruncDiv(a: int, b: int): int
    requires b > 0
  {
    if a >= 0 then a / b else -((-a) / b)
  }

  function CivilFromDays(daysSinceEpoch: int): Date {
    var z := daysSinceEpoch + 719_468;
    var era := TruncDiv(if z >= 0 then z else z - 146_096, 146_097);
    var dayOfEra := z - era * 146_097;
    var yearOfEra := TruncDiv(
      dayOfEra - TruncDiv(dayOfEra, 1_460) + TruncDiv(dayOfEra, 36_524) - TruncDiv(dayOfEra, 146_096), 365);
    var year := yearOfEra + era * 400;
    var dayOfYear := dayOfEra - (365 * yearOfEra + TruncDiv(yearOfEra, 4) - TruncDiv(yearOfEra, 100));
    var monthPrime := TruncDiv(5 * dayOfYear + 2, 153);
    var day := dayOfYear - TruncDiv(153 * monthPrime + 2, 5) + 1;
    var month := monthPrime + if monthPrime < 10 then 3 else -9;
    Date(year + if month <= 2 then 1 else 0, month, day)
  }

  /** Days before `year` counted from year 0, one February 29 per leap year. */
  function DaysBeforeYear(year: int): int {
    365 * year + (year + 3) / 4 - (year + 99) / 100 + (year + 399) / 400
  }

  function DaysBeforeMonth(year: int, month: int): int
    requires 1 <= month <= 12
    decreases month
  {
    if month == 1 then 0 else DaysBeforeMonth(year, month - 1) + DaysInMonth(year, month - 1)
  }

  /** The day count of a date, by adding up whole years, whole months and days. */
  function DaysFromCivil(d: Date): int
    requires IsDate(d)
  {
    DaysBeforeYear(d.year) + DaysBeforeMonth(d.year, d.month) + d.day - 1 - 719_528
  }

  lemma EveryNth(year: int, n: int)
    requires n == 4 || n == 100 || n == 400
    ensures (year + n) / n == (year + n - 1) / n + (if year % n == 0 then 1 else 0)
    ensures (year + n) / n == year / n + 1
  {
  }

  /** The reference count is a calendar: leap years are exactly the 366-day ones. */
  lemma YearLength(year: int)
    ensures DaysBeforeYear(year + 1) == DaysBeforeYear(year) + (if IsLeap(year) then 366 else 365)
  {
    EveryNth(year, 4);
    EveryNth(year, 100);
    EveryNth(year, 400);
  }

  lemma MonthOffsets(year: int, month: int)
    requires 1 <= month <= 12
    ensures DaysBeforeMonth(year, month) ==
            var leap := if IsLeap(year) then 1 else 0;
            if month <= 2 then 31 * (month - 1) else (153 * (month - 3) + 2) / 5 + 59 + leap
    ensures DaysBeforeMonth(year, 12) + 31 == (if IsLeap(year) then 366 else 365)
  {
  }

  /** The day counts of successive dates are successive. */
  lemma NextDayCount(d: Date)
    requires IsDate(d)
    ensures IsDate(NextDay(d)) && DaysFromCivil(NextDay(d)) == DaysFromCivil(d) + 1
  {
    hide DaysBeforeYear, IsLeap;
    if d.day == DaysInMonth(d.year, d.month) && d.month == 12 {
      MonthOffsets(d.year, 12);
      YearLength(d.year);
    }
  }

  /** Days from the first day of an era, a March 1, to the `y`th March 1 after it. */
  function EraDays(y: int): int {
    365 * y + y / 4 - y / 100
  }

  /** The source's year of an era, from the day of the era. */
  function YearIn(doe: int): int {
    (doe - doe / 1_460 + doe / 36_524 - doe / 146_096) / 365
  }

  /** Year `k` of four-year cycle `q` of century `c`. */
  lemma EraDaysAt(c: int, q: int, k: int)
    requires 0 <= c <= 3 && 0 <= q <= 24 && 0 <= k <= 3
    ensures EraDays(100 * c + 4 * q + k) == 36_524 * c + 1_461 * q + 365 * k
  {
    var y := 100 * c + 4 * q + k;
    assert y / 4 == 25 * c + q;
    assert y / 100 == c;
  }

  /** The correction terms recover the year from day `s` of cycle `q` of century `c`. */
  lemma CorrectedYear(c: int, q: int, s: int)
    requires 0 <= c <= 3 && 0 <= q <= 24 && 0 <= s <= 1_460 && 1_461 * q + s < 36_524
    ensures YearIn(36_524 * c + 1_461 * q + s) == 100 * c + 4 * q + (if s == 1_460 then 3 else s / 365)
  {
    var doe := 36_524 * c + 1_461 * q + s;
    assert doe / 36_524 == c && doe / 146_096 == 0;
    var e := if q + s + 24 * c >= 1_460 then 1 else 0;
    assert doe == 1_460 * (25 * c + q + e) + (q + s + 24 * c - 1_460 * e);
    assert doe / 1_460 == 25 * c + q + e;
    assert (s - e) / 365 == if s == 1_460 then 3 else s / 365;
  }

  /** The year found is the one whose span holds the day. */
  lemma YearHoldsDay(doe: int)
    requires 0 <= doe < 146_097
    ensures 0 <= YearIn(doe) <= 399 && EraDays(YearIn(doe)) <= doe
    ensures doe < EraDays(YearIn(doe) + 1) || (YearIn(doe) == 399 && doe == 146_096)
  {
    if doe < 146_096 {
      var c := doe / 36_524;
      var q := (doe - 36_524 * c) / 1_461;
      var s := doe - 36_524 * c - 1_461 * q;
      CorrectedYear(c, q, s);
      var k := if s == 1_460 then 3 else s / 365;
      EraDaysAt(c, q, k);
      if k < 3 {
        EraDaysAt(c, q, k + 1);
      } else if q < 24 {
        EraDaysAt(c, q + 1, 0);
      } else if c < 3 {
        EraDaysAt(c + 1, 0, 0);
      }
    }
  }

  lemma EraShift(era: int, y: int)
    requires 0 <= y <= 399
    ensures (400 * era + y) / 4 == 100 * era + y / 4
    ensures (400 * era + y) / 100 == 4 * era + y / 100
    ensures (400 * era + y) / 400 == era
  {
  }

  function Divides(n: int, year: int): int
    requires n > 0
  {
    if year % n == 0 then 1 else 0
  }

  lemma LeapIndicator(year: int)
    ensures (if IsLeap(year) then 1 else 0) == Divides(4, year) - Divides(100, year) + Divides(400, year)
  {
    if year % 400 == 0 {
      assert year == 100 * (4 * (year / 400));
    }
    if year % 100 == 0 {
      assert year == 4 * (25 * (year / 100));
    }
  }

  lemma LeapsUpTo(year: int)
    ensures DaysBeforeYear(year) + (if IsLeap(year) then 1 else 0)
            == 365 * year + year / 4 - year / 100 + year / 400 + 1
  {
    LeapIndicator(year);
    EveryNth(year, 4);
    EveryNth(year, 100);
    EveryNth(year, 400);
    hide IsLeap;
  }

  /** March 1 of year `400 * era + y`, counted both ways. */
  lemma MarchFirst(era: int, y: int)
    requires 0 <= y <= 399
    ensures DaysBeforeYear(400 * era + y) + 59 + (if IsLeap(400 * era + y) then 1 else 0)
            == 146_097 * era + EraDays(y) + 60
  {
    LeapsUpTo(400 * era + y);
    hide DaysBeforeYear, IsLeap;
    EraShift(era, y);
  }

  lemma EraYearLength(y: int)
    requires 0 <= y
    ensures EraDays(y + 1) == EraDays(y) + 365 + Divides(4, y + 1) - Divides(100, y + 1)
  {
    EveryNth(y - 3, 4);
    EveryNth(y - 99, 100);
  }

  lemma EraLeap4(era: int, w: int)
    ensures Divides(4, 400 * era + w) == Divides(4, w)
  {
    assert 400 * era + w == 4 * (100 * era + w / 4) + w % 4;
  }

  lemma EraLeap100(era: int, w: int)
    ensures Divides(100, 400 * era + w) == Divides(100, w)
  {
    assert 400 * era + w == 100 * (4 * era + w / 100) + w % 100;
  }

  lemma EraLeap400(era: int, w: int)
    ensures Divides(400, 400 * era + w) == Divides(400, w)
  {
    assert 400 * era + w == 400 * (era + w / 400) + w % 400;
  }

  /** The last day of a long March year is a February 29. */
  lemma LeapAtEnd(era: int, doe: int)
    requires 0 <= doe < 146_097
    ensures 0 <= doe - EraDays(YearIn(doe)) <= 365
    ensures doe - EraDays(YearIn(doe)) == 365 ==> IsLeap(400 * era + YearIn(doe) + 1)
  {
    hide YearIn, EraDays, IsLeap;
    YearHoldsDay(doe);
    var y := YearIn(doe);
    EraYearLength(y);
    LeapIndicator(400 * era + (y + 1));
    EraLeap4(era, y + 1);
    EraLeap100(era, y + 1);
    EraLeap400(era, y + 1);
    LastYear();
  }

  lemma LastYear()
    ensures EraDays(399) == 145_731
  {
  }

  /** The month and day that the source reads off the day of a March year. */
  function MonthPrime(doy: int): int { (5 * doy + 2) / 153 }

  function DateIn(marchYear: int, doy: int): Date {
    var mp := MonthPrime(doy);
    var month := mp + if mp < 10 then 3 else -9;
    Date(marchYear + if month <= 2 then 1 else 0, month, doy - (153 * mp + 2) / 5 + 1)
  }

  lemma DateInCounts(marchYear: int, doy: int)
    requires 0 <= doy <= 365 && (doy == 365 ==> IsLeap(marchYear + 1))
    ensures IsDate(DateIn(marchYear, doy))
    ensures DaysFromCivil(DateIn(marchYear, doy)) ==
            DaysBeforeYear(marchYear) + 59 + (if IsLeap(marchYear) then 1 else 0) + doy - 719_528
  {
    hide DaysBeforeYear;
    var d := DateIn(marchYear, doy);
    var mp := MonthPrime(doy);
    assert 0 <= mp <= 11 && (153 * mp + 2) / 5 <= doy < (153 * (mp + 1) + 2) / 5;
    MonthOffsets(d.year, d.month);
    YearLength(marchYear);
  }

  /** Rounding toward zero with the shifted numerator is the floor, so the day of the era
      is never negative. */
  lemma EraOf(z: int)
    ensures 0 <= z - TruncDiv(if z >= 0 then z else z - 146_096, 146_097) * 146_097 < 146_097
  {
  }

  lemma YearInTruncates(doe: int)
    requires 0 <= doe < 146_097
    ensures YearIn(doe) == TruncDiv(
              doe - TruncDiv(doe, 1_460) + TruncDiv(doe, 36_524) - TruncDiv(doe, 146_096), 365)
  {
  }

  lemma MonthTruncates(doy: int)
    requires 0 <= doy <= 365
    ensures TruncDiv(5 * doy + 2, 153) == MonthPrime(doy) >= 0
    ensures TruncDiv(153 * MonthPrime(doy) + 2, 5) == (153 * MonthPrime(doy) + 2) / 5
  {
  }

  lemma EraTruncates(y: int)
    requires y >= 0
    ensures EraDays(y) == 365 * y + TruncDiv(y, 4) - TruncDiv(y, 100)
  {
  }

  lemma CivilInEra(n: int)
    ensures var z := n + 719_468;
            var era := TruncDiv(if z >= 0 then z else z - 146_096, 146_097);
            var doe := z - era * 146_097;
            CivilFromDays(n) == DateIn(400 * era + YearIn(doe), doe - EraDays(YearIn(doe)))
  {
    hide YearIn, TruncDiv, MonthPrime, EraDays, IsLeap;
    var z := n + 719_468;
    var era := TruncDiv(if z >= 0 then z else z - 146_096, 146_097);
    var doe := z - era * 146_097;
    EraOf(z);
    YearHoldsDay(doe);
    YearInTruncates(doe);
    EraTruncates(YearIn(doe));
    LeapAtEnd(era, doe);
    MonthTruncates(doe - EraDays(YearIn(doe)));
  }

  /** Every day number yields a real date, and the date counts back to that number. */
  lemma CivilIsExact(n: int)
    ensures IsDate(CivilFromDays(n)) && DaysFromCivil(CivilFromDays(n)) == n
  {
    hide IsLeap, DaysFromCivil, CivilFromDays, DaysBeforeYear, YearIn, DateIn, IsDate, EraDays;
    var z := n + 719_468;
    var era := TruncDiv(if z >= 0 then z else z - 146_096, 146_097);
    var doe := z - era * 146_097;
    EraOf(z);
    CivilInEra(n);
    YearHoldsDay(doe);
    LeapAtEnd(era, doe);
    MarchFirst(era, YearIn(doe));
    DateInCounts(400 * era + YearIn(doe), doe - EraDays(YearIn(doe)));
  }

  lemma {:induction false} YearsIncrease(a: int, b: int)
    requires a < b
    ensures DaysBeforeYear(a + 1) <= DaysBeforeYear(b)
    decreases b - a
  {
    if a + 1 < b {
      YearLength(a + 1);
      YearsIncrease(a + 1, b);
    }
  }

  /** The position of a date inside its own year. */
  lemma WithinYear(d: Date)
    requires IsDate(d)
    ensures 0 <= DaysBeforeMonth(d.year, d.month) + d.day - 1 < DaysBeforeYear(d.year + 1) - DaysBeforeYear(d.year)
  {
    hide DaysBeforeYear;
    MonthOffsets(d.year, d.month);
    YearLength(d.year);
  }

  lemma MonthsIncrease(year: int, a: int, b: int)
    requires 1 <= a < b <= 12
    ensures DaysBeforeMonth(year, a) + DaysInMonth(year, a) <= DaysBeforeMonth(year, b)
  {
    if a + 1 < b {
      MonthsIncrease(year, a, b - 1);
    }
  }

  /** No two dates share a day number. */
  lemma DaysFromCivilInjective(a: Date, b: Date)
    requires IsDate(a) && IsDate(b) && DaysFromCivil(a) == DaysFromCivil(b)
    ensures a == b
  {
    hide DaysBeforeYear, DaysBeforeMonth, DaysInMonth;
    WithinYear(a);
    WithinYear(b);
    if a.year < b.year {
      YearsIncrease(a.year, b.year);
    } else if b.year < a.year {
      YearsIncrease(b.year, a.year);
    } else if a.month < b.month {
      MonthsIncrease(a.year, a.month, b.month);
    } else if b.month < a.month {
      MonthsIncrease(a.year, b.month, a.month);
    }
  }

  /** Every date is reached, from exactly its own day number. */
  lemma CivilReachesEveryDate(d: Date)
    requires IsDate(d)
    ensures CivilFromDays(DaysFromCivil(d)) == d
  {
    CivilIsExact(DaysFromCivil(d));
    DaysFromCivilInjective(CivilFromDays(DaysFromCivil(d)), d);
  }

  /** One more day is always the calendar successor: no date is skipped or repeated. */
  lemma CivilAdvancesByOneDay(n: int)
    ensures CivilFromDays(n + 1) == NextDay(CivilFromDays(n))
    ensures CivilFromDays(0) == Date(1970, 1, 1)
  {
    CivilIsExact(n);
    CivilIsExact(n + 1);
    NextDayCount(CivilFromDays(n));
    hide CivilFromDays, NextDay, DaysFromCivil;
    DaysFromCivilInjective(CivilFromDays(n + 1), NextDay(CivilFromDays(n)));
    EpochIsZero();
  }

  lemma EpochIsZero()
    ensures CivilFromDays(0) == Date(1970, 1, 1)
  {
  }
}
