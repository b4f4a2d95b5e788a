/** Calendar conversion of lib/datetime/datetime.c, in seconds since 1970-01-01 00:00:00. */
module DateTime {
  const EPOCH_START_YEAR: int := 1970
  const SECONDS_PER_DAY: int := 86400
  const WRAP: int := 0x1_0000_0000

  datatype Date = Date(hour: nat, minute: nat, second: nat, day: nat, month: nat, year: nat, weekday: nat)

  predicate IsLeapYear(year: nat) {
    (year % 4 == 0 && year % 100 != 0) || year % 400 == 0
  }

  function DaysPerYear(year: nat): nat {
    if IsLeapYear(year) then 366 else 365
  }

  function DaysPerMonth(leap: bool, month: nat): nat
    requires 1 <= month <= 12
  {
    if month == 2 then (if leap then 29 else 28)
    else if month == 4 || month == 6 || month == 9 || month == 11 then 30
    else 31
  }

  // --- The day count ---------------------------------------------------------------------------

  /** Days from the epoch to the first of January of `year`. */
  function DaysBeforeYear(year: nat): nat {
    if year <= EPOCH_START_YEAR then 0 else DaysBeforeYear(year - 1) + DaysPerYear(year - 1)
  }

  function DaysBeforeMonth(leap: bool, month: nat): nat
    requires month <= 13
  {
    if month <= 1 then 0 else DaysBeforeMonth(leap, month - 1) + DaysPerMonth(leap, month - 1)
  }

  function DayOfYear(d: Date): int
    requires d.month <= 13
  {
    DaysBeforeMonth(IsLeapYear(d.year), d.month) + d.day - 1
  }

  function SecondOfDay(d: Date): nat {
    d.hour * 3600 + d.minute * 60 + d.second
  }

  function Seconds(d: Date): int
    requires d.month <= 13
  {
    (DaysBeforeYear(d.year) + DayOfYear(d)) * SECONDS_PER_DAY + SecondOfDay(d)
  }

  /** The days of the year before a month, without a table of months; month 0 counts as January. */
  function DaysByFormula(leap: bool, month: nat): int {
    if month == 0 then 0
    else (367 * month - 362) / 12 - if month <= 2 then 0 else if leap then 1 else 2
  }

  /** Each entry of the month table is what the formula says. */
  lemma MonthByFormula(leap: bool, month: nat)
    requires 1 <= month <= 12
    ensures DaysPerMonth(leap, month) == DaysByFormula(leap, month + 1) - DaysByFormula(leap, month)
  {
    if month == 1 {} else if month == 2 {} else if month == 3 {} else if month == 4 {} else if month == 5 {} else if month == 6 {}
    else if month == 7 {} else if month == 8 {} else if month == 9 {} else if month == 10 {} else if month == 11 {} else {}
  }

  lemma {:induction false} MonthsByFormula(leap: bool, month: nat)
    requires month <= 13
    ensures DaysBeforeMonth(leap, month) == DaysByFormula(leap, month)
  {
    hide DaysPerMonth;
    if month > 1 {
      MonthsByFormula(leap, month - 1);
      MonthByFormula(leap, month - 1);
    }
  }

  /** "Seconds Since the Epoch", section 4.16 of the Base Definitions of POSIX.1-2017. */
  function PosixSeconds(d: Date): int
    requires d.month <= 13
  {
    var year := d.year - 1900;
    d.second + d.minute * 60 + d.hour * 3600 + (DaysByFormula(IsLeapYear(d.year), d.month) + d.day - 1) * 86400
    + (year - 70) * 31536000 + ((year - 69) / 4) * 86400 - ((year - 1) / 100) * 86400 + ((year + 299) / 400) * 86400
  }

  /** Leap years from the epoch up to but not including `year`, in closed form. */
  function LeapYearsBefore(year: int): int {
    (year - 1969) / 4 - (year - 1901) / 100 + (year - 1601) / 400
  }

  lemma Quarter(y: int)
    ensures (y + 1 - 1969) / 4 == (y - 1969) / 4 + if y % 4 == 0 then 1 else 0
  {
  }

  lemma Century(y: int)
    ensures (y + 1 - 1901) / 100 == (y - 1901) / 100 + if y % 100 == 0 then 1 else 0
  {
  }

  lemma FourCenturies(y: int)
    ensures (y + 1 - 1601) / 400 == (y - 1601) / 400 + if y % 400 == 0 then 1 else 0
  {
  }

  lemma Divisors(y: int)
    ensures y % 400 == 0 ==> y % 100 == 0
    ensures y % 100 == 0 ==> y % 4 == 0
  {
  }

  lemma LeapStep(year: nat)
    ensures LeapYearsBefore(year + 1) == LeapYearsBefore(year) + if IsLeapYear(year) then 1 else 0
  {
    Quarter(year);
    Century(year);
    FourCenturies(year);
    Divisors(year);
  }

  lemma {:induction false} DaysInClosedForm(year: nat)
    requires year >= EPOCH_START_YEAR
    ensures DaysBeforeYear(year) == (year - EPOCH_START_YEAR) * 365 + LeapYearsBefore(year)
  {
    if year > EPOCH_START_YEAR {
      DaysInClosedForm(year - 1);
      LeapStep(year - 1);
    }
  }

  /** Counting year by year agrees with the standard's formula. */
  lemma SecondsArePosix(d: Date)
    requires d.month <= 13 && d.year >= EPOCH_START_YEAR
    ensures Seconds(d) == PosixSeconds(d)
  {
    DaysInClosedForm(d.year);
    MonthsByFormula(IsLeapYear(d.year), d.month);
    hide DaysByFormula, DaysBeforeYear, DaysBeforeMonth;
  }

  // --- Order and uniqueness --------------------------------------------------------------------

  /** A date and time of day that exists in the Gregorian calendar from the epoch on. */
  predicate Real(d: Date) {
    d.year >= EPOCH_START_YEAR && 1 <= d.month <= 12
    && 1 <= d.day <= DaysPerMonth(IsLeapYear(d.year), d.month)
    && d.hour < 24 && d.minute < 60 && d.second < 60
  }

  /** Lexicographic order of year, month, day, hour, minute, second. */
  predicate Before(a: Date, b: Date) {
    if a.year != b.year then a.year < b.year
    else if a.month != b.month then a.month < b.month
    else if a.day != b.day then a.day < b.day
    else if a.hour != b.hour then a.hour < b.hour
    else if a.minute != b.minute then a.minute < b.minute
    else a.second < b.second
  }

  predicate SameMoment(a: Date, b: Date) {
    a == b.(weekday := a.weekday)
  }

  lemma {:induction false} YearsPileUp(y: nat, z: nat)
    requires EPOCH_START_YEAR <= y < z
    ensures DaysBeforeYear(y) + DaysPerYear(y) <= DaysBeforeYear(z)
  {
    if z > y + 1 {
      YearsPileUp(y, z - 1);
    }
  }

  lemma {:induction false} MonthsPileUp(leap: bool, m: nat, n: nat)
    requires 1 <= m < n <= 13
    ensures DaysBeforeMonth(leap, m) + DaysPerMonth(leap, m) <= DaysBeforeMonth(leap, n)
  {
    if n > m + 1 {
      MonthsPileUp(leap, m, n - 1);
    }
  }

  lemma MonthsFillTheYear(year: nat)
    ensures DaysBeforeMonth(IsLeapYear(year), 13) == DaysPerYear(year)
  {
    var leap := IsLeapYear(year);
    assert DaysBeforeMonth(leap, 2) == 31;
    assert DaysBeforeMonth(leap, 3) == 59 + if leap then 1 else 0;
    assert DaysBeforeMonth(leap, 5) == 120 + if leap then 1 else 0;
    assert DaysBeforeMonth(leap, 7) == 181 + if leap then 1 else 0;
    assert DaysBeforeMonth(leap, 9) == 243 + if leap then 1 else 0;
    assert DaysBeforeMonth(leap, 11) == 304 + if leap then 1 else 0;
  }

  lemma DayInYear(d: Date)
    requires Real(d)
    ensures 0 <= DayOfYear(d) < DaysPerYear(d.year)
  {
    MonthsFillTheYear(d.year);
    MonthsPileUp(IsLeapYear(d.year), d.month, 13);
  }

  lemma SecondInDay(d: Date)
    requires Real(d)
    ensures 0 <= SecondOfDay(d) < SECONDS_PER_DAY
  {
  }

  function DayNumber(d: Date): int
    requires d.month <= 13
  {
    DaysBeforeYear(d.year) + DayOfYear(d)
  }

  lemma EarlierDay(a: Date, b: Date)
    requires Real(a) && Real(b)
    requires a.year < b.year || (a.year == b.year && (a.month < b.month || (a.month == b.month && a.day < b.day)))
    ensures DayNumber(a) < DayNumber(b)
  {
    if a.year < b.year {
      YearsPileUp(a.year, b.year);
      DayInYear(a);
      DayInYear(b);
    } else if a.month < b.month {
      MonthsPileUp(IsLeapYear(a.year), a.month, b.month);
    }
  }

  lemma EarlierIsSmaller(a: Date, b: Date)
    requires Real(a) && Real(b) && Before(a, b)
    ensures Seconds(a) < Seconds(b)
  {
    SecondInDay(a);
    SecondInDay(b);
    if a.year == b.year && a.month == b.month && a.day == b.day {
    } else {
      EarlierDay(a, b);
    }
  }

  /** Lexicographic order of real dates is the order of their timestamps. */
  lemma OrderAgrees(a: Date, b: Date)
    requires Real(a) && Real(b)
    ensures Before(a, b) <==> Seconds(a) < Seconds(b)
    ensures SameMoment(a, b) <==> Seconds(a) == Seconds(b)
  {
    if Before(a, b) {
      EarlierIsSmaller(a, b);
    } else if Before(b, a) {
      EarlierIsSmaller(b, a);
    }
  }

  // --- The conversions -------------------------------------------------------------------------

  function LeapYears(year: nat): nat {
    if year <= EPOCH_START_YEAR then 0 else LeapYears(year - 1) + if IsLeapYear(year - 1) then 1 else 0
  }

  function CommonYears(year: nat): nat {
    if year <= EPOCH_START_YEAR then 0 else CommonYears(year - 1) + if IsLeapYear(year - 1) then 0 else 1
  }

  lemma YearCounted(year: nat)
    requires year >= EPOCH_START_YEAR
    ensures LeapYears(year + 1) == LeapYears(year) + if IsLeapYear(year) then 1 else 0
    ensures CommonYears(year + 1) == CommonYears(year) + if IsLeapYear(year) then 0 else 1
  {
  }

  lemma {:induction false} YearsSplit(year: nat)
    ensures DaysBeforeYear(year) == CommonYears(year) * 365 + LeapYears(year) * 366
    ensures year >= EPOCH_START_YEAR ==> CommonYears(year) + LeapYears(year) == year - EPOCH_START_YEAR
  {
    if year > EPOCH_START_YEAR {
      YearsSplit(year - 1);
    }
  }

  lemma {:induction false} LeapYearsInClosedForm(year: nat)
    requires year >= EPOCH_START_YEAR
    ensures LeapYears(year) == LeapYearsBefore(year)
  {
    if year > EPOCH_START_YEAR {
      LeapYearsInClosedForm(year - 1);
      LeapStep(year - 1);
    }
  }

  lemma {:induction false} CommonYearsGrow(y: nat, z: nat)
    requires y <= z
    ensures CommonYears(y) <= CommonYears(z)
    ensures LeapYears(y) <= LeapYears(z)
  {
    if y < z {
      CommonYearsGrow(y, z - 1);
    }
  }

  /** The last year whose count of common years fits the eight-bit counter. */
  const LAST_EXACT_YEAR: nat := 2306

  lemma CountersFit(year: nat)
    requires year <= LAST_EXACT_YEAR
    ensures CommonYears(year) < 256 && LeapYears(year) < 256
  {
    hide CommonYears, LeapYears, DaysBeforeYear;
    YearsSplit(LAST_EXACT_YEAR);
    LeapYearsInClosedForm(LAST_EXACT_YEAR);
    CommonYearsGrow(year, LAST_EXACT_YEAR);
  }

  lemma CounterOverflows(year: nat)
    requires LAST_EXACT_YEAR < year <= 0xFFFF
    ensures 256 <= CommonYears(year) < 65536
    ensures LeapYears(year) < 16384
  {
    hide CommonYears, LeapYears, DaysBeforeYear;
    YearsSplit(LAST_EXACT_YEAR + 1);
    LeapYearsInClosedForm(LAST_EXACT_YEAR + 1);
    CommonYearsGrow(LAST_EXACT_YEAR + 1, year);
    YearsSplit(0xFFFF);
    LeapYearsInClosedForm(0xFFFF);
    CommonYearsGrow(year, 0xFFFF);
  }

  /** What is lost when both counters are reduced modulo 256, in units of 256 days. */
  function LostDays(year: nat): nat {
    (CommonYears(year) / 256) * 365 + (LeapYears(year) / 256) * 366
  }

  /** 675 has the inverse 114955 modulo 2^17. */
  lemma CancelOddFactor(x: int, k: int)
    requires 675 * x == 131072 * k
    ensures x % 131072 == 0
  {
    assert x == 131072 * (114955 * k - 592 * x);
  }

  lemma SameRemainder(a: int, b: int)
    requires a % WRAP == b % WRAP
    ensures a - b == (a / WRAP - b / WRAP) * WRAP
  {
  }

  /** 2^17 does not divide `lost`, so 256 * `lost` days are no multiple of 2^32 seconds. */
  lemma NotAWholeWrap(exact: int, counted: int, lost: int)
    requires exact - counted == lost * 256 * SECONDS_PER_DAY
    requires 0 < lost < 131072
    ensures exact % WRAP != counted % WRAP
  {
    if exact % WRAP == counted % WRAP {
      SameRemainder(exact, counted);
      CancelOddFactor(lost, exact / WRAP - counted / WRAP);
      assert false;
    }
  }

  /** The day count the code arrives at: its year counters are single bytes. */
  function CountedDays(year: nat): nat {
    (CommonYears(year) % 256) * 365 + (LeapYears(year) % 256) * 366
  }

  function CountedSeconds(d: Date): int
    requires d.month <= 13
  {
    (CountedDays(d.year) + DayOfYear(d)) * SECONDS_PER_DAY + SecondOfDay(d)
  }

  function Timestamp(d: Date): nat
    requires d.month <= 13
  {
    CountedSeconds(d) % WRAP
  }

  lemma WhatIsLost(d: Date)
    requires d.month <= 13
    ensures Seconds(d) - CountedSeconds(d) == LostDays(d.year) * 256 * SECONDS_PER_DAY
  {
    YearsSplit(d.year);
  }

  lemma LostBounds(year: nat)
    requires year <= 0xFFFF
    ensures year <= LAST_EXACT_YEAR ==> LostDays(year) == 0
    ensures year > LAST_EXACT_YEAR ==> 0 < LostDays(year) < 131072
  {
    if year <= LAST_EXACT_YEAR {
      CountersFit(year);
    } else {
      CounterOverflows(year);
    }
  }

  /** The result is the POSIX value modulo 2^32 exactly up to the year 2306. */
  lemma ExactIffCountersFit(d: Date)
    requires EPOCH_START_YEAR <= d.year <= 0xFFFF && d.month <= 13
    ensures Timestamp(d) == PosixSeconds(d) % WRAP <==> d.year <= LAST_EXACT_YEAR
  {
    SecondsArePosix(d);
    WhatIsLost(d);
    LostBounds(d.year);
    if d.year > LAST_EXACT_YEAR {
      NotAWholeWrap(Seconds(d), CountedSeconds(d), LostDays(d.year));
    }
  }

  lemma CountedExactly(year: nat)
    requires year <= LAST_EXACT_YEAR
    ensures CountedDays(year) == DaysBeforeYear(year)
  {
    CountersFit(year);
    YearsSplit(year);
    ByteHolds(CommonYears(year));
    ByteHolds(LeapYears(year));
  }

  lemma ByteHolds(n: nat)
    requires n < 256
    ensures n % 256 == n
  {
  }

  lemma DaysBeforeOverflow()
    ensures DaysBeforeYear(2038) == 24837 && DaysBeforeYear(2039) == 25202
  {
    hide DaysBeforeYear;
    DaysInClosedForm(2038);
    DaysInClosedForm(2039);
  }

  lemma ProductWhileExact(year: nat)
    requires EPOCH_START_YEAR <= year <= LAST_EXACT_YEAR
    ensures CountedDays(year) * SECONDS_PER_DAY <= 0x7FFF_FFFF <==> year <= 2038
  {
    CountedExactly(year);
    DaysBeforeOverflow();
    if year < 2038 {
      YearsPileUp(year, 2038);
    } else if year > 2039 {
      YearsPileUp(2039, year);
    }
  }

  /** The days that two byte counters make of the years since 1970, from the year alone. */
  function WrappedDays(year: nat): nat {
    var leapYears := LeapYearsBefore(year);
    ((year - EPOCH_START_YEAR - leapYears) % 256) * 365 + (leapYears % 256) * 366
  }

  lemma CountedIsWrapped(year: nat)
    requires year >= EPOCH_START_YEAR
    ensures CountedDays(year) == WrappedDays(year)
  {
    hide CommonYears, LeapYears, DaysBeforeYear;
    YearsSplit(year);
    LeapYearsInClosedForm(year);
  }

  /** The product is computed in a signed 32-bit int: which years it holds, before and after the byte counters wrap. */
  lemma SignedProductFitsIff(year: nat)
    ensures CountedDays(year) * SECONDS_PER_DAY <= 0x7FFF_FFFF <==>
            year <= 2038 || (year > LAST_EXACT_YEAR && WrappedDays(year) <= 24855)
  {
    hide CommonYears, LeapYears;
    if year <= EPOCH_START_YEAR {
      NothingCounted(year);
    } else if year <= LAST_EXACT_YEAR {
      ProductWhileExact(year);
    } else {
      CountedIsWrapped(year);
    }
  }

  lemma NothingCounted(year: nat)
    requires year <= EPOCH_START_YEAR
    ensures CountedDays(year) == 0
  {
  }

  /** Beyond 2306 the byte counters wrap and the product can be in range again, as in the year 3025. */
  lemma SignedProductFitsAgain()
    ensures CountedDays(3025) == 31 * 365 && CountedDays(3025) * SECONDS_PER_DAY <= 0x7FFF_FFFF
  {
    hide CommonYears, LeapYears, DaysBeforeYear;
    YearsSplit(3025);
    LeapYearsInClosedForm(3025);
  }

  lemma ByteSteps(n: nat)
    ensures (n % 256 + 1) % 256 == (n + 1) % 256
  {
  }

  method CountYears(year: nat) returns (years: nat, leapYears: nat)
    requires year <= 0xFFFF
    ensures years == CommonYears(year) % 256 && leapYears == LeapYears(year) % 256
  {
    years, leapYears := 0, 0;
    var y := EPOCH_START_YEAR;
    while y < year
      invariant EPOCH_START_YEAR <= y && (y <= year || y == EPOCH_START_YEAR)
      invariant years == CommonYears(y) % 256 && leapYears == LeapYears(y) % 256
    {
      YearCounted(y);
      ByteSteps(CommonYears(y));
      ByteSteps(LeapYears(y));
      if IsLeapYear(y) {
        leapYears := (leapYears + 1) % 256;
      } else {
        years := (years + 1) % 256;
      }
      y := y + 1;
    }
  }

  /** Days are added one month at a time to a 32-bit sum. */
  method AddMonths(timestamp: nat, leap: bool, month: nat) returns (sum: nat)
    requires month <= 13
    ensures sum == (timestamp + DaysBeforeMonth(leap, month) * SECONDS_PER_DAY) % WRAP
  {
    sum := timestamp % WRAP;
    var m := 1;
    while m < month
      invariant 1 <= m && (m <= month || m == 1)
      invariant sum == (timestamp + DaysBeforeMonth(leap, m) * SECONDS_PER_DAY) % WRAP
    {
      ModuloSum(timestamp + DaysBeforeMonth(leap, m) * SECONDS_PER_DAY, DaysPerMonth(leap, m) * SECONDS_PER_DAY);
      sum := (sum + DaysPerMonth(leap, m) * SECONDS_PER_DAY) % WRAP;
      m := m + 1;
    }
  }

  lemma ModuloSum(a: int, b: int)
    ensures (a % WRAP + b) % WRAP == (a + b) % WRAP
  {
  }

  /** Date and time of day beyond the months, added to a 32-bit sum in four steps. */
  method AddDayAndTime(timestamp: nat, d: Date, ghost before: int) returns (sum: nat)
    requires timestamp == before % WRAP
    ensures sum == (before + (d.day - 1) * SECONDS_PER_DAY + SecondOfDay(d)) % WRAP
  {
    var days, hours, minutes := (d.day - 1) * SECONDS_PER_DAY, d.hour * 3600, d.minute * 60;
    ModuloSum(before, days);
    sum := (timestamp + days) % WRAP;
    ModuloSum(before + days, hours);
    sum := (sum + hours) % WRAP;
    ModuloSum(before + days + hours, minutes);
    sum := (sum + minutes) % WRAP;
    ModuloSum(before + days + hours + minutes, d.second);
    sum := (sum + d.second) % WRAP;
  }

  lemma CountedInParts(d: Date)
    requires d.month <= 13
    ensures CountedSeconds(d) == CountedDays(d.year) * SECONDS_PER_DAY + DaysBeforeMonth(IsLeapYear(d.year), d.month) * SECONDS_PER_DAY
                                 + (d.day - 1) * SECONDS_PER_DAY + SecondOfDay(d)
  {
  }

  method ToTimestamp(d: Date) returns (timestamp: nat)
    requires d.year <= 0xFFFF && d.month <= 13
    ensures timestamp == Timestamp(d)
    ensures EPOCH_START_YEAR <= d.year <= LAST_EXACT_YEAR ==> timestamp == PosixSeconds(d) % WRAP
  {
    var years, leapYears := CountYears(d.year);
    var start := ((years * 365 + leapYears * 366) * SECONDS_PER_DAY) % WRAP;
    var leap := IsLeapYear(d.year);
    hide DaysBeforeMonth, IsLeapYear, CommonYears, LeapYears, SecondOfDay, CountedSeconds, PosixSeconds;
    timestamp := AddMonths(start, leap, d.month);
    ghost var years', months := CountedDays(d.year) * SECONDS_PER_DAY, DaysBeforeMonth(leap, d.month) * SECONDS_PER_DAY;
    ModuloSum(years', months);
    timestamp := AddDayAndTime(timestamp, d, years' + months);
    CountedInParts(d);
    if EPOCH_START_YEAR <= d.year {
      ExactIffCountersFit(d);
    }
  }

  /** Year and remaining days of a day number. */
  method SplitYear(total: nat) returns (year: nat, days: nat)
    ensures year >= EPOCH_START_YEAR && days < DaysPerYear(year)
    ensures DaysBeforeYear(year) + days == total
  {
    year, days := EPOCH_START_YEAR, total;
    while days >= DaysPerYear(year)
      invariant year >= EPOCH_START_YEAR
      invariant DaysBeforeYear(year) + days == total
    {
      days := days - DaysPerYear(year);
      year := year + 1;
    }
  }

  method SplitMonth(year: nat, total: nat) returns (month: nat, days: nat)
    requires total < DaysPerYear(year)
    ensures 1 <= month <= 12 && days < DaysPerMonth(IsLeapYear(year), month)
    ensures DaysBeforeMonth(IsLeapYear(year), month) + days == total
  {
    month, days := 1, total;
    MonthsFillTheYear(year);
    while days >= DaysPerMonth(IsLeapYear(year), month)
      invariant 1 <= month <= 12
      invariant DaysBeforeMonth(IsLeapYear(year), month) + days == total
    {
      days := days - DaysPerMonth(IsLeapYear(year), month);
      month := month + 1;
    }
  }

  lemma YearBound(d: Date)
    requires Real(d) && Seconds(d) < WRAP
    ensures d.year <= 2106
  {
    DayInYear(d);
    if d.year > 2106 {
      YearsPileUp(2106, d.year);
      DaysInClosedForm(2106);
    }
  }

  /** Day of the week of a day number, Monday being 1: the epoch is a Thursday and each day follows the one before. */
  function Weekday(days: nat): (w: nat)
    ensures 1 <= w <= 7
  {
    if days == 0 then 4
    else
      var yesterday := Weekday(days - 1);
      if yesterday == 7 then 1 else yesterday + 1
  }

  lemma {:induction false} WeekdayInClosedForm(days: nat)
    ensures Weekday(days) == (days + 3) % 7 + 1
  {
    if days > 0 {
      WeekdayInClosedForm(days - 1);
    }
  }

  /** Days of the Gregorian calendar, carried back before its introduction, since 1 January of year 1. */
  function DaysSinceYearOne(d: Date): int {
    (d.year - 1) * 365 + (d.year - 1) / 4 - (d.year - 1) / 100 + (d.year - 1) / 400
    + DaysByFormula(IsLeapYear(d.year), d.month) + d.day - 1
  }

  lemma YearsSinceOne(year: int)
    ensures (year - 1) * 365 + (year - 1) / 4 - (year - 1) / 100 + (year - 1) / 400 ==
            (year - EPOCH_START_YEAR) * 365 + LeapYearsBefore(year) + 719162
  {
    assert (year - 1) / 4 == (year - 1969) / 4 + 492;
    assert (year - 1) / 100 == (year - 1901) / 100 + 19;
    assert (year - 1) / 400 == (year - 1601) / 400 + 4;
  }

  lemma SameWeekday(days: int)
    ensures (days + 719162) % 7 == (days + 3) % 7
  {
  }

  lemma DaysSinceEpoch(d: Date)
    requires d.month <= 13 && d.year >= EPOCH_START_YEAR
    ensures DaysSinceYearOne(d) == DayNumber(d) + 719162
  {
    YearsSinceOne(d.year);
    DaysInClosedForm(d.year);
    MonthsByFormula(IsLeapYear(d.year), d.month);
    hide DaysByFormula, DaysBeforeYear, DaysBeforeMonth, IsLeapYear, LeapYearsBefore;
  }

  /** The day of the week is that of the Gregorian calendar, whose year 1 began on a Monday. */
  lemma WeekdayIsGregorian(d: Date)
    requires Real(d)
    ensures DayNumber(d) >= 0 && Weekday(DayNumber(d)) == DaysSinceYearOne(d) % 7 + 1
  {
    hide DaysSinceYearOne, DaysBeforeYear, DaysBeforeMonth, Weekday, IsLeapYear;
    DayInYear(d);
    DaysSinceEpoch(d);
    WeekdayInClosedForm(DayNumber(d));
    SameWeekday(DayNumber(d));
  }

  /** The one real moment that many seconds after the epoch, and its day of the week. */
  method FromTimestamp(timestamp: nat) returns (d: Date)
    requires timestamp < WRAP
    ensures Real(d) && d.year <= 2106 && Seconds(d) == timestamp
    ensures d.weekday == Weekday(DayNumber(d))
  {
    var days, secondsInDay := timestamp / SECONDS_PER_DAY, timestamp % SECONDS_PER_DAY;
    var weekday := (days + 3) % 7 + 1;
    WeekdayInClosedForm(days);
    var year, dayOfYear := SplitYear(days);
    var month, dayOfMonth := SplitMonth(year, dayOfYear);
    d := Date(secondsInDay / 3600, (secondsInDay % 3600) / 60, secondsInDay % 60, dayOfMonth + 1, month, year, weekday);
    assert SecondOfDay(d) == secondsInDay by { Clock(secondsInDay); }
    YearBound(d);
  }

  lemma Clock(s: nat)
    ensures (s / 3600) * 3600 + ((s % 3600) / 60) * 60 + s % 60 == s
  {
    assert s % 60 == (s % 3600) % 60;
  }

  /** On a real date the timestamp can hold, it is the number of seconds. */
  lemma HeldExactly(d: Date)
    requires Real(d) && Seconds(d) < WRAP
    ensures EPOCH_START_YEAR <= d.year <= 2106 && 1 <= d.month <= 12 && 0 <= Seconds(d) && Timestamp(d) == Seconds(d)
  {
    DayInYear(d);
    YearBound(d);
    SecondsArePosix(d);
    ExactIffCountersFit(d);
    SmallRemainder(Seconds(d));
  }

  lemma SmallRemainder(x: int)
    requires 0 <= x < WRAP
    ensures x % WRAP == x
  {
  }

  /** Timestamp to date to timestamp is the identity. */
  method TimestampRoundTrip(timestamp: nat) returns (d: Date, back: nat)
    requires timestamp < WRAP
    ensures Real(d) && back == timestamp
  {
    hide Real, Seconds, PosixSeconds, Timestamp;
    d := FromTimestamp(timestamp);
    HeldExactly(d);
    back := ToTimestamp(d);
  }

  /** Date to timestamp to date is the identity on every real date the timestamp can hold. */
  method DateRoundTrip(d: Date) returns (timestamp: nat, back: Date)
    requires Real(d) && Seconds(d) < WRAP
    ensures timestamp == Seconds(d)
    ensures SameMoment(back, d)
  {
    hide Real, Seconds, PosixSeconds, Timestamp, Before, SameMoment;
    HeldExactly(d);
    timestamp := ToTimestamp(d);
    back := FromTimestamp(timestamp);
    HeldExactly(back);
    OrderAgrees(back, d);
  }
}
