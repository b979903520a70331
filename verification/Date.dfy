/**
 The Gregorian calendar of `muduo::Date`: the closed-form Julian day number and its inverse,
 proved against the calendar's own rules (month lengths, the 4/100/400 leap rule, "tomorrow").
 */
module Dates {
  import opened CInt

  datatype Date = Date(year: int, month: int, day: int)

  // ---------- The calendar, independently of any formula ----------

  predicate IsLeap(year: int) {
    year % 4 == 0 && (year % 100 != 0 || year % 400 == 0)
  }

  function DaysInMonth(year: int, month: int): (n: nat) {
    if month == 2 then (if IsLeap(year) then 29 else 28)
    else if month == 4 || month == 6 || month == 9 || month == 11 then 30
    else 31
  }

  predicate Valid(d: Date) {
    1 <= d.month <= 12 && 1 <= d.day <= DaysInMonth(d.year, d.month)
  }

  /** Valid, and not before 1 March -4800, where the shifted year of the formula is not negative. */
  predicate InEra(d: Date) {
    Valid(d) && (d.year > -4800 || (d.year == -4800 && d.month >= 3))
  }

  function NextDay(d: Date): (next: Date)
    requires Valid(d)
    ensures Valid(next)
    ensures Before(d, next)
  {
    if d.day < DaysInMonth(d.year, d.month) then d.(day := d.day + 1)
    else if d.month < 12 then Date(d.year, d.month + 1, 1)
    else Date(d.year + 1, 1, 1)
  }

  predicate Before(a: Date, b: Date) {
    a.year < b.year
    || (a.year == b.year && (a.month < b.month || (a.month == b.month && a.day < b.day)))
  }

  /** Days from 1 January of the date's year, counted month by month. */
  function DayOfYear(d: Date): (n: nat)
    requires Valid(d)
    decreases d.month
  {
    if d.month == 1 then d.day - 1
    else DayOfYear(Date(d.year, d.month - 1, 1)) + DaysInMonth(d.year, d.month - 1) + d.day - 1
  }

  // ---------- The program ----------

  const JULIAN_DAY_OF_1970_01_01: int := 2440588
  const FIRST_JULIAN_DAY: int := -32044
  /** The largest day number for which `4 * a + 3` still fits an int. */
  const LAST_JULIAN_DAY: int := 536838867

  function JulianDayNumber(year: int, month: int, day: int): int {
    var a := Quot(14 - month, 12);
    var y := year + 4800 - a;
    var m := month + 12 * a - 3;
    day + Quot(153 * m + 2, 5) + y * 365 + Quot(y, 4) - Quot(y, 100) + Quot(y, 400) - 32045
  }

  function FromJulianDay(julianDayNumber: int): Date {
    var a := julianDayNumber + 32044;
    var b := Quot(4 * a + 3, 146097);
    var c := a - Quot(b * 146097, 4);
    var d := Quot(4 * c + 3, 1461);
    var e := c - Quot(1461 * d, 4);
    var m := Quot(5 * e + 2, 153);
    Date(b * 100 + d - 4800 + Quot(m, 10), m + 3 - 12 * Quot(m, 10), e - Quot(153 * m + 2, 5) + 1)
  }

  function DayNumber(d: Date): int {
    JulianDayNumber(d.year, d.month, d.day)
  }

  function WeekDay(julianDayNumber: int): int {
    Rem(julianDayNumber + 1, 7)
  }

  // ---------- Years that begin in March ----------

  /** Days before 1 March of shifted year `y`, from 1 March of shifted year 0. */
  function YearStart(y: nat): int {
    365 * y + y / 4 - y / 100 + y / 400
  }

  /** Days before the `m`-th month of a year that begins in March. */
  function MonthStart(m: nat): int {
    (153 * m + 2) / 5
  }

  function ShiftedYear(d: Date): int {
    if d.month <= 2 then d.year + 4799 else d.year + 4800
  }

  function ShiftedMonth(d: Date): int {
    if d.month <= 2 then d.month + 9 else d.month - 3
  }

  /** Days from the start of the era, for a date given by its March year. */
  function EraDay(d: Date): int
    requires InEra(d)
  {
    YearStart(ShiftedYear(d)) + MonthStart(ShiftedMonth(d)) + d.day - 1
  }

  lemma DayNumberShifted(d: Date)
    requires InEra(d)
    ensures DayNumber(d) == EraDay(d) - 32044
  {
    assert Quot(14 - d.month, 12) == if d.month <= 2 then 1 else 0;
  }

  lemma Fourth(y: nat)
    ensures (y + 1) / 4 == y / 4 + if (y + 1) % 4 == 0 then 1 else 0
  {
  }

  lemma Hundredth(y: nat)
    ensures (y + 1) / 100 == y / 100 + if (y + 1) % 100 == 0 then 1 else 0
    ensures (y + 1) % 100 == 0 ==> (y + 1) % 4 == 0
  {
  }

  lemma FourHundredth(y: nat)
    ensures (y + 1) / 400 == y / 400 + if (y + 1) % 400 == 0 then 1 else 0
    ensures (y + 1) % 400 == 0 ==> (y + 1) % 100 == 0
  {
  }

  lemma YearLength(y: nat)
    ensures YearStart(y + 1) - YearStart(y) == if IsLeap(y + 1) then 366 else 365
  {
    Fourth(y);
    Hundredth(y);
    FourHundredth(y);
  }

  lemma YearStartIncreases(y: nat, z: nat)
    requires y < z
    ensures YearStart(y) + 365 <= YearStart(z)
    ensures IsLeap(y + 1) ==> YearStart(y) + 366 <= YearStart(z)
    decreases z - y
  {
    YearLength(y);
    hide YearStart, IsLeap;
    if y + 1 < z {
      YearStartIncreases(y + 1, z);
    }
  }

  /** Days before the `b`-th century, and before the `k`-th year of a century. */
  function CenturyStart(b: nat): nat {
    146097 * b / 4
  }

  function YearOfCenturyStart(k: nat): nat {
    1461 * k / 4
  }

  /** The century of a day of the era, the year of a day of a century, and the month of a day of a year. */
  function CenturyAt(day: nat): nat {
    (4 * day + 3) / 146097
  }

  function YearAt(day: nat): nat {
    (4 * day + 3) / 1461
  }

  function MonthAt(day: nat): nat {
    (5 * day + 2) / 153
  }

  lemma Starts(n: nat)
    ensures CenturyStart(n) == 36524 * n + n / 4
    ensures YearOfCenturyStart(n) == 365 * n + n / 4
  {
  }

  /** A shifted year is century `b`, year `k` of that century: the two divisions by 4 separate. */
  lemma YearSplit(b: nat, k: nat)
    requires k < 100
    ensures YearStart(100 * b + k) == CenturyStart(b) + YearOfCenturyStart(k)
  {
    Starts(b);
    Starts(k);
    hide CenturyStart, YearOfCenturyStart;
    var y := 100 * b + k;
    assert y / 100 == b;
    assert y / 4 == 25 * b + k / 4;
    assert y / 400 == b / 4;
  }

  /** `(4x + 3) / P` recovers `k` from `x = floor(P k / 4) + r` when `P` is 1 modulo 4. */
  lemma CenturyOf(k: nat, r: nat)
    requires r < 36524 || (r == 36524 && k % 4 == 3)
    ensures CenturyAt(CenturyStart(k) + r) == k
  {
    Starts(k);
    hide CenturyStart;
    var x := CenturyStart(k) + r;
    assert 146097 * k <= 4 * x + 3 < 146097 * (k + 1);
  }

  lemma YearOf(k: nat, r: nat)
    requires r < 365 || (r == 365 && k % 4 == 3)
    ensures YearAt(YearOfCenturyStart(k) + r) == k
  {
    Starts(k);
    hide YearOfCenturyStart;
    var x := YearOfCenturyStart(k) + r;
    assert 1461 * k <= 4 * x + 3 < 1461 * (k + 1);
  }

  /** Months have the calendar's lengths, the last one, February, aside. */
  lemma MonthLength(m: nat)
    requires m < 11
    ensures MonthStart(m + 1) - MonthStart(m) == if m == 1 || m == 3 || m == 6 || m == 8 then 30 else 31
  {
  }

  lemma MonthOf(m: nat, day: nat)
    requires m <= 11 && 1 <= day
    requires m < 11 ==> day <= MonthStart(m + 1) - MonthStart(m)
    requires m == 11 ==> day <= 29
    ensures MonthStart(m) + day - 1 >= 0 && MonthAt(MonthStart(m) + day - 1) == m
  {
  }

  /** The day of the month bounds the day of the March year. */
  lemma DayWithinYear(d: Date)
    requires InEra(d)
    ensures var m := ShiftedMonth(d);
            && (m < 11 ==> d.day <= MonthStart(m + 1) - MonthStart(m))
            && (m == 11 ==> d.day <= 29 && (d.day == 29 ==> IsLeap(ShiftedYear(d) + 1)))
  {
    if ShiftedMonth(d) < 11 {
      MonthLength(ShiftedMonth(d));
      hide IsLeap;
    } else {
      LeapShifted(d.year);
      hide IsLeap;
    }
    hide MonthStart;
  }

  lemma Shift4(x: int, q: int)
    ensures (x + 4 * q) % 4 == x % 4
  {
  }

  lemma Shift100(x: int, q: int)
    ensures (x + 100 * q) % 100 == x % 100
  {
  }

  lemma Shift400(x: int, q: int)
    ensures (x + 400 * q) % 400 == x % 400
  {
  }

  lemma LeapShifted(year: int)
    ensures IsLeap(year + 4800) <==> IsLeap(year)
  {
    Shift4(year, 1200);
    Shift100(year, 48);
    Shift400(year, 12);
  }

  // ---------- Main results ----------

  /** The day number obeys the calendar: tomorrow's is one more. */
  lemma NextDayNumber(d: Date)
    requires InEra(d)
    ensures InEra(NextDay(d))
    ensures DayNumber(NextDay(d)) == DayNumber(d) + 1
  {
    NextEraDay(d);
    DayNumberShifted(d);
    DayNumberShifted(NextDay(d));
  }

  lemma NextEraDay(d: Date)
    requires InEra(d)
    ensures InEra(NextDay(d)) && EraDay(NextDay(d)) == EraDay(d) + 1
  {
    if d.month == 2 {
      hide YearStart, IsLeap;
      YearLength(ShiftedYear(d));
      LeapShifted(d.year);
    } else {
      hide YearStart, IsLeap, MonthStart;
      MonthLength(ShiftedMonth(d));
    }
  }

  /** Converting a calendar date to its day number and back gives the date. */
  lemma DateRoundTrip(d: Date)
    requires InEra(d)
    ensures FromJulianDay(DayNumber(d)) == d
  {
    DayNumberShifted(d);
    FromEraDay(d);
  }

  lemma FromEraDay(d: Date)
    requires InEra(d)
    ensures FromJulianDay(EraDay(d) - 32044) == d
  {
    hide FromJulianDay;
    var b, k, m := ShiftedYear(d) / 100, ShiftedYear(d) % 100, ShiftedMonth(d);
    assert ShiftedYear(d) == 100 * b + k;
    DayWithinYear(d);
    YearSplit(b, k);
    hide YearStart, MonthStart, CenturyStart, YearOfCenturyStart, IsLeap, DaysInMonth;
    FromParts(b, k, m, d.day);
  }

  /** The inverse recovers century, year of the century, month and day, one division each. */
  lemma FromParts(b: nat, k: nat, m: nat, day: nat)
    requires k < 100 && m <= 11 && 1 <= day
    requires m < 11 ==> day <= MonthStart(m + 1) - MonthStart(m)
    requires m == 11 ==> day <= 29 && (day == 29 ==> IsLeap(100 * b + k + 1))
    ensures FromJulianDay(CenturyStart(b) + YearOfCenturyStart(k) + MonthStart(m) + day - 1 - 32044)
         == FromFields(b, k, m, day)
  {
    hide MonthStart, CenturyStart, YearOfCenturyStart, CenturyAt, YearAt, MonthAt, IsLeap, FromJulianDay, FromFields;
    MonthOf(m, day);
    WithinYear(m, day, 100 * b + k + 1);
    var e := MonthStart(m) + day - 1;
    var c := YearOfCenturyStart(k) + e;
    DayOfCenturyBound(b, k, e);
    CenturyOf(b, c);
    YearOf(k, e);
    FromStages(CenturyStart(b) + c, b, c, k, e, m);
  }

  lemma WithinYear(m: nat, day: nat, year: nat)
    requires m <= 11 && 1 <= day
    requires m < 11 ==> day <= MonthStart(m + 1) - MonthStart(m)
    requires m == 11 ==> day <= 29 && (day == 29 ==> IsLeap(year))
    ensures var e := MonthStart(m) + day - 1; 0 <= e && (e < 365 || (e == 365 && IsLeap(year)))
  {
    hide IsLeap;
  }

  function FromFields(b: nat, k: nat, m: nat, day: int): Date {
    Date(100 * b + k - 4800 + m / 10, m + 3 - 12 * (m / 10), day)
  }

  lemma FromStages(a: nat, b: nat, c: nat, k: nat, e: nat, m: nat)
    requires b == CenturyAt(a) && c == a - CenturyStart(b)
    requires k == YearAt(c) && e == c - YearOfCenturyStart(k)
    requires m == MonthAt(e)
    ensures FromJulianDay(a - 32044) == FromFields(b, k, m, e - MonthStart(m) + 1)
  {
    hide CenturyStart, YearOfCenturyStart, MonthStart, CenturyAt, YearAt, MonthAt, Quot;
    CenturyStage(a);
    YearStage(c);
    MonthStage(e);
  }

  /** The divisions of the inverse, on days of the era. */
  lemma CenturyStage(a: nat)
    ensures Quot(4 * a + 3, 146097) == CenturyAt(a)
    ensures Quot(CenturyAt(a) * 146097, 4) == CenturyStart(CenturyAt(a))
  {
    QuotNat(4 * a + 3, 146097);
    QuotNat(CenturyAt(a) * 146097, 4);
    hide Quot;
  }

  lemma YearStage(c: nat)
    ensures Quot(4 * c + 3, 1461) == YearAt(c)
    ensures Quot(1461 * YearAt(c), 4) == YearOfCenturyStart(YearAt(c))
  {
    QuotNat(4 * c + 3, 1461);
    QuotNat(1461 * YearAt(c), 4);
    hide Quot;
  }

  lemma MonthStage(e: nat)
    ensures Quot(5 * e + 2, 153) == MonthAt(e)
    ensures Quot(153 * MonthAt(e) + 2, 5) == MonthStart(MonthAt(e)) && Quot(MonthAt(e), 10) == MonthAt(e) / 10
  {
    QuotNat(5 * e + 2, 153);
    QuotNat(153 * MonthAt(e) + 2, 5);
    QuotNat(MonthAt(e), 10);
    hide Quot;
  }

  lemma DayOfCenturyBound(b: nat, k: nat, e: nat)
    requires k < 100 && (e < 365 || (e == 365 && IsLeap(100 * b + k + 1)))
    ensures e == 365 ==> k % 4 == 3
    ensures var c := YearOfCenturyStart(k) + e; c < 36524 || (c == 36524 && b % 4 == 3)
  {
    Starts(k);
    if e == 365 {
      LeapOfCentury(b, k);
    }
    hide YearOfCenturyStart, IsLeap;
  }

  /** A leap day ends year `k` of a century only if `k` leaves 3 modulo 4, the century too for the last year. */
  lemma LeapOfCentury(b: nat, k: nat)
    requires k < 100 && IsLeap(100 * b + k + 1)
    ensures k % 4 == 3 && (k == 99 ==> b % 4 == 3)
  {
    var y := 100 * b + k + 1;
    Shift4(k + 1, 25 * b);
    assert y == k + 1 + 4 * (25 * b);
    if k == 99 {
      assert y == 100 * (b + 1);
      CenturyLeap(b + 1);
    }
    hide IsLeap;
  }

  lemma CenturyLeap(c: nat)
    ensures IsLeap(100 * c) <==> c % 4 == 0
  {
    var q, r := c / 4, c % 4;
    assert 100 * c == 100 * r + 400 * q;
    Shift400(100 * r, q);
    Shift100(0, c);
    Shift4(0, 25 * c);
  }

  /** Every day number from the start of the era on belongs to a calendar date. */
  lemma {:induction false} DayHasDate(n: int) returns (d: Date)
    requires n >= FIRST_JULIAN_DAY
    ensures InEra(d) && DayNumber(d) == n
    decreases n - FIRST_JULIAN_DAY
  {
    if n == FIRST_JULIAN_DAY {
      d := Date(-4800, 3, 1);
    } else {
      var yesterday := DayHasDate(n - 1);
      NextDayNumber(yesterday);
      d := NextDay(yesterday);
    }
  }

  /** Converting a day number to a date gives a calendar date whose day number it is. */
  lemma DayNumberRoundTrip(n: int)
    requires n >= FIRST_JULIAN_DAY
    ensures InEra(FromJulianDay(n))
    ensures DayNumber(FromJulianDay(n)) == n
  {
    var d := DayHasDate(n);
    DateRoundTrip(d);
  }

  /** The order on dates (`operator<` compares day numbers) is the calendar's order. */
  lemma DayNumberOrder(a: Date, b: Date)
    requires InEra(a) && InEra(b)
    ensures DayNumber(a) < DayNumber(b) <==> Before(a, b)
  {
    if Before(a, b) {
      BeforeIsLess(a, b);
    } else if Before(b, a) {
      BeforeIsLess(b, a);
    }
  }

  lemma BeforeIsLess(a: Date, b: Date)
    requires InEra(a) && InEra(b) && Before(a, b)
    ensures DayNumber(a) < DayNumber(b)
  {
    DayNumberShifted(a);
    DayNumberShifted(b);
    DayWithinYear(a);
    var y, z := ShiftedYear(a), ShiftedYear(b);
    if y < z {
      YearStartIncreases(y, z);
      hide YearStart, DayNumber, IsLeap, DaysInMonth;
    } else {
      MonthBeforeMonth(a, b);
      hide YearStart, MonthStart, DayNumber, DaysInMonth;
    }
  }

  /** Within a year that begins in March. */
  lemma MonthBeforeMonth(a: Date, b: Date)
    requires InEra(a) && InEra(b) && Before(a, b) && ShiftedYear(a) >= ShiftedYear(b)
    ensures ShiftedYear(a) == ShiftedYear(b)
    ensures MonthStart(ShiftedMonth(a)) + a.day < MonthStart(ShiftedMonth(b)) + b.day
  {
    DayWithinYear(a);
    hide DaysInMonth, IsLeap;
  }

  /** The era is maximal: one day earlier the day number repeats, since C++ division rounds toward zero. */
  lemma DayNumberRepeatsBeforeEra()
    ensures Valid(Date(-4800, 2, 29)) && NextDay(Date(-4800, 2, 29)) == Date(-4800, 3, 1)
    ensures DayNumber(Date(-4800, 2, 29)) == DayNumber(Date(-4800, 3, 1)) == FIRST_JULIAN_DAY
  {
  }

  /** Before the era the inverse yields no day of a month. */
  lemma BeforeEraNoDay(n: int)
    requires n < FIRST_JULIAN_DAY
    ensures FromJulianDay(n).day <= 0
  {
    var a := n + 32044;
    var b := Quot(4 * a + 3, 146097);
    CenturyBelow(a, b);
    var c := a - Quot(b * 146097, 4);
    var d := Quot(4 * c + 3, 1461);
    YearBelow(c, d);
    var e := c - Quot(1461 * d, 4);
    MonthBelow(e, Quot(5 * e + 2, 153));
  }

  lemma CenturyBelow(a: int, b: int)
    requires a < 0 && b == Quot(4 * a + 3, 146097)
    ensures a - Quot(b * 146097, 4) < 0
  {
    assert -b * 146097 <= -4 * a - 3;
  }

  lemma YearBelow(c: int, d: int)
    requires c < 0 && d == Quot(4 * c + 3, 1461)
    ensures c - Quot(1461 * d, 4) < 0
  {
    assert -d * 1461 <= -4 * c - 3;
  }

  lemma MonthBelow(e: int, m: int)
    requires e < 0 && m == Quot(5 * e + 2, 153)
    ensures e - Quot(153 * m + 2, 5) + 1 <= 0
  {
    assert -m * 153 <= -5 * e - 2;
  }

  /** The round trip holds of a calendar date exactly when it is in the era, so the era is maximal. */
  lemma DateRoundTripIff(d: Date)
    requires Valid(d)
    ensures FromJulianDay(DayNumber(d)) == d <==> InEra(d)
  {
    if InEra(d) {
      DateRoundTrip(d);
    } else if DayNumber(d) >= FIRST_JULIAN_DAY {
      DayNumberRoundTrip(DayNumber(d));
    } else {
      BeforeEraNoDay(DayNumber(d));
    }
    hide FromJulianDay, DayNumber;
  }

  /** Days since 1 January, as the difference of two day numbers, is the calendar's count. */
  lemma {:induction false} DayOfYearByNumbers(d: Date)
    requires Valid(d) && d.year > -4800
    ensures DayNumber(d) - JulianDayNumber(d.year, 1, 1) == DayOfYear(d)
    ensures 0 <= DayOfYear(d) <= 365
    decreases d.month
  {
    DayOfYearBound(d);
    SameMonth(d);
    if d.month > 1 {
      var previous := Date(d.year, d.month - 1, 1);
      var last := previous.(day := DaysInMonth(d.year, d.month - 1));
      DayOfYearByNumbers(previous);
      SameMonth(last);
      NextDayNumber(last);
    }
  }

  lemma SameMonth(d: Date)
    requires InEra(d)
    ensures Valid(d.(day := 1)) && DayNumber(d) == DayNumber(d.(day := 1)) + d.day - 1
  {
  }

  lemma DayOfYearBound(d: Date)
    requires Valid(d)
    ensures DayOfYear(d) <= 365
  {
    if d.month == 1 {
    } else {
      MonthSums(d.year, d.month);
    }
  }

  lemma {:induction false} MonthSums(year: int, month: int)
    requires 1 <= month <= 12
    ensures DayOfYear(Date(year, month, 1)) <= 31 * (month - 1)
    ensures month >= 3 ==> DayOfYear(Date(year, month, 1)) <= 31 * (month - 1) - 2
    ensures month >= 5 ==> DayOfYear(Date(year, month, 1)) <= 31 * (month - 1) - 3
    ensures month >= 7 ==> DayOfYear(Date(year, month, 1)) <= 31 * (month - 1) - 4
    ensures month >= 10 ==> DayOfYear(Date(year, month, 1)) <= 31 * (month - 1) - 5
    ensures month >= 12 ==> DayOfYear(Date(year, month, 1)) <= 31 * (month - 1) - 6
    decreases month
  {
    if month > 1 {
      MonthSums(year, month - 1);
    }
  }

  /** The weekday cycles with the calendar, and is a weekday exactly from day number -1 on or on a Sunday. */
  lemma WeekDayCycles(n: int)
    ensures 0 <= WeekDay(n) <= 6 <==> n >= -1 || (n + 1) % 7 == 0
    ensures n >= -1 ==> WeekDay(n + 1) == if WeekDay(n) == 6 then 0 else WeekDay(n) + 1
  {
    hide WeekDay;
    if n >= -1 {
      WeekDayFrom(n);
      WeekDayFrom(n + 1);
      NextOfSeven(n + 1);
    } else {
      WeekDayBefore(n);
      MultipleOfSeven(-n - 1);
    }
  }

  lemma WeekDayFrom(n: int)
    requires n >= -1
    ensures WeekDay(n) == (n + 1) % 7
  {
  }

  lemma WeekDayBefore(n: int)
    requires n < -1
    ensures WeekDay(n) == -((-n - 1) % 7)
  {
  }

  lemma NextOfSeven(x: nat)
    ensures (x + 1) % 7 == if x % 7 == 6 then 0 else x % 7 + 1
  {
  }

  lemma MultipleOfSeven(x: int)
    ensures x % 7 == 0 <==> -x % 7 == 0
  {
  }

  /** The constant is the day number of 1 January 1970, a Thursday. */
  lemma EpochDay()
    ensures JulianDayNumber(1970, 1, 1) == JULIAN_DAY_OF_1970_01_01 && WeekDay(JULIAN_DAY_OF_1970_01_01) == 4
  {
    DayNumberShifted(Date(1970, 1, 1));
  }

  /** No intermediate result of the inverse overflows an int over the whole day range. */
  lemma NoOverflow(n: int)
    requires FIRST_JULIAN_DAY <= n
    ensures n <= LAST_JULIAN_DAY <==> InInt32(4 * (n + 32044) + 3)
    ensures n <= LAST_JULIAN_DAY ==>
              var a := n + 32044;
              var b := CenturyAt(a);
              var c := a - CenturyStart(b);
              c >= 0 &&
              var d := YearAt(c);
              var e := c - YearOfCenturyStart(d);
              && InInt32(b * 146097) && c <= 36524 && d <= 99 && 0 <= e <= 365
              && InInt32(FromJulianDay(n).year + 4800) && InInt32((FromJulianDay(n).year + 4800) * 365)
  {
    if n <= LAST_JULIAN_DAY {
      hide CenturyAt, YearAt, CenturyStart, YearOfCenturyStart, FromJulianDay;
      var a := n + 32044;
      DayOfCentury(a);
      var c := a - CenturyStart(CenturyAt(a));
      DayOfYear4(c);
      YearFromStages(a, CenturyAt(a), c, YearAt(c), c - YearOfCenturyStart(YearAt(c)));
    }
  }

  lemma YearFromStages(a: nat, b: nat, c: nat, k: nat, e: nat)
    requires b == CenturyAt(a) && c == a - CenturyStart(b)
    requires k == YearAt(c) && e == c - YearOfCenturyStart(k) && e <= 365
    ensures 100 * b + k <= FromJulianDay(a - 32044).year + 4800 <= 100 * b + k + 1
  {
    hide CenturyAt, YearAt, CenturyStart, YearOfCenturyStart, FromJulianDay, MonthAt, MonthStart;
    FromStages(a, b, c, k, e, MonthAt(e));
    MonthInYear(e);
  }

  lemma DayOfCentury(a: nat)
    ensures 0 <= a - CenturyStart(CenturyAt(a)) <= 36524 && CenturyAt(a) * 146097 <= 4 * a + 3
  {
    var b := CenturyAt(a);
    assert 146097 * b <= 4 * a + 3 < 146097 * (b + 1);
    Starts(b);
    hide CenturyAt, CenturyStart;
  }

  lemma DayOfYear4(c: nat)
    requires c <= 36524
    ensures YearAt(c) <= 99 && 0 <= c - YearOfCenturyStart(YearAt(c)) <= 365
  {
    var d := YearAt(c);
    assert 1461 * d <= 4 * c + 3 < 1461 * (d + 1);
    Starts(d);
    hide YearAt, YearOfCenturyStart;
  }

  lemma MonthInYear(e: nat)
    requires e <= 365
    ensures MonthAt(e) <= 11
  {
  }
}
