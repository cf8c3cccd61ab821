/** Gregorian dates as Julian day numbers, and UTC times as seconds since 1970. */
module Calendar {
  import opened Division

  /** C++ division and remainder, which truncate toward zero. */
  function Quo(a: int, b: int): int
    requires b > 0
  {
    if a >= 0 then a / b else -(-a / b)
  }

  function Rem(a: int, b: int): int
    requires b > 0
  {
    a - b * Quo(a, b)
  }

  datatype Ymd = Ymd(year: int, month: int, day: int)

  // ----- the calendar, day by day (section 3.2.1 of ISO 8601:2004) -----

  predicate Leap(year: int) {
    year % 4 == 0 && (year % 100 != 0 || year % 400 == 0)
  }

  function DaysIn(year: int, month: int): int {
    if month == 2 then (if Leap(year) then 29 else 28)
    else if month == 4 || month == 6 || month == 9 || month == 11 then 30
    else 31
  }

  predicate Valid(d: Ymd) {
    1 <= d.month <= 12 && 1 <= d.day <= DaysIn(d.year, d.month)
  }

  function Next(d: Ymd): Ymd {
    if d.day < DaysIn(d.year, d.month) then d.(day := d.day + 1)
    else if d.month < 12 then Ymd(d.year, d.month + 1, 1)
    else Ymd(d.year + 1, 1, 1)
  }

  /** The first day the formulas cover, and its number. */
  const FIRST := Ymd(-4800, 3, 1)
  const FIRST_NUMBER := -32044

  /** The date `n` days after the first. */
  function DateAfter(n: nat): Ymd {
    if n == 0 then FIRST else Next(DateAfter(n - 1))
  }

  predicate Covered(d: Ymd) {
    Valid(d) && (d.year > -4800 || (d.year == -4800 && d.month >= 3))
  }

  // ----- the formulas -----

  function JulianDayNumber(d: Ymd): int {
    var a := Quo(14 - d.month, 12);
    var y := d.year + 4800 - a;
    var m := d.month + 12 * a - 3;
    d.day + Quo(153 * m + 2, 5) + y * 365 + Quo(y, 4) - Quo(y, 100) + Quo(y, 400) - 32045
  }

  function YearMonthDay(julianDayNumber: int): Ymd {
    var a := julianDayNumber + 32044;
    var b := Quo(4 * a + 3, 146097);
    var c := a - Quo(b * 146097, 4);
    var d := Quo(4 * c + 3, 1461);
    var e := c - Quo(1461 * d, 4);
    var m := Quo(5 * e + 2, 153);
    Ymd(b * 100 + d - 4800 + Quo(m, 10), m + 3 - 12 * Quo(m, 10), e - Quo(153 * m + 2, 5) + 1)
  }

  // ----- the numbers count days -----

  lemma NextValid(d: Ymd)
    requires Covered(d)
    ensures Covered(Next(d))
  {
  }

  lemma {:induction false} DateAfterCovered(n: nat)
    ensures Covered(DateAfter(n))
  {
    if n > 0 {
      DateAfterCovered(n - 1);
      NextValid(DateAfter(n - 1));
    }
  }

  /** The year counted from March and the day in it. */
  function MarchYear(d: Ymd): int {
    d.year + 4800 - if d.month <= 2 then 1 else 0
  }

  function MarchMonth(d: Ymd): int {
    if d.month <= 2 then d.month + 9 else d.month - 3
  }

  function DayOfMarchYear(d: Ymd): int {
    d.day - 1 + (153 * MarchMonth(d) + 2) / 5
  }

  function DaysBeforeMarchYear(y: int): int {
    365 * y + y / 4 - y / 100 + y / 400
  }

  lemma NumberByMarch(d: Ymd)
    requires Covered(d)
    ensures MarchYear(d) >= 0 && 0 <= MarchMonth(d) <= 11
    ensures JulianDayNumber(d) == DaysBeforeMarchYear(MarchYear(d)) + DayOfMarchYear(d) - 32044
  {
    assert (14 - d.month) / 12 == if d.month <= 2 then 1 else 0;
  }

  lemma NextMonthDays(d: Ymd)
    requires Covered(d) && d.month != 2 && d.day == DaysIn(d.year, d.month)
    ensures MarchYear(Next(d)) == MarchYear(d) && DayOfMarchYear(Next(d)) == DayOfMarchYear(d) + 1
  {
  }

  lemma YearLength(y: int)
    ensures DaysBeforeMarchYear(y + 1) - DaysBeforeMarchYear(y) == if Leap(y + 1) then 366 else 365
  {
    StepDivision(y, 4);
    StepDivision(y, 100);
    StepDivision(y, 400);
  }

  lemma StepDivision(y: int, d: int)
    requires d > 0
    ensures (y + 1) / d - y / d == if (y + 1) % d == 0 then 1 else 0
  {
    var q, r := y / d, y % d;
    assert y == d * q + r;
    if r + 1 < d {
      QuotientIs(y + 1, d, q, r + 1);
    } else {
      assert y + 1 == d * (q + 1) by { assert d * (q + 1) == d * q + d; }
      QuotientIs(y + 1, d, q + 1, 0);
    }
  }

  lemma LeapShift(year: int)
    ensures Leap(year + 4800) <==> Leap(year)
  {
    QuotientIs(year + 4800, 4, year / 4 + 1200, year % 4);
    QuotientIs(year + 4800, 100, year / 100 + 48, year % 100);
    QuotientIs(year + 4800, 400, year / 400 + 12, year % 400);
  }

  /** The next day has the next number. */
  lemma NextNumber(d: Ymd)
    requires Covered(d)
    ensures JulianDayNumber(Next(d)) == JulianDayNumber(d) + 1
  {
    hide JulianDayNumber, DaysBeforeMarchYear, Leap;
    NextValid(d);
    NumberByMarch(d);
    NumberByMarch(Next(d));
    if d.day == DaysIn(d.year, d.month) {
      if d.month == 2 {
        YearLength(MarchYear(d));
        LeapShift(d.year);
      } else {
        NextMonthDays(d);
      }
    }
  }

  /** From 1 March -4800 on the formula counts days one by one. */
  lemma {:induction false} NumberCountsDays(n: nat)
    ensures JulianDayNumber(DateAfter(n)) == n + FIRST_NUMBER
  {
    hide Next, Covered;
    if n > 0 {
      NumberCountsDays(n - 1);
      DateAfterCovered(n - 1);
      NextNumber(DateAfter(n - 1));
    }
  }

  // ----- the formulas are inverse -----

  lemma CenturySplit(y: nat)
    ensures DaysBeforeMarchYear(y) == 36524 * (y / 100) + (y / 100) / 4 + 365 * (y % 100) + (y % 100) / 4
  {
    var b, d := y / 100, y % 100;
    assert y == 100 * b + d;
    QuotientIs(y, 4, 25 * b + d / 4, d % 4);
    QuotientIs(y, 400, b / 4, 100 * (b % 4) + d);
  }

  /** 29 February ends a March year only if the next calendar year is leap. */
  lemma LastDay(d: Ymd)
    requires Covered(d)
    ensures 0 <= DayOfMarchYear(d) <= 365
    ensures DayOfMarchYear(d) == 365 ==>
      MarchYear(d) % 4 == 3 && (MarchYear(d) % 100 == 99 ==> (MarchYear(d) / 100) % 4 == 3)
  {
    var y := MarchYear(d);
    if DayOfMarchYear(d) == 365 {
      assert d.month == 2 && d.day == 29;
      LeapShift(d.year);
      EndsLeap(y);
    }
  }

  lemma EndsLeap(y: int)
    requires Leap(y + 1)
    ensures y % 4 == 3 && (y % 100 == 99 ==> (y / 100) % 4 == 3)
  {
    QuotientIs(y, 4, (y + 1) / 4 - 1, 3);
    if y % 100 == 99 {
      QuotientIs(y + 1, 100, y / 100 + 1, 0);
      var k := (y + 1) / 400;
      QuotientIs(y, 100, 4 * k - 1, 99);
      QuotientIs(4 * k - 1, 4, k - 1, 3);
    }
  }

  /** The century, the year in it and the day in the year are found again. */
  lemma CenturyFound(b: nat, c: nat)
    requires c <= 36524 && (c == 36524 ==> b % 4 == 3)
    ensures (4 * (36524 * b + b / 4 + c) + 3) / 146097 == b
    ensures (b * 146097) / 4 == 36524 * b + b / 4
  {
    assert b == 4 * (b / 4) + b % 4;
    QuotientIs(b * 146097, 4, 36524 * b + b / 4, b % 4);
    QuotientIs(4 * (36524 * b + b / 4 + c) + 3, 146097, b, 4 * c + 3 - b % 4);
  }

  lemma YearFound(d: nat, e: nat)
    requires e <= 365 && (e == 365 ==> d % 4 == 3)
    ensures (4 * (365 * d + d / 4 + e) + 3) / 1461 == d
    ensures (1461 * d) / 4 == 365 * d + d / 4
  {
    assert d == 4 * (d / 4) + d % 4;
    QuotientIs(1461 * d, 4, 365 * d + d / 4, d % 4);
    QuotientIs(4 * (365 * d + d / 4 + e) + 3, 1461, d, 4 * e + 3 - d % 4);
  }

  lemma MonthFound(d: Ymd)
    requires Covered(d)
    ensures (5 * DayOfMarchYear(d) + 2) / 153 == MarchMonth(d)
  {
    var m := MarchMonth(d);
    var first := (153 * m + 2) / 5;
    var r := 5 * (d.day - 1) - (153 * m + 2) % 5 + 4;
    assert 5 * DayOfMarchYear(d) + 2 == 153 * m + r;
  }

  lemma MarchParts(b: nat, g: nat, e: nat, m: nat)
    requires g <= 99 && e <= 365 && m <= 11
    requires e == 365 ==> g % 4 == 3 && (g == 99 ==> b % 4 == 3)
    requires (5 * e + 2) / 153 == m
    ensures YearMonthDay(36524 * b + b / 4 + 365 * g + g / 4 + e + FIRST_NUMBER)
         == Ymd(100 * b + g - 4800 + m / 10, m + 3 - 12 * (m / 10), e - (153 * m + 2) / 5 + 1)
  {
    hide Quo, YearMonthDay;
    var c := 365 * g + g / 4 + e;
    var a := 36524 * b + b / 4 + c;
    QuoSame(4 * a + 3, 146097);
    CenturyFound(b, c);
    QuoSame(b * 146097, 4);
    QuoSame(4 * c + 3, 1461);
    YearFound(g, e);
    QuoSame(1461 * g, 4);
    QuoSame(5 * e + 2, 153);
    QuoSame(m, 10);
    QuoSame(153 * m + 2, 5);
    Assembled(a, b, c, g, e, m);
  }

  lemma QuoSame(a: nat, b: int)
    requires b > 0
    ensures Quo(a, b) == a / b
  {
  }

  lemma Assembled(a: int, b: int, c: int, d: int, e: int, m: int)
    requires b == Quo(4 * a + 3, 146097) && c == a - Quo(b * 146097, 4)
    requires d == Quo(4 * c + 3, 1461) && e == c - Quo(1461 * d, 4) && m == Quo(5 * e + 2, 153)
    ensures YearMonthDay(a + FIRST_NUMBER)
         == Ymd(b * 100 + d - 4800 + Quo(m, 10), m + 3 - 12 * Quo(m, 10), e - Quo(153 * m + 2, 5) + 1)
  {
    hide Quo;
  }

  lemma YearMonthDayFound(d: Ymd)
    requires Covered(d)
    ensures YearMonthDay(JulianDayNumber(d)) == d
  {
    hide YearMonthDay, JulianDayNumber, DaysBeforeMarchYear, Leap, MarchYear, MarchMonth, DayOfMarchYear;
    NumberByMarch(d);
    LastDay(d);
    var y := MarchYear(d);
    CenturySplit(y);
    CenturyDigits(y);
    MonthFound(d);
    MarchParts(y / 100, y % 100, DayOfMarchYear(d), MarchMonth(d));
    FromMarch(d);
  }

  lemma CenturyDigits(y: nat)
    ensures y == 100 * (y / 100) + y % 100 && (y % 100) % 4 == y % 4
    ensures 0 <= y % 100 <= 99 && y / 100 >= 0
  {
    var b, g := y / 100, y % 100;
    assert y == 100 * b + g;
    QuotientIs(y, 4, 25 * b + g / 4, g % 4);
  }

  lemma FromMarch(d: Ymd)
    requires 1 <= d.month <= 12
    ensures var m := MarchMonth(d);
      d == Ymd(MarchYear(d) - 4800 + m / 10, m + 3 - 12 * (m / 10), DayOfMarchYear(d) - (153 * m + 2) / 5 + 1)
  {
  }

  /** Both directions: from the first day on, the second formula is the day-by-day calendar and
      inverts the first. */
  lemma FormulasInverse(n: nat)
    ensures YearMonthDay(n + FIRST_NUMBER) == DateAfter(n)
    ensures Covered(YearMonthDay(n + FIRST_NUMBER))
    ensures JulianDayNumber(YearMonthDay(n + FIRST_NUMBER)) == n + FIRST_NUMBER
  {
    DateAfterCovered(n);
    NumberCountsDays(n);
    YearMonthDayFound(DateAfter(n));
  }

  /** Every date from the first day on is some number of days after it. */
  lemma EveryDateReached(d: Ymd)
    requires Covered(d)
    ensures JulianDayNumber(d) >= FIRST_NUMBER && DateAfter(JulianDayNumber(d) - FIRST_NUMBER) == d
  {
    hide JulianDayNumber, YearMonthDay, Leap, DaysBeforeMarchYear;
    NumberByMarch(d);
    LastDay(d);
    CenturySplit(MarchYear(d));
    YearMonthDayFound(d);
    FormulasInverse(JulianDayNumber(d) - FIRST_NUMBER);
  }

  // ----- before the first day -----

  /** Truncation rounds a negative quotient up. */
  lemma QuoUp(x: int, b: int)
    requires b > 0 && x <= 0
    ensures x <= b * Quo(x, b) && Quo(x, b) <= 0
  {
    if x < 0 {
      var q := (-x) / b;
      assert b * q <= -x;
      assert b * -q == -(b * q);
    }
  }

  lemma NegativeStep(a: int, period: int)
    requires a < 0 && period > 0
    ensures var q := Quo(4 * a + 3, period); a - Quo(period * q, 4) < 0
  {
    var q := Quo(4 * a + 3, period);
    QuoUp(4 * a + 3, period);
    Multiple(period, q);
    QuoUp(period * q, 4);
  }

  lemma InvalidBefore(julianDayNumber: int)
    requires julianDayNumber < FIRST_NUMBER
    ensures YearMonthDay(julianDayNumber).day <= 0
  {
    hide Quo;
    var a := julianDayNumber + 32044;
    var b := Quo(4 * a + 3, 146097);
    NegativeStep(a, 146097);
    var c := a - Quo(b * 146097, 4);
    var d := Quo(4 * c + 3, 1461);
    NegativeStep(c, 1461);
    var e := c - Quo(1461 * d, 4);
    QuoUp(5 * e + 2, 153);
    var m := Quo(5 * e + 2, 153);
    if m == 0 {
      QuoSame(2, 5);
    } else {
      QuoUp(153 * m + 2, 5);
    }
  }

  /** The second formula gives a valid date exactly from the first day on. */
  lemma ValidIffCovered(julianDayNumber: int)
    ensures Valid(YearMonthDay(julianDayNumber)) <==> julianDayNumber >= FIRST_NUMBER
  {
    hide YearMonthDay;
    if julianDayNumber < FIRST_NUMBER {
      InvalidBefore(julianDayNumber);
    } else {
      FormulasInverse(julianDayNumber - FIRST_NUMBER);
    }
  }

  // ----- the width of int -----

  predicate FitsInt(x: int) {
    -0x8000_0000 <= x < 0x8000_0000
  }

  /** Every intermediate value of the second formula fits an int. */
  predicate FormulaFits(julianDayNumber: int) {
    var a := julianDayNumber + 32044;
    var b := Quo(4 * a + 3, 146097);
    var c := a - Quo(b * 146097, 4);
    var d := Quo(4 * c + 3, 1461);
    var e := c - Quo(1461 * d, 4);
    var m := Quo(5 * e + 2, 153);
    && FitsInt(a) && FitsInt(4 * a) && FitsInt(4 * a + 3) && FitsInt(b * 146097) && FitsInt(c) && FitsInt(4 * c) && FitsInt(4 * c + 3)
    && FitsInt(1461 * d) && FitsInt(e) && FitsInt(5 * e) && FitsInt(5 * e + 2) && FitsInt(153 * m) && FitsInt(153 * m + 2)
    && FitsInt(b * 100) && FitsInt(b * 100 + d - 4800 + Quo(m, 10))
  }

  lemma PositiveStep(a: int, period: int)
    requires a >= 0 && period > 0
    ensures var q := Quo(4 * a + 3, period);
      q >= 0 && 0 <= period * q <= 4 * a + 3 && 0 <= a - Quo(period * q, 4) <= a
  {
    var q := Quo(4 * a + 3, period);
    assert period * q <= 4 * a + 3;
    assert period * q >= 0;
  }

  /** The formula fits an int, for every number, exactly while its first product does. */
  lemma FitsIff(julianDayNumber: int)
    ensures FormulaFits(julianDayNumber) <==> FitsInt(4 * (julianDayNumber + 32044)) && FitsInt(4 * (julianDayNumber + 32044) + 3)
  {
    if julianDayNumber >= FIRST_NUMBER {
      CoveredFitsIff(julianDayNumber);
    } else {
      EarlierFitsIff(julianDayNumber);
    }
  }

  lemma CoveredFitsIff(julianDayNumber: int)
    requires julianDayNumber >= FIRST_NUMBER
    ensures FormulaFits(julianDayNumber) <==> 4 * (julianDayNumber + 32044) + 3 < 0x8000_0000
  {
    var a := julianDayNumber + 32044;
    var b := Quo(4 * a + 3, 146097);
    PositiveStep(a, 146097);
    var c := a - Quo(b * 146097, 4);
    var d := Quo(4 * c + 3, 1461);
    PositiveStep(c, 1461);
    var e := c - Quo(1461 * d, 4);
    if 4 * a + 3 < 0x8000_0000 {
      SmallDay(c, d, e);
      var m := Quo(5 * e + 2, 153);
      assert 0 <= 153 * m <= 5 * e + 2;
    }
  }

  /** Before the first day the quotients go up, so what remains is negative but not far. */
  lemma NegativeRest(a: int, period: int)
    requires a < 0 && period > 0
    ensures var q := Quo(4 * a + 3, period);
      q <= 0 && 4 * a + 3 <= period * q <= 0 && -period <= a - Quo(period * q, 4) < 0
  {
    var q := Quo(4 * a + 3, period);
    NegativeStep(a, period);
    QuoUp(4 * a + 3, period);
    QuoNear(4 * a + 3, period);
    Multiple(period, q);
    QuoUp(period * q, 4);
    QuoNear(period * q, 4);
  }

  lemma QuoNear(x: int, b: int)
    requires b > 0 && x <= 0
    ensures b * Quo(x, b) < x + b
  {
    if x < 0 {
      var q := (-x) / b;
      assert -x == b * q + (-x) % b;
      assert b * -q == -(b * q);
    }
  }

  lemma EarlierFitsIff(julianDayNumber: int)
    requires julianDayNumber < FIRST_NUMBER
    ensures FormulaFits(julianDayNumber) <==> -0x8000_0000 <= 4 * (julianDayNumber + 32044)
  {
    hide Quo;
    var a := julianDayNumber + 32044;
    var b := Quo(4 * a + 3, 146097);
    NegativeRest(a, 146097);
    var c := a - Quo(b * 146097, 4);
    var d := Quo(4 * c + 3, 1461);
    NegativeRest(c, 1461);
    var e := c - Quo(1461 * d, 4);
    var m := Quo(5 * e + 2, 153);
    QuoUp(5 * e + 2, 153);
    QuoNear(5 * e + 2, 153);
    QuoUp(m, 10);
    QuoNear(m, 10);
    QuoNear(4 * a + 3, 146097);
    QuoNear(4 * c + 3, 1461);
  }

  /** The day in the March year is small. */
  lemma SmallDay(c: int, d: int, e: int)
    requires c >= 0 && d == Quo(4 * c + 3, 1461) && e == c - Quo(1461 * d, 4)
    ensures 0 <= e <= 366
  {
    assert 1461 * d <= 4 * c + 3 < 1461 * d + 1461;
    assert 4 * Quo(1461 * d, 4) <= 1461 * d <= 4 * Quo(1461 * d, 4) + 3;
  }

  // ----- days of the week -----

  function WeekDay(julianDayNumber: int): int {
    Rem(julianDayNumber + 1, 7)
  }

  /** Days of the week follow each other, and 1 January 1970 was a Thursday. */
  lemma WeekDaysFollow(julianDayNumber: int)
    requires julianDayNumber >= -1
    ensures WeekDay(julianDayNumber + 1) == (WeekDay(julianDayNumber) + 1) % 7
    ensures WeekDay(EPOCH) == 4
  {
    EpochNumber();
  }

  /** The documented range holds exactly from number -1 on and on every seventh day before. */
  lemma WeekDayInRangeIff(julianDayNumber: int)
    ensures 0 <= WeekDay(julianDayNumber) <= 6 <==> julianDayNumber >= -1 || (julianDayNumber + 1) % 7 == 0
  {
    var x := julianDayNumber + 1;
    if x < 0 {
      assert Rem(x, 7) == x + 7 * ((-x) / 7);
      assert -x == 7 * ((-x) / 7) + (-x) % 7;
    }
  }

  // ----- UTC -----

  const SECONDS_PER_DAY := 24 * 60 * 60
  const EPOCH := JulianDayNumber(Ymd(1970, 1, 1))
  const FIRST_INSTANT := (FIRST_NUMBER - 2440588) * SECONDS_PER_DAY

  lemma EpochNumber()
    ensures EPOCH == 2440588
  {
  }

  /** `struct tm`: years count from 1900, months from 0. */
  datatype Tm = Tm(year: int, mon: int, mday: int, hour: int, min: int, sec: int, wday: int, yday: int) {
    function Date(): Ymd {
      Ymd(year + 1900, mon + 1, mday)
    }
  }

  predicate TimeInRange(u: Tm) {
    0 <= u.hour < 24 && 0 <= u.min < 60 && 0 <= u.sec < 60
  }

  function UtcOf(t: int, yday: bool): Tm {
    var seconds := Rem(t, SECONDS_PER_DAY);
    var days := Quo(t, SECONDS_PER_DAY);
    var (s, j) := if seconds < 0 then (seconds + SECONDS_PER_DAY, days - 1 + EPOCH) else (seconds, days + EPOCH);
    var d := YearMonthDay(j);
    Tm(d.year - 1900, d.month - 1, d.day, s / 60 / 60, s / 60 % 60, s % 60, WeekDay(j),
       if yday then j - JulianDayNumber(Ymd(d.year, 1, 1)) else 0)
  }

  function FromUtc(u: Tm): int {
    var secondsInDay := u.hour * 3600 + u.min * 60 + u.sec;
    (JulianDayNumber(u.Date()) - EPOCH) * SECONDS_PER_DAY + secondsInDay
  }

  method FillHMS(seconds: nat) returns (hour: int, min: int, sec: int)
    requires seconds < SECONDS_PER_DAY
    ensures hour * 3600 + min * 60 + sec == seconds
    ensures 0 <= hour < 24 && 0 <= min < 60 && 0 <= sec < 60
    ensures hour == seconds / 60 / 60 && min == seconds / 60 % 60 && sec == seconds % 60
  {
    sec := seconds % 60;
    var minutes := seconds / 60;
    min := minutes % 60;
    hour := minutes / 60;
  }

  method ToUtcTime(t: int, yday: bool) returns (utc: Tm)
    ensures utc == UtcOf(t, yday)
    ensures TimeInRange(utc)
    ensures t >= FIRST_INSTANT <==> Valid(utc.Date())
    ensures t >= FIRST_INSTANT ==> FromUtc(utc) == t
  {
    hide YearMonthDay, JulianDayNumber, Valid;
    UtcBack(t, yday);
    var seconds := Rem(t, SECONDS_PER_DAY);
    var days := Quo(t, SECONDS_PER_DAY);
    RemSmall(t, SECONDS_PER_DAY);
    if seconds < 0 {
      seconds := seconds + SECONDS_PER_DAY;
      days := days - 1;
    }
    var hour, min, sec := FillHMS(seconds);
    var date := days + EPOCH;
    var ymd := YearMonthDay(date);
    utc := Tm(ymd.year - 1900, ymd.month - 1, ymd.day, hour, min, sec, WeekDay(date), 0);
    if yday {
      var startOfYear := JulianDayNumber(Ymd(ymd.year, 1, 1));
      utc := utc.(yday := date - startOfYear);
    }
  }

  lemma RemSmall(a: int, b: int)
    requires b > 0
    ensures -b < Rem(a, b) < b
    ensures a == b * Quo(a, b) + Rem(a, b)
  {
    if a < 0 {
      assert -a == b * ((-a) / b) + (-a) % b;
    }
  }

  /** The floor of the day is found despite the truncation. */
  function DayOf(t: int): int {
    if Rem(t, SECONDS_PER_DAY) < 0 then Quo(t, SECONDS_PER_DAY) - 1 else Quo(t, SECONDS_PER_DAY)
  }

  lemma DayFound(t: int, day: int, s: int)
    requires t == day * SECONDS_PER_DAY + s && 0 <= s < SECONDS_PER_DAY
    ensures DayOf(t) == day
    ensures (if Rem(t, SECONDS_PER_DAY) < 0 then Rem(t, SECONDS_PER_DAY) + SECONDS_PER_DAY else Rem(t, SECONDS_PER_DAY)) == s
  {
    RemSmall(t, SECONDS_PER_DAY);
  }

  lemma UtcParts(t: int, yday: bool, day: int, s: int)
    requires t == day * SECONDS_PER_DAY + s && 0 <= s < SECONDS_PER_DAY
    ensures var u := UtcOf(t, yday);
      && TimeInRange(u) && u.hour * 3600 + u.min * 60 + u.sec == s
      && u.Date() == YearMonthDay(day + EPOCH) && u.wday == WeekDay(day + EPOCH)
      && u.yday == if yday then day + EPOCH - JulianDayNumber(Ymd(u.Date().year, 1, 1)) else 0
  {
    hide YearMonthDay, JulianDayNumber, WeekDay;
    DayFound(t, day, s);
  }

  lemma SplitInstant(t: int) returns (day: int, s: int)
    ensures t == day * SECONDS_PER_DAY + s && 0 <= s < SECONDS_PER_DAY
  {
    day, s := t / SECONDS_PER_DAY, t % SECONDS_PER_DAY;
  }

  /** Every instant's fields of time are in range; its date is valid, and the instant is found
      again, exactly from the first covered instant on. */
  lemma UtcBack(t: int, yday: bool)
    ensures TimeInRange(UtcOf(t, yday))
    ensures Valid(UtcOf(t, yday).Date()) <==> t >= FIRST_INSTANT
    ensures t >= FIRST_INSTANT ==> FromUtc(UtcOf(t, yday)) == t && Covered(UtcOf(t, yday).Date())
  {
    hide YearMonthDay, JulianDayNumber, WeekDay, Valid, Covered;
    EpochNumber();
    var day, s := SplitInstant(t);
    UtcParts(t, yday, day, s);
    ValidIffCovered(day + EPOCH);
    if t >= FIRST_INSTANT {
      FormulasInverse(day + EPOCH - FIRST_NUMBER);
    }
  }

  /** Every valid date and time of day is found again from its instant. */
  lemma UtcForth(u: Tm, yday: bool)
    requires Covered(u.Date()) && TimeInRange(u)
    ensures var r := UtcOf(FromUtc(u), yday);
      r.Date() == u.Date() && r.hour == u.hour && r.min == u.min && r.sec == u.sec
    ensures FromUtc(u) >= FIRST_INSTANT
  {
    hide YearMonthDay, JulianDayNumber, WeekDay, Covered;
    EpochNumber();
    var s := u.hour * 3600 + u.min * 60 + u.sec;
    UtcParts(FromUtc(u), yday, JulianDayNumber(u.Date()) - EPOCH, s);
    YearMonthDayFound(u.Date());
    EveryDateReached(u.Date());
  }

  // ----- a clock that ticks -----

  function Tick(u: Tm): Tm {
    if u.sec < 59 then u.(sec := u.sec + 1)
    else if u.min < 59 then u.(min := u.min + 1, sec := 0)
    else if u.hour < 23 then u.(hour := u.hour + 1, min := 0, sec := 0)
    else
      var d := Next(u.Date());
      Tm(d.year - 1900, d.month - 1, d.day, 0, 0, 0, (u.wday + 1) % 7, 0)
  }

  lemma TickSeconds(u: Tm, s: int)
    requires TimeInRange(u) && u.hour * 3600 + u.min * 60 + u.sec == s
    ensures s == SECONDS_PER_DAY - 1 <==> u.hour == 23 && u.min == 59 && u.sec == 59
    ensures s < SECONDS_PER_DAY - 1 ==>
      var v := Tick(u);
      TimeInRange(v) && v.hour * 3600 + v.min * 60 + v.sec == s + 1 && v.Date() == u.Date() && v.wday == u.wday && v.yday == u.yday
  {
  }

  lemma SameSeconds(u: Tm, v: Tm)
    requires TimeInRange(u) && TimeInRange(v)
    requires u.hour * 3600 + u.min * 60 + u.sec == v.hour * 3600 + v.min * 60 + v.sec
    ensures u.hour == v.hour && u.min == v.min && u.sec == v.sec
  {
  }

  lemma TicksInDay(day: int, s: int)
    requires 0 <= s < SECONDS_PER_DAY - 1
    ensures var t := day * SECONDS_PER_DAY + s;
      UtcOf(t + 1, false) == Tick(UtcOf(t, false))
  {
    hide YearMonthDay, JulianDayNumber, WeekDay, UtcOf, Tick, Next;
    var t := day * SECONDS_PER_DAY + s;
    UtcParts(t, false, day, s);
    UtcParts(t + 1, false, day, s + 1);
    TickSeconds(UtcOf(t, false), s);
    SameSeconds(UtcOf(t + 1, false), Tick(UtcOf(t, false)));
  }

  lemma MidnightWeekDay(julianDayNumber: int)
    ensures WeekDay(julianDayNumber + 1) == (WeekDay(julianDayNumber) + 1) % 7
      <==> julianDayNumber >= -1 || (julianDayNumber + 2) % 7 == 0
  {
    var x := julianDayNumber + 1;
    if x < 0 {
      var q, r := (-x) / 7, (-x) % 7;
      assert -x == 7 * q + r;
      assert Rem(x, 7) == -r;
      if r > 0 {
        QuotientIs(-(x + 1), 7, q, r - 1);
      } else {
        QuotientIs(-(x + 1), 7, q - 1, 6);
      }
    }
  }

  lemma TicksAtMidnightIff(day: int)
    requires day + EPOCH >= FIRST_NUMBER
    ensures var t := day * SECONDS_PER_DAY + SECONDS_PER_DAY - 1;
      UtcOf(t + 1, false) == Tick(UtcOf(t, false)) <==> day + EPOCH >= -1 || (day + EPOCH + 2) % 7 == 0
  {
    hide YearMonthDay, JulianDayNumber, WeekDay, UtcOf, Next;
    EpochNumber();
    var t := day * SECONDS_PER_DAY + SECONDS_PER_DAY - 1;
    UtcParts(t, false, day, SECONDS_PER_DAY - 1);
    UtcParts(t + 1, false, day + 1, 0);
    TickSeconds(UtcOf(t, false), SECONDS_PER_DAY - 1);
    FormulasInverse(day + EPOCH - FIRST_NUMBER);
    FormulasInverse(day + EPOCH - FIRST_NUMBER + 1);
    MidnightWeekDay(day + EPOCH);
    SameSeconds(UtcOf(t + 1, false), Tick(UtcOf(t, false)));
  }

  /** From the first covered instant on, `toUtcTime` is a clock that ticks second by second through
      the day-by-day calendar, exactly except at the midnights after which the day of the week is
      negative. */
  lemma UtcTicksIff(t: int)
    requires t >= FIRST_INSTANT
    ensures UtcOf(t + 1, false) == Tick(UtcOf(t, false)) <==>
      t % SECONDS_PER_DAY != SECONDS_PER_DAY - 1 || t / SECONDS_PER_DAY + EPOCH >= -1 || (t / SECONDS_PER_DAY + EPOCH + 2) % 7 == 0
  {
    hide UtcOf, Tick, JulianDayNumber;
    EpochNumber();
    var day, s := SplitInstant(t);
    if s < SECONDS_PER_DAY - 1 {
      TicksInDay(day, s);
    } else {
      TicksAtMidnightIff(day);
    }
  }

  // ----- the day of the year -----

  function DaysBefore(year: int, month: int): int
    decreases month
  {
    if month <= 1 then 0 else DaysBefore(year, month - 1) + DaysIn(year, month - 1)
  }

  lemma {:induction false} NumberInYear(year: int, month: int)
    requires year > -4800 && 1 <= month <= 12
    ensures JulianDayNumber(Ymd(year, month, 1)) == JulianDayNumber(Ymd(year, 1, 1)) + DaysBefore(year, month)
    decreases month
  {
    hide JulianDayNumber, DaysIn;
    if month > 1 {
      NumberInYear(year, month - 1);
      LastOfMonth(year, month - 1);
    }
  }

  lemma LastOfMonth(year: int, month: int)
    requires year > -4800 && 1 <= month < 12
    ensures JulianDayNumber(Ymd(year, month + 1, 1)) == JulianDayNumber(Ymd(year, month, 1)) + DaysIn(year, month)
  {
    var last := Ymd(year, month, DaysIn(year, month));
    NextNumber(last);
  }

  /** The day of the year counts from 1 January, exactly after the year -4800. */
  lemma YearDayIff(t: int)
    requires t >= FIRST_INSTANT
    ensures var u := UtcOf(t, true); var d := u.Date();
      u.yday == DaysBefore(d.year, d.month) + d.day - 1 <==> d.year > -4800
  {
    hide YearMonthDay, WeekDay, JulianDayNumber, DaysIn;
    EpochNumber();
    var day, s := SplitInstant(t);
    UtcParts(t, true, day, s);
    FormulasInverse(day + EPOCH - FIRST_NUMBER);
    var d := YearMonthDay(day + EPOCH);
    DayInMonth(d);
    if d.year > -4800 {
      NumberInYear(d.year, d.month);
    } else {
      FirstYear(d.month);
    }
  }

  lemma DayInMonth(d: Ymd)
    ensures JulianDayNumber(d) == JulianDayNumber(Ymd(d.year, d.month, 1)) + d.day - 1
  {
  }

  lemma FirstYear(month: int)
    requires 3 <= month <= 12
    ensures JulianDayNumber(Ymd(-4800, month, 1)) == JulianDayNumber(Ymd(-4800, 1, 1)) + DaysBefore(-4800, month) - 1
  {
    hide JulianDayNumber, DaysIn;
    if month == 3 {
      StartOfFirstYear();
    } else {
      FirstYear(month - 1);
      LastOfMonthInFirst(month - 1);
    }
  }

  lemma StartOfFirstYear()
    ensures JulianDayNumber(Ymd(-4800, 3, 1)) == JulianDayNumber(Ymd(-4800, 1, 1)) + DaysBefore(-4800, 3) - 1
  {
    assert DaysIn(-4800, 1) == 31 && DaysIn(-4800, 2) == 29;
    assert DaysBefore(-4800, 2) == 31;
  }

  lemma LastOfMonthInFirst(month: int)
    requires 3 <= month < 12
    ensures JulianDayNumber(Ymd(-4800, month + 1, 1)) == JulianDayNumber(Ymd(-4800, month, 1)) + DaysIn(-4800, month)
  {
    NextNumber(Ymd(-4800, month, DaysIn(-4800, month)));
  }
}
