/** Julian day numbers (Date.cc) and UTC broken-down time (TimeZone.cc), against the Gregorian calendar. */
module Calendar {

  /** Division and remainder as in C: toward zero. */
  function CDiv(a: int, b: int): int
    requires b > 0
  {
    if a >= 0 then a / b else -((-a) / b)
  }

  function CMod(a: int, b: int): int
    requires b > 0
  {
    a - CDiv(a, b) * b
  }

  datatype Date = Date(year: int, month: int, day: int)

  // ----- the source's formulas -----

  function JulianDayNumber(d: Date): int {
    var a := CDiv(14 - d.month, 12);
    var y := d.year + 4800 - a;
    var m := d.month + 12 * a - 3;
    d.day + CDiv(153 * m + 2, 5) + y * 365 + CDiv(y, 4) - CDiv(y, 100) + CDiv(y, 400) - 32045
  }

  function YearMonthDay(julianDayNumber: int): Date {
    var a := julianDayNumber + 32044;
    var b := CDiv(4 * a + 3, 146097);
    var c := a - CDiv(b * 146097, 4);
    var d := CDiv(4 * c + 3, 1461);
    var e := c - CDiv(1461 * d, 4);
    var m := CDiv(5 * e + 2, 153);
    Date(b * 100 + d - 4800 + CDiv(m, 10), m + 3 - 12 * CDiv(m, 10), e - CDiv(153 * m + 2, 5) + 1)
  }

  function WeekDay(julianDayNumber: int): int { CMod(julianDayNumber + 1, 7) }

  const UNIX_EPOCH: int := 2440588  // kJulianDayOf1970_01_01

  // ----- the Gregorian calendar -----

  predicate IsLeap(y: int) { y % 4 == 0 && (y % 100 != 0 || y % 400 == 0) }

  function DaysInMonth(y: int, m: int): int {
    if m == 2 then (if IsLeap(y) then 29 else 28) else if m == 4 || m == 6 || m == 9 || m == 11 then 30 else 31
  }

  predicate InCalendar(d: Date) { 1 <= d.month <= 12 && 1 <= d.day <= DaysInMonth(d.year, d.month) }

  /** The dates the formulas are for: from 1 March 4801 BC on. */
  predicate Valid(d: Date) { InCalendar(d) && (d.year > -4800 || (d.year == -4800 && d.month >= 3)) }

  function NextDay(d: Date): Date {
    if d.day < DaysInMonth(d.year, d.month) then d.(day := d.day + 1)
    else if d.month < 12 then Date(d.year, d.month + 1, 1)
    else Date(d.year + 1, 1, 1)
  }

  // ----- years that begin in March, taken apart into centuries and years -----

  /** Days from March 1 to the beginning of month m, counted from March. */
  function March(m: int): int { (153 * m + 2) / 5 }

  /** Days from 1 March -4800 in terms of century, year of the century, and day of the year. */
  function Days(b: int, y: int, e: int): int { 36524 * b + b / 4 + 365 * y + y / 4 + e }

  /** Does the year y of century b, beginning in March, end with a 29 February? */
  predicate LongYear(b: int, y: int) { (y % 4 == 3 && y != 99) || (y == 99 && b % 4 == 3) }

  predicate Parts(b: int, y: int, e: int) {
    0 <= b && 0 <= y <= 99 && 0 <= e <= 365 && (e == 365 ==> LongYear(b, y))
  }

  /** The century, the year and the day of the year are found again. */
  lemma PartsFound(b: int, y: int, e: int)
    requires Parts(b, y, e)
    ensures var a := Days(b, y, e);
            && (4 * a + 3) / 146097 == b
            && a - (b * 146097) / 4 == Days(0, y, e)
            && (4 * Days(0, y, e) + 3) / 1461 == y
            && Days(0, y, e) - (1461 * y) / 4 == e
  {
    var c := Days(0, y, e);
    var a := Days(b, y, e);
    assert a == 36524 * b + b / 4 + c;
    assert b == 4 * (b / 4) + b % 4;
    assert 4 * a + 3 == 146097 * b + (4 * c + 3 - b % 4);
    assert y == 4 * (y / 4) + y % 4;
    assert 0 <= 4 * c + 3 - b % 4 < 146097 by {
      assert c <= 365 * y + y / 4 + 365;
      if y < 99 { assert c <= 365 * 98 + 24 + 365; }
    }
    Quotient(4 * a + 3, 146097, b, 4 * c + 3 - b % 4);
    assert (b * 146097) / 4 == 36524 * b + b / 4 by {
      assert b * 146097 == 4 * (36524 * b + b / 4) + b % 4;
      Quotient(b * 146097, 4, 36524 * b + b / 4, b % 4);
    }
    assert 4 * c + 3 == 1461 * y + (4 * e + 3 - y % 4);
    Quotient(4 * c + 3, 1461, y, 4 * e + 3 - y % 4);
    assert 1461 * y == 4 * (365 * y + y / 4) + y % 4;
    Quotient(1461 * y, 4, 365 * y + y / 4, y % 4);
  }

  lemma Multiple(x: int, d: int)
    requires d > 0
    ensures x >= 1 ==> d * x >= d
    ensures x <= -1 ==> d * x <= -d
  {
    if x >= 1 {
      assert d * x == d + d * (x - 1) && d * (x - 1) >= 0;
    } else if x <= -1 {
      assert d * x == -d + d * (x + 1) && d * (x + 1) <= 0;
    }
  }

  lemma Quotient(n: int, d: int, q: int, r: int)
    requires d > 0 && n == d * q + r && 0 <= r < d
    ensures n / d == q && n % d == r
  {
    var k := n / d;
    assert d * (q - k) == n % d - r;
    Multiple(q - k, d);
  }

  /** And every day number has them. */
  lemma PartsOf(a: int)
    requires a >= 0
    ensures var b := (4 * a + 3) / 146097;
            var c := a - (b * 146097) / 4;
            var y := (4 * c + 3) / 1461;
            var e := c - (1461 * y) / 4;
            Parts(b, y, e) && Days(b, y, e) == a
  {
    var b := (4 * a + 3) / 146097;
    var c := a - (b * 146097) / 4;
    assert (b * 146097) / 4 == 36524 * b + b / 4 by {
      assert b * 146097 == 4 * (36524 * b + b / 4) + b % 4;
      Quotient(b * 146097, 4, 36524 * b + b / 4, b % 4);
    }
    assert 0 <= 4 * a + 3 - 146097 * b < 146097;
    assert 4 * c + 3 - b % 4 == 4 * a + 3 - 146097 * b;
    assert 0 <= c <= 36524 && (c == 36524 ==> b % 4 == 3);
    var y := (4 * c + 3) / 1461;
    var e := c - (1461 * y) / 4;
    assert (1461 * y) / 4 == 365 * y + y / 4 by {
      assert 1461 * y == 4 * (365 * y + y / 4) + y % 4;
      Quotient(1461 * y, 4, 365 * y + y / 4, y % 4);
    }
    assert 0 <= 4 * c + 3 - 1461 * y < 1461;
    assert 4 * e + 3 - y % 4 == 4 * c + 3 - 1461 * y;
    assert 0 <= y <= 99;
    assert e == 365 ==> y % 4 == 3;
    assert y == 99 ==> c == 36159 + e;
  }

  // ----- a date in these terms -----

  function MarchMonth(d: Date): int { if d.month >= 3 then d.month - 3 else d.month + 9 }
  function MarchYear(d: Date): int { if d.month >= 3 then d.year + 4800 else d.year + 4799 }
  function DayOfYear(d: Date): int { March(MarchMonth(d)) + d.day - 1 }

  lemma YearParts(n: int)
    requires n >= 0
    ensures var b, y := n / 100, n % 100;
            && 0 <= b && 0 <= y <= 99
            && n * 365 + n / 4 - n / 100 + n / 400 == 36524 * b + b / 4 + 365 * y + y / 4
            && (LongYear(b, y) <==> IsLeap(n + 1 - 4800))
  {
    var b, y := n / 100, n % 100;
    assert n == 100 * b + y;
    assert n / 4 == 25 * b + y / 4 by { Quotient(n, 4, 25 * b + y / 4, y % 4); }
    assert n / 400 == b / 4 by {
      assert n == 400 * (b / 4) + (100 * (b % 4) + y);
      Quotient(n, 400, b / 4, 100 * (b % 4) + y);
    }
    LeapParts(n, b, y);
  }

  lemma NextOfFour(x: int)
    ensures (x + 1) % 4 == 0 <==> x % 4 == 3
  {
  }

  lemma LeapParts(n: int, b: int, y: int)
    requires n == 100 * b + y && 0 <= b && 0 <= y <= 99
    ensures LongYear(b, y) <==> IsLeap(n + 1 - 4800)
  {
    var z := n + 1 - 4800;
    if y < 99 {
      Quotient(z, 4, 25 * (b - 48) + (y + 1) / 4, (y + 1) % 4);
      Quotient(z, 100, b - 48, y + 1);
      NextOfFour(y);
    } else {
      Quotient(z, 4, 25 * (b - 47), 0);
      Quotient(z, 100, b - 47, 0);
      var k, r := (b + 1) / 4, (b + 1) % 4;
      assert z == 400 * (k - 12) + 100 * r;
      Quotient(z, 400, k - 12, 100 * r);
      NextOfFour(b);
    }
  }

  /** The day of the year determines the month and the day. */
  lemma MonthFound(m: int, day: int)
    requires 0 <= m <= 11 && 1 <= day <= (if m == 11 then 29 else March(m + 1) - March(m))
    ensures (5 * (March(m) + day - 1) + 2) / 153 == m
    ensures 0 <= March(m) + day - 1 <= 365
  {
  }

  lemma MonthOf(e: int)
    requires 0 <= e <= 365
    ensures var m := (5 * e + 2) / 153;
            0 <= m <= 11 && 1 <= e - March(m) + 1 <= (if m == 11 then 29 else March(m + 1) - March(m))
    ensures (5 * e + 2) / 153 == 11 ==> e - March(11) + 1 == e - 336
  {
  }

  lemma MonthLengths(d: Date)
    requires 1 <= d.month <= 12
    ensures var m := MarchMonth(d);
            if m == 11 then DaysInMonth(d.year, d.month) == (if IsLeap(d.year) then 29 else 28)
            else DaysInMonth(d.year, d.month) == March(m + 1) - March(m)
    ensures March(11) == 337
  {
  }

  /** The formula counts days. */
  lemma JulianIs(d: Date)
    requires Valid(d)
    ensures var n := MarchYear(d);
            n >= 0 && JulianDayNumber(d) == Days(n / 100, n % 100, DayOfYear(d)) - 32044 && Parts(n / 100, n % 100, DayOfYear(d))
  {
    hide IsLeap, LongYear, DaysInMonth;
    var n, m := MarchYear(d), MarchMonth(d);
    var a := CDiv(14 - d.month, 12);
    assert a == if d.month <= 2 then 1 else 0;
    YearParts(n);
    MonthLengths(d);
    assert JulianDayNumber(d) == d.day + March(m) + n * 365 + n / 4 - n / 100 + n / 400 - 32045;
    assert m == 11 ==> d.year == n + 1 - 4800;
    MonthFound(m, d.day);
    if DayOfYear(d) == 365 { LastDay(d); }
  }

  lemma LastDay(d: Date)
    requires Valid(d) && DayOfYear(d) == 365
    ensures MarchMonth(d) == 11 && d.day == 29 && IsLeap(d.year)
  {
  }

  // ----- the theorems -----

  /** The source's inverse formula, in terms of century, year and day of the year. */
  lemma YearMonthDayOfParts(b: int, y: int, e: int)
    requires Parts(b, y, e)
    ensures var m := (5 * e + 2) / 153;
            YearMonthDay(Days(b, y, e) - 32044) == Date(100 * b + y - 4800 + m / 10, m + 3 - 12 * (m / 10), e - March(m) + 1)
  {
    hide LongYear, Days, March;
    PartsFound(b, y, e);
    DaysPositive(b, y, e);
    PartsRange(b, y, e);
    MonthOf(e);
    MarchIs((5 * e + 2) / 153);
    var a := Days(b, y, e);
    assert CDiv(4 * a + 3, 146097) == b;
    assert CDiv(b * 146097, 4) == (b * 146097) / 4;
    assert CDiv(4 * Days(0, y, e) + 3, 1461) == y;
    assert CDiv(1461 * y, 4) == (1461 * y) / 4;
  }

  lemma PartsRange(b: int, y: int, e: int)
    requires Parts(b, y, e)
    ensures b >= 0 && y >= 0 && 0 <= e <= 365
  {
  }

  /** Out and back, for every Gregorian date. */
  lemma DateRoundTrip(d: Date)
    requires Valid(d)
    ensures YearMonthDay(JulianDayNumber(d)) == d
  {
    hide Valid, Parts, Days, March, JulianDayNumber, YearMonthDay;
    JulianIs(d);
    var n := MarchYear(d);
    YearMonthDayOfParts(n / 100, n % 100, DayOfYear(d));
    MonthBack(d);
    MonthInYear(d);
  }

  lemma MonthInYear(d: Date)
    requires Valid(d)
    ensures var m, n := MarchMonth(d), MarchYear(d);
            d == Date(100 * (n / 100) + n % 100 - 4800 + m / 10, m + 3 - 12 * (m / 10), DayOfYear(d) - March(m) + 1)
  {
  }

  lemma MarchIs(m: int)
    requires m >= 0
    ensures March(m) == CDiv(153 * m + 2, 5)
  {
  }

  lemma DaysPositive(b: int, y: int, e: int)
    requires Parts(b, y, e)
    ensures Days(b, y, e) >= 0 && Days(0, y, e) >= 0
  {
  }

  lemma MonthBack(d: Date)
    requires Valid(d)
    ensures (5 * DayOfYear(d) + 2) / 153 == MarchMonth(d) && 0 <= MarchMonth(d) <= 11
  {
    MonthLengths(d);
    MonthFound(MarchMonth(d), d.day);
  }

  lemma PartsRoundTrip(b: int, y: int, e: int)
    requires Parts(b, y, e)
    ensures var julian := Days(b, y, e) - 32044;
            Valid(YearMonthDay(julian)) && JulianDayNumber(YearMonthDay(julian)) == julian
  {
    hide IsLeap, LongYear, JulianDayNumber, DaysInMonth, YearMonthDay, Days, March, Parts;
    YearMonthDayOfParts(b, y, e);
    PartsRange(b, y, e);
    MonthOf(e);
    var d := YearMonthDay(Days(b, y, e) - 32044);
    PlaceInYear(d, 100 * b + y, (5 * e + 2) / 153, e);
    assert 0 <= y <= 99 by { CenturyYear(b, y, e); }
    Quotient(100 * b + y, 100, b, y);
    DateOfParts(d, b, y, e);
    JulianIs(d);
  }

  lemma CenturyYear(b: int, y: int, e: int)
    requires Parts(b, y, e)
    ensures 0 <= y <= 99
  {
  }

  lemma PlaceInYear(d: Date, n: int, m: int, e: int)
    requires 0 <= m <= 11 && d == Date(n - 4800 + m / 10, m + 3 - 12 * (m / 10), e - March(m) + 1)
    ensures 1 <= d.month <= 12 && MarchMonth(d) == m && MarchYear(d) == n && DayOfYear(d) == e
  {
    hide March;
  }

  /** Back and out, for every day number; the result is always a date of the calendar. */
  lemma NumberRoundTrip(julian: int)
    requires julian >= -32044
    ensures Valid(YearMonthDay(julian)) && JulianDayNumber(YearMonthDay(julian)) == julian
  {
    hide Valid, YearMonthDay, JulianDayNumber, Parts, Days;
    var a := julian + 32044;
    PartsOf(a);
    var b := (4 * a + 3) / 146097;
    var c := a - (b * 146097) / 4;
    var y := (4 * c + 3) / 1461;
    PartsRoundTrip(b, y, c - (1461 * y) / 4);
  }

  predicate FitsInt(n: int) { -0x8000_0000 <= n <= 0x7fff_ffff }

  /** No intermediate value leaves 32 bits, up to day number 536838866 (in the year 1465002). */
  lemma NoOverflow(julian: int)
    requires -32044 <= julian <= 536838866
    ensures var a := julian + 32044;
            var b := (4 * a + 3) / 146097;
            var c := a - (b * 146097) / 4;
            var y := (4 * c + 3) / 1461;
            var e := c - (1461 * y) / 4;
            FitsInt(a) && FitsInt(4 * a + 3) && FitsInt(b * 146097) && FitsInt(c) && FitsInt(4 * c + 3) &&
            FitsInt(1461 * y) && FitsInt(e) && FitsInt(5 * e + 2) && FitsInt(b * 100 + y - 4800 + 1)
  {
    hide LongYear;
    var a := julian + 32044;
    PartsOf(a);
    var b := (4 * a + 3) / 146097;
    var c := a - (b * 146097) / 4;
    var y := (4 * c + 3) / 1461;
    PartsFound(b, y, c - (1461 * y) / 4);
  }

  lemma DateOfParts(d: Date, b: int, y: int, e: int)
    requires Parts(b, y, e) && 1 <= d.month <= 12 && MarchYear(d) == 100 * b + y && DayOfYear(d) == e
    requires var m := MarchMonth(d); 1 <= d.day <= (if m == 11 then 29 else March(m + 1) - March(m))
    ensures Valid(d)
  {
    hide IsLeap, LongYear, DaysInMonth;
    YearParts(100 * b + y);
    Quotient(100 * b + y, 100, b, y);
    MonthLengths(d);
    if MarchMonth(d) == 11 && d.day == 29 {
      assert e == 365;
    }
  }

  /** Consecutive days have consecutive numbers. */
  lemma NextDayNumber(d: Date)
    requires Valid(d)
    ensures Valid(NextDay(d)) && JulianDayNumber(NextDay(d)) == JulianDayNumber(d) + 1
  {
    NextDayValid(d);
    var t := NextDay(d);
    var n, k := MarchYear(d), MarchYear(t);
    JulianPlain(d);
    JulianPlain(t);
    MonthLengths(d);
    if k != n {
      assert k == n + 1 && MarchMonth(t) == 0 && MarchMonth(d) == 11 && d.year == n + 1 - 4800;
      YearLength(n);
    }
  }

  lemma NextDayValid(d: Date)
    requires Valid(d)
    ensures Valid(NextDay(d))
  {
    hide IsLeap;
  }

  lemma JulianPlain(d: Date)
    requires Valid(d)
    ensures var n := MarchYear(d);
            n >= 0 && JulianDayNumber(d) == DayOfYear(d) + n * 365 + n / 4 - n / 100 + n / 400 - 32044
  {
    hide DaysInMonth;
    assert CDiv(14 - d.month, 12) == if d.month <= 2 then 1 else 0;
  }

  lemma Shift(x: int, d: int, k: int)
    requires d > 0
    ensures (x - d * k) % d == x % d
  {
    assert x - d * k == d * (x / d - k) + x % d;
    Quotient(x - d * k, d, x / d - k, x % d);
  }

  lemma Divides(x: int)
    ensures x % 100 == 0 ==> x % 4 == 0
    ensures x % 400 == 0 ==> x % 100 == 0
  {
    if x % 100 == 0 {
      assert x == 4 * (25 * (x / 100)) + 0;
      Quotient(x, 4, 25 * (x / 100), 0);
    }
    if x % 400 == 0 {
      assert x == 100 * (4 * (x / 400)) + 0;
      Quotient(x, 100, 4 * (x / 400), 0);
    }
  }

  lemma LeapShift(x: int)
    ensures IsLeap(x - 4800) == IsLeap(x)
  {
    Shift(x, 4, 1200);
    Shift(x, 100, 48);
    Shift(x, 400, 12);
  }

  lemma YearLength(n: int)
    requires n >= 0
    ensures (n + 1) / 4 - (n + 1) / 100 + (n + 1) / 400 == n / 4 - n / 100 + n / 400 + (if IsLeap(n + 1 - 4800) then 1 else 0)
  {
    LeapShift(n + 1);
    Divides(n + 1);
    Carry(n, 4);
    Carry(n, 100);
    Carry(n, 400);
  }

  lemma Carry(n: int, d: int)
    requires n >= 0 && d > 1
    ensures (n + 1) / d == n / d + (if (n + 1) % d == 0 then 1 else 0)
  {
    var q, r := n / d, n % d;
    assert n == d * q + r;
    if r + 1 < d {
      Quotient(n + 1, d, q, r + 1);
    } else {
      assert d * (q + 1) == d * q + d;
      Quotient(n + 1, d, q + 1, 0);
    }
  }

  lemma Epoch()
    ensures JulianDayNumber(Date(1970, 1, 1)) == UNIX_EPOCH && WeekDay(UNIX_EPOCH) == 4
  {
  }

  /** The days of the week go round, Thursday being the day of the epoch. */
  lemma WeekDays(julian: int)
    requires julian >= -1
    ensures WeekDay(julian) == (julian - UNIX_EPOCH + 4) % 7 && WeekDay(julian + 1) == (WeekDay(julian) + 1) % 7
  {
    var q, r := (julian + 1) / 7, (julian + 1) % 7;
    assert julian + 1 == 7 * q + r;
    Quotient(julian - UNIX_EPOCH + 4, 7, q - 348655, r);
    if r < 6 { Quotient(julian + 2, 7, q, r + 1); } else { Quotient(julian + 2, 7, q + 1, 0); }
  }

  // ----- UTC -----

  /** struct tm, with full years and months from 1. */
  datatype Tm = Tm(date: Date, hour: int, min: int, sec: int, wday: int, yday: int)

  const DAY: int := 86400

  function ToUtcTime(t: int): Tm {
    var seconds := CMod(t, DAY);
    var days := CDiv(t, DAY);
    var s := if seconds < 0 then seconds + DAY else seconds;
    var d := if seconds < 0 then days - 1 else days;
    var n := d + UNIX_EPOCH;
    var date := YearMonthDay(n);
    Tm(date, CDiv(CDiv(s, 60), 60), CMod(CDiv(s, 60), 60), CMod(s, 60), WeekDay(n),
       n - JulianDayNumber(Date(date.year, 1, 1)))
  }

  function FromUtcTime(date: Date, hour: int, min: int, sec: int): int {
    (JulianDayNumber(date) - UNIX_EPOCH) * DAY + (hour * 3600 + min * 60 + sec)
  }

  /** The first second of the first day. */
  const FIRST: int := (-32044 - 2440588) * 86400

  lemma SplitSeconds(t: int)
    ensures var seconds, days := CMod(t, DAY), CDiv(t, DAY);
            var s := if seconds < 0 then seconds + DAY else seconds;
            var d := if seconds < 0 then days - 1 else days;
            d == t / DAY && s == t % DAY
  {
    if t < 0 {
      var q, r := (-t) / DAY, (-t) % DAY;
      assert t == DAY * -q - r;
      if r == 0 { Quotient(t, DAY, -q, 0); } else { Quotient(t, DAY, -q - 1, DAY - r); }
    }
  }

  /** Every time, negative ones included, is broken down into fields in range and put together again. */
  lemma UtcRoundTrip(t: int)
    requires t >= FIRST
    ensures var u := ToUtcTime(t);
            && FromUtcTime(u.date, u.hour, u.min, u.sec) == t
            && Valid(u.date) && 0 <= u.hour < 24 && 0 <= u.min < 60 && 0 <= u.sec < 60
            && u.yday == JulianDayNumber(u.date) - JulianDayNumber(Date(u.date.year, 1, 1))
  {
    hide YearMonthDay, JulianDayNumber, Valid;
    SplitSeconds(t);
    assert t / DAY + UNIX_EPOCH >= -32044;
    NumberRoundTrip(t / DAY + UNIX_EPOCH);
  }

  /** And every broken-down time comes back from its number of seconds. */
  lemma TimeRoundTrip(date: Date, hour: int, min: int, sec: int)
    requires Valid(date) && 0 <= hour < 24 && 0 <= min < 60 && 0 <= sec < 60
    ensures var u := ToUtcTime(FromUtcTime(date, hour, min, sec));
            u.date == date && u.hour == hour && u.min == min && u.sec == sec
  {
    hide YearMonthDay, JulianDayNumber, Valid;
    var t := FromUtcTime(date, hour, min, sec);
    SplitSeconds(t);
    var s := hour * 3600 + min * 60 + sec;
    Quotient(t, DAY, JulianDayNumber(date) - UNIX_EPOCH, s);
    DateRoundTrip(date);
    Quotient(s, 60, hour * 60 + min, sec);
    Quotient(hour * 60 + min, 60, hour, min);
  }
}
