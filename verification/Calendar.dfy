/** Timestamps of the log (src-tauri/src/logger.rs): days since 1970-01-01 as calendar dates. */
module Calendar {

  datatype Date = Date(year: int, month: int, day: int)

  // ---------------------------------------------------------------- the proleptic Gregorian calendar

  predicate IsLeap(year: int) {
    year % 4 == 0 && (year % 100 != 0 || year % 400 == 0)
  }

  function DaysInMonth(year: int, month: int): int {
    if month == 2 then (if IsLeap(year) then 29 else 28)
    else if month in {4, 6, 9, 11} then 30
    else 31
  }

  predicate ValidDate(d: Date) {
    1 <= d.month <= 12 && 1 <= d.day <= DaysInMonth(d.year, d.month)
  }

  function NextDay(d: Date): Date {
    if d.day < DaysInMonth(d.year, d.month) then Date(d.year, d.month, d.day + 1)
    else if d.month < 12 then Date(d.year, d.month + 1, 1)
    else Date(d.year + 1, 1, 1)
  }

  function PreviousDay(d: Date): Date {
    if d.day > 1 then Date(d.year, d.month, d.day - 1)
    else if d.month > 1 then Date(d.year, d.month - 1, DaysInMonth(d.year, d.month - 1))
    else Date(d.year - 1, 12, 31)
  }

  /** The date `z` days after 1970-01-01, counted one day at a time. */
  function DateOfDay(z: int): Date
    decreases if z < 0 then -z else z
  {
    if z == 0 then Date(1970, 1, 1)
    else if z > 0 then NextDay(DateOfDay(z - 1))
    else PreviousDay(DateOfDay(z + 1))
  }

  // ---------------------------------------------------------------- the arithmetic of the source

  /** Rust's `/` on integers: the quotient is rounded toward zero. */
  function Quotient(a: int, b: int): int
    requires b > 0
  {
    if a >= 0 then a / b else -(-a / b)
  }

  function EraOf(z: int): int {
    Quotient(if z >= 0 then z else z - 146_096, 146_097)
  }

  /** The era's quotient rounds down: what remains is a day of the era. */
  lemma EraRemainder(z: int)
    ensures EraOf(z) == z / 146_097 && 0 <= z - EraOf(z) * 146_097 < 146_097
  {
    if z < 0 {
      var q, r := z / 146_097, z % 146_097;
      assert 146_096 - z == 146_097 * -q + (146_096 - r);
      assert (146_096 - z) / 146_097 == -q;
    }
  }

  // From here on no operand is negative, so that rounding toward zero is rounding down.

  function YearOfEra(doe: nat): int {
    (doe - doe / 1460 + doe / 36_524 - doe / 146_096) / 365
  }

  /** Month and day of day `doy` of the year that starts on March 1st of `year`. */
  function DateInYear(year: int, doy: nat): Date {
    var mp := (5 * doy + 2) / 153;
    var d := doy - (153 * mp + 2) / 5 + 1;
    var m := if mp < 10 then mp + 3 else mp - 9;
    Date(if m <= 2 then year + 1 else year, m, d)
  }

  function CivilFromDays(days: int): Date {
    var z := days + 719_468;
    EraRemainder(z);
    var era := EraOf(z);
    var doe: nat := z - era * 146_097;
    YearBrackets(doe);
    var yoe := YearOfEra(doe);
    DateInYear(yoe + era * 400, doe - (365 * yoe + yoe / 4 - yoe / 100))
  }

  // ---------------------------------------------------------------- years of an era

  /** The day of a 400-year era, starting on March 1st, on which its year `y` starts. */
  function YearStart(y: nat): nat {
    if y >= 400 then 146_097 else 365 * y + y / 4 - y / 100
  }

  /** The division by the shortened years finds the year the day lies in. */
  lemma YearBrackets(doe: nat)
    requires doe < 146_097
    ensures 0 <= YearOfEra(doe) < 400
    ensures YearStart(YearOfEra(doe)) <= doe < YearStart(YearOfEra(doe) + 1) <= YearStart(YearOfEra(doe)) + 366
  {
    // century, four-year block, year and day
    var a := if doe == 146_096 then 3 else doe / 36_524;
    var r := doe - 36_524 * a;
    var g := r / 1461;
    var s := r - 1461 * g;
    var h := if s == 1460 then 3 else s / 365;
    YearFound(doe, a, g, h, s - 365 * h);
    YearStartAt(a, g, h);
    if h < 3 {
      YearStartAt(a, g, h + 1);
    } else if g < 24 {
      YearStartAt(a, g + 1, 0);
    } else if a < 3 {
      YearStartAt(a + 1, 0, 0);
    }
  }

  lemma YearStartAt(a: nat, g: nat, h: nat)
    requires a < 4 && g < 25 && h < 4
    ensures YearStart(100 * a + 4 * g + h) == 36_524 * a + 1461 * g + 365 * h
  {
    var y := 100 * a + 4 * g + h;
    assert y / 4 == 25 * a + g && y / 100 == a;
  }

  lemma YearFound(doe: nat, a: nat, g: nat, h: nat, e: nat)
    requires a < 4 && g < 25 && h < 4 && doe == 36_524 * a + 1461 * g + 365 * h + e
    requires e < 365 || (e == 365 && h == 3 && (g < 24 || a == 3))
    ensures YearOfEra(doe) == 100 * a + 4 * g + h
  {
    var k := if 24 * a + g + 365 * h + e >= 1460 then 1 else 0;
    assert doe / 1460 == 25 * a + g + k;
    assert doe / 36_524 == if doe == 146_096 then 4 else a;
    assert doe / 146_096 == if doe == 146_096 then 1 else 0;
    assert 0 <= e - k <= 364;
  }

  lemma LeapInEra(era: int, y: nat)
    requires y < 400
    ensures IsLeap(400 * era + y + 1) <==> (y + 1) % 4 == 0 && ((y + 1) % 100 != 0 || y == 399)
  {
    var year := 400 * era + (y + 1);
    assert year % 4 == (y + 1) % 4;
    assert year % 100 == (y + 1) % 100;
    assert year % 400 == (y + 1) % 400;
  }

  lemma YearLengthInEra(era: int, y: nat)
    requires y < 400
    ensures YearStart(y + 1) == YearStart(y) + (if IsLeap(400 * era + y + 1) then 366 else 365)
  {
    LeapInEra(era, y);
    var leap := IsLeap(400 * era + y + 1);
    assert (y + 1) / 4 == y / 4 + (if (y + 1) % 4 == 0 then 1 else 0);
    assert (y + 1) / 100 == y / 100 + (if (y + 1) % 100 == 0 then 1 else 0);
    assert (y + 1) % 100 == 0 ==> (y + 1) % 4 == 0;
  }

  lemma {:induction false} YearStartsOrdered(y: nat, later: nat)
    requires y <= later <= 400
    ensures YearStart(y) <= YearStart(later) <= 146_097
    decreases later - y
  {
    if y < later {
      YearLengthInEra(0, later - 1);
      YearStartsOrdered(y, later - 1);
    } else {
      assert y / 4 <= 100 && y / 100 >= y / 4 / 25;
    }
  }

  // ---------------------------------------------------------------- why it is the calendar

  /** Day `days` after 1970-01-01 is day `doy` of year `y` of era `era`. */
  predicate At(days: int, era: int, y: int, doy: int) {
    && 0 <= y < 400 && 0 <= doy && YearStart(y) + doy < YearStart(y + 1)
    && days + 719_468 == 146_097 * era + YearStart(y) + doy
  }

  lemma AtUnique(days: int, era: int, y: int, doy: int, era': int, y': int, doy': int)
    requires At(days, era, y, doy) && At(days, era', y', doy')
    ensures era == era' && y == y' && doy == doy'
  {
    YearStartsOrdered(y + 1, 400);
    YearStartsOrdered(y' + 1, 400);
    var low: nat, high: nat := if y < y' then y + 1 else y' + 1, if y < y' then y' else y;
    if low <= high {
      YearStartsOrdered(low, high);
    }
  }

  lemma AtNext(days: int, era: int, y: int, doy: int) returns (era': int, y': int, doy': int)
    requires At(days, era, y, doy)
    ensures At(days + 1, era', y', doy')
    ensures if doy == 365 || (doy == 364 && !IsLeap(400 * era + y + 1))
            then 400 * era' + y' == 400 * era + y + 1 && doy' == 0
            else era' == era && y' == y && doy' == doy + 1
    ensures doy <= 365 && (doy == 365 ==> IsLeap(400 * era + y + 1))
  {
    YearLengthInEra(era, y);
    if YearStart(y) + doy + 1 < YearStart(y + 1) {
      era', y', doy' := era, y, doy + 1;
    } else if y < 399 {
      era', y', doy' := era, y + 1, 0;
      YearLengthInEra(era, y + 1);
    } else {
      era', y', doy' := era + 1, 0, 0;
    }
  }

  lemma CivilInYear(days: int, doe: nat, y: nat)
    requires doe == days + 719_468 - EraOf(days + 719_468) * 146_097 < 146_097
    requires y == YearOfEra(doe) < 400 && YearStart(y) <= doe
    ensures CivilFromDays(days) == DateInYear(400 * EraOf(days + 719_468) + y, doe - YearStart(y))
  {
  }

  lemma Located(days: int) returns (era: int, y: int, doy: nat)
    ensures At(days, era, y, doy) && CivilFromDays(days) == DateInYear(400 * era + y, doy)
  {
    var z := days + 719_468;
    EraRemainder(z);
    var doe: nat := z - EraOf(z) * 146_097;
    YearBrackets(doe);
    CivilInYear(days, doe, YearOfEra(doe));
    era, y, doy := EraOf(z), YearOfEra(doe), doe - YearStart(YearOfEra(doe));
    FoundAt(days, era, y, doe);
  }

  lemma FoundAt(days: int, era: int, y: nat, doe: nat)
    requires doe == days + 719_468 - era * 146_097 && y < 400 && YearStart(y) <= doe < YearStart(y + 1)
    ensures At(days, era, y, doe - YearStart(y))
  {
  }

  /** The day of the year, counted from March 1st, on which month `mp` after March begins. */
  function MonthStart(mp: nat): nat {
    (153 * mp + 2) / 5
  }

  /** Every month but the last is as long as its month in the calendar. */
  lemma MonthLength(year: int, mp: nat)
    requires mp < 11
    ensures var m := if mp < 10 then mp + 3 else mp - 9;
            MonthStart(mp + 1) - MonthStart(mp) == DaysInMonth(if m <= 2 then year + 1 else year, m)
  {
    assert mp == 0 || mp == 1 || mp == 2 || mp == 3 || mp == 4 || mp == 5 || mp == 6 || mp == 7
      || mp == 8 || mp == 9 || mp == 10;
  }

  lemma MonthOfDay(doy: nat, mp: nat)
    requires mp < 12 && MonthStart(mp) <= doy < MonthStart(mp + 1)
    ensures (5 * doy + 2) / 153 == mp
  {
    assert 5 * MonthStart(mp) <= 153 * mp + 2 < 5 * MonthStart(mp) + 5;
    assert 5 * MonthStart(mp + 1) <= 153 * mp + 155 < 5 * MonthStart(mp + 1) + 5;
    assert 153 * mp <= 5 * doy + 2 < 153 * (mp + 1);
  }

  lemma DayIsInMonth(doy: nat)
    requires doy < 366
    ensures var mp := (5 * doy + 2) / 153; mp < 12 && MonthStart(mp) <= doy < MonthStart(mp + 1)
  {
    var mp := (5 * doy + 2) / 153;
    assert 153 * mp <= 5 * doy + 2 < 153 * mp + 153;
    assert 5 * MonthStart(mp) <= 153 * mp + 2 < 5 * MonthStart(mp) + 5;
    assert 5 * MonthStart(mp + 1) <= 153 * mp + 155 < 5 * MonthStart(mp + 1) + 5;
  }

  /** Within one such year the next day of the year is the next date. */
  lemma NextInYear(year: int, doy: nat)
    requires doy < 364 || (doy == 364 && IsLeap(year + 1))
    ensures ValidDate(DateInYear(year, doy))
    ensures DateInYear(year, doy + 1) == NextDay(DateInYear(year, doy))
  {
    var mp := (5 * doy + 2) / 153;
    DayIsInMonth(doy);
    if mp < 11 {
      MonthLength(year, mp);
    }
    if doy + 1 < MonthStart(mp + 1) {
      MonthOfDay(doy + 1, mp);
    } else {
      MonthOfDay(doy + 1, mp + 1);
    }
  }

  lemma LastOfYear(year: int, doy: nat)
    requires doy == if IsLeap(year + 1) then 365 else 364
    ensures ValidDate(DateInYear(year, doy))
    ensures NextDay(DateInYear(year, doy)) == DateInYear(year + 1, 0) == Date(year + 1, 3, 1)
  {
  }

  /** The next position is the next date. */
  lemma NextPosition(days: int, era: int, y: int, doy: int, era': int, y': int, doy': int)
    requires At(days, era, y, doy) && At(days + 1, era', y', doy')
    ensures ValidDate(DateInYear(400 * era + y, doy))
    ensures DateInYear(400 * era' + y', doy') == NextDay(DateInYear(400 * era + y, doy))
  {
    var e, k, d := AtNext(days, era, y, doy);
    AtUnique(days + 1, era', y', doy', e, k, d);
    if d == 0 {
      LastOfYear(400 * era + y, doy);
    } else {
      NextInYear(400 * era + y, doy);
    }
  }

  lemma PreviousUndoesNext(d: Date)
    requires ValidDate(d)
    ensures ValidDate(NextDay(d)) && PreviousDay(NextDay(d)) == d
  {
  }

  lemma NextUndoesPrevious(d: Date)
    requires ValidDate(d)
    ensures ValidDate(PreviousDay(d)) && NextDay(PreviousDay(d)) == d
  {
  }

  /** Counting day by day reaches the date of the position. */
  lemma {:induction false} CalendarAt(days: int, era: int, y: int, doy: int)
    requires At(days, era, y, doy)
    ensures DateOfDay(days) == DateInYear(400 * era + y, doy)
    decreases if days < 0 then -days else days
  {
    if days == 0 {
      assert At(0, 4, 369, 306);
      AtUnique(0, era, y, doy, 4, 369, 306);
    } else if days > 0 {
      var e, k, d := Located(days - 1);
      CalendarAt(days - 1, e, k, d);
      NextPosition(days - 1, e, k, d, era, y, doy);
    } else {
      var e, k, d := AtNext(days, era, y, doy);
      CalendarAt(days + 1, e, k, d);
      NextPosition(days, era, y, doy, e, k, d);
      PreviousUndoesNext(DateInYear(400 * era + y, doy));
    }
  }

  /** For every integer, the source's arithmetic is the calendar counted day by day from 1970-01-01. */
  lemma CivilIsCalendar(days: int)
    ensures CivilFromDays(days) == DateOfDay(days)
  {
    var era, y, doy := Located(days);
    CalendarAt(days, era, y, doy);
  }

  // ---------------------------------------------------------------- the inverse

  function DaysBeforeMonth(year: int, month: int): int
    requires 1 <= month <= 12
  {
    if month == 1 then 0 else DaysBeforeMonth(year, month - 1) + DaysInMonth(year, month - 1)
  }

  /** Days from 0001-01-01 to the start of `year`; `/` rounds down here. */
  function DaysBeforeYear(year: int): int {
    365 * (year - 1) + (year - 1) / 4 - (year - 1) / 100 + (year - 1) / 400
  }

  /** How many days a date lies after 1970-01-01, by counting whole years and months. */
  function DayNumber(d: Date): int
    requires 1 <= d.month <= 12
  {
    DaysBeforeYear(d.year) + DaysBeforeMonth(d.year, d.month) + d.day - 1 - 719_162
  }

  lemma MonthStarts(year: int)
    ensures DaysBeforeMonth(year, 12) == (if IsLeap(year) then 335 else 334)
    ensures forall m | 1 <= m <= 12 :: 0 <= DaysBeforeMonth(year, m) <= DaysBeforeMonth(year, 12)
  {
    assert DaysBeforeMonth(year, 2) == 31;
    assert DaysBeforeMonth(year, 3) == (if IsLeap(year) then 60 else 59);
    assert DaysBeforeMonth(year, 5) == DaysBeforeMonth(year, 3) + 61;
    assert DaysBeforeMonth(year, 7) == DaysBeforeMonth(year, 5) + 61;
    assert DaysBeforeMonth(year, 9) == DaysBeforeMonth(year, 7) + 62;
    assert DaysBeforeMonth(year, 11) == DaysBeforeMonth(year, 9) + 61;
  }

  lemma DivisionStep(year: int)
    ensures year / 4 == (year - 1) / 4 + (if year % 4 == 0 then 1 else 0)
    ensures year / 100 == (year - 1) / 100 + (if year % 100 == 0 then 1 else 0)
    ensures year / 400 == (year - 1) / 400 + (if year % 400 == 0 then 1 else 0)
  {
  }

  lemma CenturiesAreFourYears(year: int)
    ensures year % 400 == 0 ==> year % 100 == 0
    ensures year % 100 == 0 ==> year % 4 == 0
  {
    if year % 400 == 0 {
      MultipleOfHundred(4 * (year / 400));
      assert year == 100 * (4 * (year / 400));
    }
    if year % 100 == 0 {
      MultipleOfFour(25 * (year / 100));
      assert year == 4 * (25 * (year / 100));
    }
  }

  lemma MultipleOfHundred(k: int)
    ensures 100 * k % 100 == 0
  {
  }

  lemma MultipleOfFour(k: int)
    ensures 4 * k % 4 == 0
  {
  }

  lemma YearLength(year: int)
    ensures DaysBeforeYear(year + 1) == DaysBeforeYear(year) + (if IsLeap(year) then 366 else 365)
  {
    DivisionStep(year);
    CenturiesAreFourYears(year);
    var q4, q100, q400 := year / 4, year / 100, year / 400;
    assert DaysBeforeYear(year + 1) == 365 * year + q4 - q100 + q400;
  }

  lemma NumberOfNextDay(d: Date)
    requires ValidDate(d)
    ensures 1 <= NextDay(d).month <= 12 && DayNumber(NextDay(d)) == DayNumber(d) + 1
  {
    if d.month == 12 && d.day == 31 {
      MonthStarts(d.year);
      YearLength(d.year);
    }
  }

  /** Counting day by day and counting whole years and months give the same number. */
  lemma {:induction false} NumberOfDay(days: int)
    ensures ValidDate(DateOfDay(days)) && DayNumber(DateOfDay(days)) == days
    decreases if days < 0 then -days else days
  {
    if days > 0 {
      NumberOfDay(days - 1);
      PreviousUndoesNext(DateOfDay(days - 1));
      NumberOfNextDay(DateOfDay(days - 1));
    } else if days < 0 {
      NumberOfDay(days + 1);
      NextUndoesPrevious(DateOfDay(days + 1));
      NumberOfNextDay(DateOfDay(days));
    }
  }

  lemma {:induction false} YearsOrdered(y: int, later: int)
    requires y < later
    ensures DaysBeforeYear(y) + (if IsLeap(y) then 366 else 365) <= DaysBeforeYear(later)
    decreases later - y
  {
    YearLength(later - 1);
    if y < later - 1 {
      YearsOrdered(y, later - 1);
    }
  }

  lemma DaysWithinYear(d: Date)
    requires ValidDate(d)
    ensures 0 <= DayNumber(d) + 719_162 - DaysBeforeYear(d.year) < (if IsLeap(d.year) then 366 else 365)
  {
    MonthStarts(d.year);
    MonthsOrdered(d.year, d.month, 12);
  }

  lemma {:induction false} MonthsOrdered(year: int, m: int, later: int)
    requires 1 <= m <= later <= 12
    ensures DaysBeforeMonth(year, m) <= DaysBeforeMonth(year, later)
    ensures m < later ==> DaysBeforeMonth(year, m) + DaysInMonth(year, m) <= DaysBeforeMonth(year, later)
    decreases later - m
  {
    if m < later {
      MonthsOrdered(year, m, later - 1);
    }
  }

  /** Two valid dates with the same number are the same date. */
  lemma NumberDeterminesDate(d: Date, e: Date)
    requires ValidDate(d) && ValidDate(e) && DayNumber(d) == DayNumber(e)
    ensures d == e
  {
    DaysWithinYear(d);
    DaysWithinYear(e);
    if d.year < e.year {
      YearsOrdered(d.year, e.year);
    } else if e.year < d.year {
      YearsOrdered(e.year, d.year);
    } else if d.month < e.month {
      MonthsOrdered(d.year, d.month, e.month);
    } else if e.month < d.month {
      MonthsOrdered(d.year, e.month, d.month);
    }
  }

  /** Every valid date of the calendar is the source's date of exactly one day. */
  lemma CivilReachesEveryDate(d: Date, days: int)
    requires ValidDate(d)
    ensures CivilFromDays(days) == d <==> days == DayNumber(d)
  {
    CivilIsCalendar(days);
    CivilIsCalendar(DayNumber(d));
    NumberOfDay(days);
    NumberOfDay(DayNumber(d));
    NumberDeterminesDate(d, DateOfDay(DayNumber(d)));
  }
}
