/** JavaScript's Date in one local zone without daylight saving.

    An instant is an integer number of local milliseconds since 1 January 1970, 00:00. */
module JsDate {
  import opened Calendar

  const MS_PER_DAY := 86_400_000

  function Day(t: int): int { t / MS_PER_DAY }

  /** The month (12 * year + month) an instant falls in. */
  function LocalMonth(t: int): int { MonthOf(Day(t)) }

  function Year(t: int): int { LocalMonth(t) / 12 }

  function Month(t: int): int { LocalMonth(t) % 12 }

  function DateOf(t: int): int { DayOfMonth(Day(t)) }

  /** MakeDay of ECMA-262: the month carries into the year, the date overflows into later days. */
  function MakeDay(year: int, month: int, date: int): int {
    MonthStart(12 * (year + month / 12) + month % 12) + date - 1
  }

  /** A two-digit year given to the constructor means a year of the twentieth century. */
  predicate IsShortYear(year: int) { 0 <= year <= 99 }

  function FullYear(year: int): int {
    if IsShortYear(year) then 1900 + year else year
  }

  /** The instant of new Date(year, month, date, 0, 0, 0, 0). */
  function FromFields(year: int, month: int, date: int): int {
    MakeDay(FullYear(year), month, date) * MS_PER_DAY
  }

  /** What setMonth leaves behind (section 21.4.4.25 of ECMA-262): the day of the month is kept,
      so it may spill over into the month after the one asked for. */
  function WithMonth(t: int, month: int): int {
    MakeDay(Year(t), month, DateOf(t)) * MS_PER_DAY + t % MS_PER_DAY
  }

  /** What setDate leaves behind (section 21.4.4.20 of ECMA-262). */
  function WithDate(t: int, date: int): int {
    MakeDay(Year(t), Month(t), date) * MS_PER_DAY + t % MS_PER_DAY
  }

  /** The mutable Date object. */
  class Date {
    var time: int

    constructor (t: int)
      ensures time == t
    {
      time := t;
    }

    constructor Of(year: int, month: int, date: int)
      ensures time == FromFields(year, month, date)
    {
      time := FromFields(year, month, date);
    }

    method SetMonth(month: int)
      modifies this
      ensures time == WithMonth(old(time), month)
    {
      time := MakeDay(Year(time), month, DateOf(time)) * MS_PER_DAY + time % MS_PER_DAY;
    }

    method SetDate(date: int)
      modifies this
      ensures time == WithDate(old(time), date)
    {
      time := MakeDay(Year(time), Month(time), date) * MS_PER_DAY + time % MS_PER_DAY;
    }
  }

  /** The midnight that starts the given day of month n. */
  function Midnight(n: int, date: int): int {
    (MonthStart(n) + date - 1) * MS_PER_DAY
  }

  lemma MakeDayCarries(year: int, month: int, date: int)
    ensures MakeDay(year, month, date) == MonthStart(12 * year + month) + date - 1
  {
    assert 12 * (year + month / 12) + month % 12 == 12 * year + month;
  }

  lemma FromFieldsIsMidnight(year: int, month: int, date: int)
    ensures FromFields(year, month, date) == Midnight(12 * FullYear(year) + month, date)
  {
    MakeDayCarries(FullYear(year), month, date);
  }

  /** A midnight reads back as its month and day, or as a day of the next month past the end. */
  lemma MidnightFields(n: int, date: int)
    requires 1 <= date <= 31
    ensures Midnight(n, date) % MS_PER_DAY == 0 && Day(Midnight(n, date)) == MonthStart(n) + date - 1
    ensures date <= MonthLength(n) ==> LocalMonth(Midnight(n, date)) == n && DateOf(Midnight(n, date)) == date
    ensures date > MonthLength(n) ==> LocalMonth(Midnight(n, date)) == n + 1
  {
    hide MonthLength, MonthOf, DayOfMonth, MonthStart;
    WholeDays(MonthStart(n) + date - 1);
    DayOfMonthRollover(n, date);
  }

  lemma WholeDays(d: int)
    ensures d * MS_PER_DAY / MS_PER_DAY == d && d * MS_PER_DAY % MS_PER_DAY == 0
  {
  }

  /** setMonth on a midnight: the same day of the month, counted from the start of the month asked for. */
  lemma WithMonthMoves(n: int, date: int, back: int)
    requires 1 <= date <= MonthLength(n)
    ensures WithMonth(Midnight(n, date), n % 12 - back) == Midnight(n - back, date)
  {
    MidnightFields(n, date);
    MakeDayCarries(n / 12, n % 12 - back, date);
    assert 12 * (n / 12) + (n % 12 - back) == n - back;
  }

  /** setDate on a midnight stays in the month the midnight is in. */
  lemma WithDateMoves(t: int, date: int)
    requires t % MS_PER_DAY == 0
    ensures WithDate(t, date) == Midnight(LocalMonth(t), date)
  {
    MakeDayCarries(Year(t), Month(t), date);
    assert 12 * Year(t) + Month(t) == LocalMonth(t);
  }

  // ----- What the fields of any instant are -----

  /** The instant lies in the given day of month n, at whatever time of that day. */
  predicate IsOn(t: int, n: int, date: int) {
    1 <= date <= MonthLength(n) && Midnight(n, date) <= t < Midnight(n, date) + MS_PER_DAY
  }

  lemma DayHolds(t: int)
    ensures Day(t) * MS_PER_DAY <= t < (Day(t) + 1) * MS_PER_DAY
  {
  }

  /** Every instant is on the day that its fields name, at any time of day, and on no other. */
  lemma FieldsIff(t: int, n: int, date: int)
    ensures IsOn(t, n, date) <==> LocalMonth(t) == n && DateOf(t) == date
  {
    hide MonthLength, MonthStart, MonthOf, DayOfMonth;
    DayHolds(t);
    var d := MonthStart(n) + date - 1;
    if IsOn(t, n, date) {
      assert Day(t) == d;
      DayOfMonthRollover(n, date) by { assert 1 <= date <= 31 by { MonthLengthBounds(n); } }
    }
    if LocalMonth(t) == n && DateOf(t) == date {
      DayOfMonthIs(Day(t));
    }
  }

  lemma MonthLengthBounds(n: int)
    ensures 28 <= MonthLength(n) <= 31
  {
  }

  lemma DayOfMonthIs(d: int)
    ensures d == MonthStart(MonthOf(d)) + DayOfMonth(d) - 1 && 1 <= DayOfMonth(d) <= MonthLength(MonthOf(d))
  {
  }

  /** The n-th day after the start of a month that exists is a day of it; one past its end is a day of the next. */
  predicate IsOnOrSpills(t: int, n: int, date: int) {
    if date <= MonthLength(n) then IsOn(t, n, date) else IsOn(t, n + 1, date - MonthLength(n))
  }

  /** The instant `date` days into month n, at the time of day of t. */
  lemma MovedTo(t: int, n: int, date: int)
    requires 1 <= date <= 31
    ensures var t' := (MonthStart(n) + date - 1) * MS_PER_DAY + t % MS_PER_DAY;
      IsOnOrSpills(t', n, date) && t' % MS_PER_DAY == t % MS_PER_DAY
  {
    hide MonthLength, MonthStart;
    MonthLengthBounds(n);
    MonthLengthBounds(n + 1);
    MonthStartStep(n);
  }

  /** setMonth keeps the time of day and the day of the month, so a day that the month lacks spills into the next. */
  lemma SetMonthReadsBack(t: int, month: int)
    ensures var t' := WithMonth(t, month);
      IsOnOrSpills(t', 12 * Year(t) + month, DateOf(t)) && t' % MS_PER_DAY == t % MS_PER_DAY
  {
    hide MonthLength, MonthStart, MonthOf;
    MonthLengthBounds(LocalMonth(t));
    MakeDayCarries(Year(t), month, DateOf(t));
    MovedTo(t, 12 * Year(t) + month, DateOf(t));
  }

  /** setDate keeps the time of day and counts from the start of the month the Date is in. */
  lemma SetDateReadsBack(t: int, date: int)
    requires 1 <= date <= 31
    ensures var t' := WithDate(t, date); IsOnOrSpills(t', LocalMonth(t), date) && t' % MS_PER_DAY == t % MS_PER_DAY
  {
    hide MonthLength, MonthStart, MonthOf;
    MakeDayCarries(Year(t), Month(t), date);
    assert 12 * Year(t) + Month(t) == LocalMonth(t);
    MovedTo(t, LocalMonth(t), date);
  }

  /** The constructor's fields read back, but for a year of one or two digits, which gains 1900. */
  lemma FieldsReadBack(year: int, month: int, date: int)
    requires 0 <= month < 12 && 1 <= date <= MonthLength(12 * FullYear(year) + month)
    ensures var t := FromFields(year, month, date);
      && Year(t) == (if 0 <= year < 100 then 1900 + year else year) && Month(t) == month && DateOf(t) == date
      && t % MS_PER_DAY == 0
  {
    hide MonthLength, MonthStart, MonthOf, DayOfMonth;
    var n := 12 * FullYear(year) + month;
    MonthLengthBounds(n);
    FromFieldsIsMidnight(year, month, date);
    MidnightFields(n, date);
    assert n / 12 == FullYear(year) && n % 12 == month;
  }
}
