/** The proleptic Gregorian calendar behind JavaScript's Date.

    Days are numbered from 1 January 1970. A month is one integer, 12 * year + month with
    January as month 0, so that month arithmetic that carries over year ends is plain addition. */
module Calendar {

  predicate IsLeapYear(y: int) {
    y % 4 == 0 && (y % 100 != 0 || y % 400 == 0)
  }

  /** How many days month n has. */
  function MonthLength(n: int): (days: int)
    ensures 28 <= days <= 31
  {
    var m := n % 12;
    if m == 1 then (if IsLeapYear(n / 12) then 29 else 28)
    else if m == 3 || m == 5 || m == 8 || m == 10 then 30
    else 31
  }

  /** January 1970. */
  const EPOCH_MONTH := 12 * 1970

  /** The day number of the first day of month n, counted off month by month from the epoch. */
  function MonthStart(n: int): int
    decreases if n >= EPOCH_MONTH then n - EPOCH_MONTH else EPOCH_MONTH - n
  {
    if n == EPOCH_MONTH then 0
    else if n > EPOCH_MONTH then MonthStart(n - 1) + MonthLength(n - 1)
    else MonthStart(n + 1) - MonthLength(n)
  }

  lemma MonthStartStep(n: int)
    ensures MonthStart(n + 1) == MonthStart(n) + MonthLength(n)
  {
  }

  lemma {:induction false} MonthStartMonotone(a: int, b: int)
    requires a <= b
    ensures MonthStart(a) + 28 * (b - a) <= MonthStart(b)
    decreases b - a
  {
    if a < b {
      MonthStartStep(b - 1);
      MonthStartMonotone(a, b - 1);
    }
  }

  /** The month that holds day d, found by walking from month n. */
  function FindMonth(d: int, n: int): (month: int)
    ensures MonthStart(month) <= d < MonthStart(month + 1)
    decreases if d < MonthStart(n) then 1 else 0, if d < MonthStart(n) then MonthStart(n) - d else d - MonthStart(n)
  {
    hide MonthLength;
    MonthStartStep(n - 1);
    MonthStartStep(n);
    if d < MonthStart(n) then FindMonth(d, n - 1)
    else if MonthStart(n + 1) <= d then FindMonth(d, n + 1)
    else n
  }

  function MonthOf(d: int): (month: int)
    ensures MonthStart(month) <= d < MonthStart(month + 1)
  {
    FindMonth(d, EPOCH_MONTH)
  }

  /** MonthOf is the only month that holds the day, so it inverts MonthStart. */
  lemma MonthOfUnique(d: int, n: int)
    requires MonthStart(n) <= d < MonthStart(n + 1)
    ensures MonthOf(d) == n
  {
    var month := MonthOf(d);
    if month < n {
      MonthStartMonotone(month + 1, n);
    } else if n < month {
      MonthStartMonotone(n + 1, month);
    }
  }

  function DayOfMonth(d: int): (day: int)
    ensures 1 <= day <= MonthLength(MonthOf(d))
  {
    MonthStartStep(MonthOf(d));
    d - MonthStart(MonthOf(d)) + 1
  }

  /** A day of the month that exists reads back unchanged; one past the end rolls over. */
  lemma DayOfMonthRollover(n: int, day: int)
    requires 1 <= day <= 31
    ensures var d := MonthStart(n) + day - 1;
      if day <= MonthLength(n) then MonthOf(d) == n && DayOfMonth(d) == day
      else MonthOf(d) == n + 1 && DayOfMonth(d) == day - MonthLength(n)
  {
    var d := MonthStart(n) + day - 1;
    MonthStartStep(n);
    MonthStartStep(n + 1);
    MonthOfUnique(d, if day <= MonthLength(n) then n else n + 1);
  }

  /** No month is longer than its predecessor and shorter than its successor at once. */
  lemma MonthLengthsNeverRiseTwice(n: int)
    ensures !(MonthLength(n - 1) < MonthLength(n) < MonthLength(n + 1))
  {
    var m := n % 12;
    if m == 0 {
      assert (n - 1) % 12 == 11;
    } else {
      assert (n - 1) % 12 == m - 1;
    }
    assert m == 11 ==> (n + 1) % 12 == 0;
    assert m < 11 ==> (n + 1) % 12 == m + 1;
  }

  /** The closed form ECMA-262 gives for the day number of 1 January of year y. */
  function DayFromYear(y: int): int {
    365 * (y - 1970) + (y - 1969) / 4 - (y - 1901) / 100 + (y - 1601) / 400
  }

  /** How the three terms of the formula grow from one January to the next. */
  lemma FourYears(y: int)
    ensures (y - 1968) / 4 - (y - 1969) / 4 == if y % 4 == 0 then 1 else 0
  {
    assert (y - 1968) / 4 == y / 4 - 492;
  }

  lemma Century(y: int)
    ensures (y - 1900) / 100 - (y - 1901) / 100 == if y % 100 == 0 then 1 else 0
  {
    assert (y - 1900) / 100 == y / 100 - 19;
  }

  lemma FourCenturies(y: int)
    ensures (y - 1600) / 400 - (y - 1601) / 400 == if y % 400 == 0 then 1 else 0
  {
    assert (y - 1600) / 400 == y / 400 - 4;
  }

  lemma HundredsEndInZeros(y: int, k: int)
    requires y == 100 * k
    ensures y % 100 == 0
  {
  }

  lemma FoursAreMultiples(y: int, k: int)
    requires y == 4 * k
    ensures y % 4 == 0
  {
  }

  lemma LeapRulesNest(y: int)
    ensures y % 400 == 0 ==> y % 100 == 0
    ensures y % 100 == 0 ==> y % 4 == 0
  {
    if y % 400 == 0 {
      HundredsEndInZeros(y, 4 * (y / 400));
    }
    if y % 100 == 0 {
      FoursAreMultiples(y, 25 * (y / 100));
    }
  }

  lemma YearLength(y: int)
    ensures DayFromYear(y + 1) - DayFromYear(y) == if IsLeapYear(y) then 366 else 365
  {
    FourYears(y);
    Century(y);
    FourCenturies(y);
    LeapRulesNest(y);
  }

  /** Days of a year before each of its months, as a sum of table entries. */
  lemma {:induction false} WithinYear(y: int, m: int)
    requires 0 <= m <= 12
    ensures MonthStart(12 * y + m) == MonthStart(12 * y)
      + [0, 31, 59, 90, 120, 151, 181, 212, 243, 273, 304, 334, 365][m]
      + (if m >= 2 && IsLeapYear(y) then 1 else 0)
  {
    if m > 0 {
      WithinYear(y, m - 1);
      MonthStartStep(12 * y + m - 1);
      assert (12 * y + m - 1) / 12 == y && (12 * y + m - 1) % 12 == m - 1;
    }
  }

  /** Counting months off one by one meets ECMA-262's closed formula at every January. */
  lemma {:induction false} MonthStartIsDayFromYear(y: int)
    ensures MonthStart(12 * y) == DayFromYear(y)
    decreases if y >= 1970 then y - 1970 else 1970 - y
  {
    if y > 1970 {
      MonthStartIsDayFromYear(y - 1);
      WithinYear(y - 1, 12);
      YearLength(y - 1);
      assert 12 * (y - 1) + 12 == 12 * y;
    } else if y < 1970 {
      MonthStartIsDayFromYear(y + 1);
      WithinYear(y, 12);
      YearLength(y);
      assert 12 * y + 12 == 12 * (y + 1);
    }
  }
}
