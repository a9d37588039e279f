/** Billing periods (quota-policy.ts): the clamped monthly calendar of a billing anchor, what the
    rollover arithmetic of the source really computes, and exactly when the two agree. */
module QuotaPolicy {
  import opened Calendar
  import opened JsDate
  import opened Wrappers

  /** The half-open interval [start, end) of instants. */
  datatype BillingPeriod = BillingPeriod(start: int, end: int) {
    predicate Contains(t: int) {
      start <= t < end
    }

    predicate Overlaps(other: BillingPeriod) {
      start < other.end && other.start < end && start < end && other.start < other.end
    }
  }

  predicate IsExceeded(quota: Option<int>, usage: int) {
    quota.Some? && usage >= quota.value
  }

  function Min(a: int, b: int): int { if a <= b then a else b }

  // ----- What the documentation promises: one boundary a month, on the clamped anchor day -----

  /** The boundary of month n: local midnight of the anchor day, or of the last day if n is too short. */
  function Boundary(n: int, anchorDay: int): int {
    Midnight(n, Min(anchorDay, MonthLength(n)))
  }

  /** The index of the last boundary at or before now. */
  function StartMonth(anchorDay: int, now: int): int {
    var n := LocalMonth(now);
    if now < Boundary(n, anchorDay) then n - 1 else n
  }

  function BetweenBoundaries(i: int, anchorDay: int): BillingPeriod {
    BillingPeriod(Boundary(i, anchorDay), Boundary(i + 1, anchorDay))
  }

  /** The period between two consecutive boundaries that holds now. */
  function TruePeriod(anchorDay: int, now: int): BillingPeriod {
    BetweenBoundaries(StartMonth(anchorDay, now), anchorDay)
  }

  lemma {:induction false} BoundaryMonotone(a: int, b: int, anchorDay: int)
    requires 1 <= anchorDay <= 31 && a < b
    ensures Boundary(a, anchorDay) < Boundary(b, anchorDay)
    decreases b - a
  {
    MonthStartStep(b - 1);
    if a < b - 1 {
      BoundaryMonotone(a, b - 1, anchorDay);
    }
  }

  /** Where now lies in its month, in milliseconds. */
  lemma LocalMonthBounds(now: int)
    ensures MonthStart(LocalMonth(now)) * MS_PER_DAY <= now < MonthStart(LocalMonth(now) + 1) * MS_PER_DAY
  {
  }

  lemma BoundaryInMonth(n: int, anchorDay: int)
    requires 1 <= anchorDay <= 31
    ensures MonthStart(n) * MS_PER_DAY <= Boundary(n, anchorDay) < MonthStart(n + 1) * MS_PER_DAY
    ensures LocalMonth(Boundary(n, anchorDay)) == n
    ensures DateOf(Boundary(n, anchorDay)) == Min(anchorDay, MonthLength(n))
  {
    MonthStartStep(n);
    MidnightFields(n, Min(anchorDay, MonthLength(n)));
  }

  lemma AnchorDayRange(billingAnchor: int)
    ensures 1 <= DateOf(billingAnchor) <= 31
  {
  }

  lemma MonthsFollowTime(t: int, u: int)
    requires t <= u
    ensures LocalMonth(t) <= LocalMonth(u)
  {
    if LocalMonth(u) < LocalMonth(t) {
      LocalMonthBounds(t);
      LocalMonthBounds(u);
      MonthStartMonotone(LocalMonth(u) + 1, LocalMonth(t));
    }
  }

  lemma TruePeriodContains(anchorDay: int, now: int)
    requires 1 <= anchorDay <= 31
    ensures TruePeriod(anchorDay, now).Contains(now)
  {
    hide LocalMonth, Boundary, DateOf, MonthStart, MonthLength, Day, Midnight;
    var n := LocalMonth(now);
    LocalMonthBounds(now);
    BoundaryInMonth(n - 1, anchorDay);
    BoundaryInMonth(n + 1, anchorDay);
  }

  lemma BoundariesTile(i: int, j: int, anchorDay: int)
    requires 1 <= anchorDay <= 31
    ensures i == j || !BetweenBoundaries(i, anchorDay).Overlaps(BetweenBoundaries(j, anchorDay))
  {
    if i + 1 < j {
      BoundaryMonotone(i + 1, j, anchorDay);
    } else if j + 1 < i {
      BoundaryMonotone(j + 1, i, anchorDay);
    }
  }

  /** For every anchor day the true periods cut time into pieces: two of them are the same or apart. */
  lemma TruePeriodsTile(anchorDay: int, t: int, u: int)
    requires 1 <= anchorDay <= 31
    ensures TruePeriod(anchorDay, t) == TruePeriod(anchorDay, u) || !TruePeriod(anchorDay, t).Overlaps(TruePeriod(anchorDay, u))
  {
    BoundariesTile(StartMonth(anchorDay, t), StartMonth(anchorDay, u), anchorDay);
  }

  /** The next period starts exactly where a period ends. */
  lemma TruePeriodsMeet(anchorDay: int, t: int)
    requires 1 <= anchorDay <= 31
    ensures TruePeriod(anchorDay, TruePeriod(anchorDay, t).end).start == TruePeriod(anchorDay, t).end
  {
    BoundaryInMonth(StartMonth(anchorDay, t) + 1, anchorDay);
  }

  // ----- What the source computes -----

  /** The smaller of day and the last day of the month, read off the zeroth day of the next month. */
  function ClampDayToMonth(day: int, year: int, month: int): int {
    Min(day, DateOf(FromFields(year, month + 1, 0)))
  }

  lemma ClampDayIsMin(day: int, year: int, month: int)
    ensures ClampDayToMonth(day, year, month) == Min(day, MonthLength(12 * FullYear(year) + month))
  {
    var n := 12 * FullYear(year) + month;
    FromFieldsIsMidnight(year, month + 1, 0);
    MonthStartStep(n);
    assert Midnight(n + 1, 0) == Midnight(n, MonthLength(n));
    MidnightFields(n, MonthLength(n));
  }

  /** The month the source works in: that of now, displaced by 1900 years when now has a short year. */
  function WorkMonth(now: int): int {
    12 * FullYear(Year(now)) + Month(now)
  }

  /** The period the source computes, boundary by boundary. */
  function ComputedPeriod(anchorDay: int, now: int): BillingPeriod {
    PeriodAround(WorkMonth(now), anchorDay, now)
  }

  function PeriodAround(n: int, anchorDay: int, now: int): BillingPeriod {
    if now >= Boundary(n, anchorDay) then BetweenBoundaries(n, anchorDay)
    else
      BillingPeriod(
        if Min(anchorDay, MonthLength(n)) > MonthLength(n - 1) then Boundary(n, anchorDay) else Boundary(n - 1, anchorDay),
        if Min(anchorDay, MonthLength(n + 1)) > MonthLength(n) then Boundary(n + 1, anchorDay) else Boundary(n, anchorDay))
  }

  /** The two assignments of the source's fallback: one month back, then the clamped day again. */
  function RolledBack(t: int, anchorDay: int): int {
    var moved := WithMonth(t, Month(t) - 1);
    WithDate(moved, ClampDayToMonth(anchorDay, Year(moved), Month(moved)))
  }

  /** Clamping the day within a date's own month yields that month's boundary. The year is read back as a
      constructor argument, so a short year looks at another century; December, of year 99, is as long in both. */
  lemma ClampWithinMonth(t: int, anchorDay: int)
    requires t % MS_PER_DAY == 0
    requires !IsShortYear(Year(t)) || LocalMonth(t) == 12 * 99 + 11
    ensures WithDate(t, ClampDayToMonth(anchorDay, Year(t), Month(t))) == Boundary(LocalMonth(t), anchorDay)
  {
    ClampDayIsMin(anchorDay, Year(t), Month(t));
    DecembersAlike(LocalMonth(t));
    WithDateMoves(t, Min(anchorDay, MonthLength(LocalMonth(t))));
  }

  lemma DecembersAlike(n: int)
    requires !IsShortYear(n / 12) || n == 12 * 99 + 11
    ensures MonthLength(12 * FullYear(n / 12) + n % 12) == MonthLength(n)
  {
  }

  /** The first move: the same day of the month before, past its end if it has no such day. */
  lemma MovedBack(n: int, day: int)
    requires 1 <= day <= MonthLength(n)
    ensures var t := Midnight(n, day); WithMonth(t, Month(t) - 1) == Midnight(n - 1, day)
  {
    MidnightFields(n, day);
    WithMonthMoves(n, day, 1);
  }

  /** Where that lands: in the month before, or back in the month it came from. */
  lemma MovedMonth(n: int, day: int)
    requires 1 <= day <= MonthLength(n)
    ensures var t := Midnight(n - 1, day);
      t % MS_PER_DAY == 0 && LocalMonth(t) == if day > MonthLength(n - 1) then n else n - 1
  {
    MidnightFields(n - 1, day);
  }

  lemma YearOfMovedMonth(n: int, m: int)
    requires n == 0 || !IsShortYear(n / 12)
    requires m == n - 1 || (m == n && n != 0)
    ensures !IsShortYear(m / 12) || m == 12 * 99 + 11
  {
  }

  /** December is as long as January, so from January the first move never spills. */
  lemma JanuaryStepsBack(n: int)
    requires n % 12 == 0
    ensures MonthLength(n) == MonthLength(n - 1) == 31
  {
    assert (n - 1) % 12 == 11;
  }

  /** Moving a boundary one month back and clamping its day again reaches the previous boundary,
      unless the first of the two moves spilled back into the month it came from. */
  lemma StepBack(n: int, anchorDay: int)
    requires 1 <= anchorDay <= 31
    requires n == 0 || !IsShortYear(n / 12)
    ensures RolledBack(Boundary(n, anchorDay), anchorDay)
      == Boundary(if Min(anchorDay, MonthLength(n)) > MonthLength(n - 1) then n else n - 1, anchorDay)
  {
    hide WithMonth, WithDate, Midnight, ClampDayToMonth, MonthLength;
    var day := Min(anchorDay, MonthLength(n));
    var m := if day > MonthLength(n - 1) then n else n - 1;
    MovedBack(n, day);
    MovedMonth(n, day);
    if n == 0 {
      JanuaryStepsBack(n);
    }
    YearOfMovedMonth(n, m);
    ClampWithinMonth(Midnight(n - 1, day), anchorDay);
  }

  /** What the source's two branches make of the two boundaries it starts from. */
  lemma StepBackBoth(n: int, anchorDay: int, now: int)
    requires 1 <= anchorDay <= 31 && !IsShortYear(n / 12)
    ensures PeriodAround(n, anchorDay, now) == PeriodFrom(Boundary(n, anchorDay), Boundary(n + 1, anchorDay), anchorDay, now)
  {
    hide RolledBack, Boundary, MonthLength;
    StepBack(n, anchorDay);
    StepBack(n + 1, anchorDay);
  }

  function PeriodFrom(start: int, end: int, anchorDay: int, now: int): BillingPeriod {
    if now < start then BillingPeriod(RolledBack(start, anchorDay), RolledBack(end, anchorDay)) else BillingPeriod(start, end)
  }

  lemma WorkYear(now: int)
    ensures !IsShortYear(WorkMonth(now) / 12)
  {
    assert WorkMonth(now) / 12 == FullYear(Year(now));
  }

  lemma FieldsGivePeriod(anchorDay: int, now: int)
    requires 1 <= anchorDay <= 31
    ensures var year, month := Year(now), Month(now);
      PeriodFrom(
        FromFields(year, month, ClampDayToMonth(anchorDay, year, month)),
        FromFields(year, month + 1, ClampDayToMonth(anchorDay, year, month + 1)), anchorDay, now)
      == ComputedPeriod(anchorDay, now)
  {
    hide RolledBack, Boundary, FromFields, ClampDayToMonth;
    BoundaryFromFields(anchorDay, Year(now), Month(now));
    BoundaryFromFields(anchorDay, Year(now), Month(now) + 1);
    WorkYear(now);
    StepBackBoth(WorkMonth(now), anchorDay, now);
  }

  /** The anchor counts by the day it is on: whatever the time of that day, the period is the one of its day of the month. */
  method ComputeCurrentBillingPeriod(billingAnchor: int, now: int) returns (period: BillingPeriod)
    ensures period == ComputedPeriod(DateOf(billingAnchor), now)
    ensures forall n, day :: IsOn(billingAnchor, n, day) ==> period == ComputedPeriod(day, now)
  {
    hide FromFields, WithMonth, WithDate, ClampDayToMonth, ComputedPeriod, Year, Month, DateOf, IsOn;
    AnchorDayRange(billingAnchor);
    forall n, day | IsOn(billingAnchor, n, day) ensures DateOf(billingAnchor) == day {
      FieldsIff(billingAnchor, n, day);
    }
    var anchor := new Date(billingAnchor);
    var year, month := Year(now), Month(now);
    var anchorDay := DateOf(anchor.time);
    var startDay := ClampDayToMonth(anchorDay, year, month);
    var endDay := ClampDayToMonth(anchorDay, year, month + 1);
    var start := new Date.Of(year, month, startDay);
    var end := new Date.Of(year, month + 1, endDay);
    FieldsGivePeriod(anchorDay, now);
    if now < start.time {
      start.SetMonth(Month(start.time) - 1);
      start.SetDate(ClampDayToMonth(anchorDay, Year(start.time), Month(start.time)));
      end.SetMonth(Month(end.time) - 1);
      end.SetDate(ClampDayToMonth(anchorDay, Year(end.time), Month(end.time)));
    }
    period := BillingPeriod(start.time, end.time);
  }

  lemma BoundaryFromFields(anchorDay: int, year: int, month: int)
    ensures FromFields(year, month, ClampDayToMonth(anchorDay, year, month)) == Boundary(12 * FullYear(year) + month, anchorDay)
  {
    ClampDayIsMin(anchorDay, year, month);
    FromFieldsIsMidnight(year, month, ClampDayToMonth(anchorDay, year, month));
  }

  /** An anchor stamped at any time of a day bills as one stamped at that day's midnight: the same periods for ever. */
  lemma AnchorTimeOfDayIsIrrelevant(billingAnchor: int, n: int, day: int, now: int)
    requires IsOn(billingAnchor, n, day)
    ensures ComputedPeriod(DateOf(billingAnchor), now) == ComputedPeriod(DateOf(Midnight(n, day)), now)
    ensures DateOf(billingAnchor) == day && IsOn(billingAnchor, LocalMonth(billingAnchor), DateOf(billingAnchor))
  {
    hide ComputedPeriod;
    FieldsIff(billingAnchor, n, day);
    FieldsIff(Midnight(n, day), n, day);
  }

  // ----- When the two agree -----

  /** The clamped day of this month does not exist in the previous month, and now precedes it:
      the source returns an empty period. */
  predicate IsEmptied(anchorDay: int, now: int) {
    var n := LocalMonth(now);
    now < Boundary(n, anchorDay) && Min(anchorDay, MonthLength(n)) > MonthLength(n - 1)
  }

  /** The clamped day of next month does not exist in this month, and now precedes this month's:
      the source returns a period that ends one boundary late. */
  predicate IsStretched(anchorDay: int, now: int) {
    var n := LocalMonth(now);
    now < Boundary(n, anchorDay) && Min(anchorDay, MonthLength(n + 1)) > MonthLength(n)
  }

  /** Exactly one of three results for every anchor day and every instant of a year with three digits or more. */
  lemma PeriodTrichotomy(anchorDay: int, now: int)
    requires 1 <= anchorDay <= 31 && !IsShortYear(Year(now))
    ensures var p, i := ComputedPeriod(anchorDay, now), StartMonth(anchorDay, now);
      if IsEmptied(anchorDay, now) then !IsStretched(anchorDay, now) && p.start == p.end == TruePeriod(anchorDay, now).end
      else if IsStretched(anchorDay, now) then p == BillingPeriod(Boundary(i, anchorDay), Boundary(i + 2, anchorDay))
      else p == TruePeriod(anchorDay, now)
  {
    MonthLengthsNeverRiseTwice(LocalMonth(now));
    assert WorkMonth(now) == LocalMonth(now);
  }

  /** The guard a caller can check before the call. */
  predicate IsRegular(anchorDay: int, now: int) {
    !IsShortYear(Year(now)) && !IsEmptied(anchorDay, now) && !IsStretched(anchorDay, now)
  }

  lemma ShortYearsLookAhead(anchorDay: int, now: int)
    requires 1 <= anchorDay <= 31 && IsShortYear(Year(now))
    ensures now < ComputedPeriod(anchorDay, now).start
  {
    hide FromFields, MonthLength, MonthStart, Day, DateOf, Min;
    var n := WorkMonth(now);
    LocalMonthBounds(now);
    MonthStartMonotone(LocalMonth(now) + 1, n - 1);
    BoundaryInMonth(n - 1, anchorDay);
    BoundaryInMonth(n, anchorDay);
    MonthStartMonotone(n - 1, n);
  }

  /** The source returns the documented period exactly when the guard holds. */
  lemma ComputedIsTrueIffRegular(anchorDay: int, now: int)
    requires 1 <= anchorDay <= 31
    ensures ComputedPeriod(anchorDay, now) == TruePeriod(anchorDay, now) <==> IsRegular(anchorDay, now)
  {
    TruePeriodContains(anchorDay, now);
    if IsShortYear(Year(now)) {
      ShortYearsLookAhead(anchorDay, now);
    } else {
      PeriodTrichotomy(anchorDay, now);
      var i := StartMonth(anchorDay, now);
      BoundaryMonotone(i, i + 1, anchorDay);
      BoundaryMonotone(i + 1, i + 2, anchorDay);
    }
  }

  /** The computed period holds the instant it was computed at, except when it is empty or the year is short. */
  lemma ComputedContainsNow(anchorDay: int, now: int)
    requires 1 <= anchorDay <= 31
    ensures ComputedPeriod(anchorDay, now).Contains(now) <==> !IsShortYear(Year(now)) && !IsEmptied(anchorDay, now)
  {
    TruePeriodContains(anchorDay, now);
    if IsShortYear(Year(now)) {
      ShortYearsLookAhead(anchorDay, now);
    } else {
      PeriodTrichotomy(anchorDay, now);
      var i := StartMonth(anchorDay, now);
      BoundaryMonotone(i + 1, i + 2, anchorDay);
    }
  }

  /** Anchor days 1 to 28 exist in every month, so nothing can go wrong for them. */
  lemma SmallAnchorsAreRegular(anchorDay: int, now: int)
    requires 1 <= anchorDay <= 28 && !IsShortYear(Year(now))
    ensures IsRegular(anchorDay, now)
  {
  }

  /** Computed periods tile at regular instants, whatever the anchor day. */
  lemma RegularPeriodsTile(anchorDay: int, t: int, u: int)
    requires 1 <= anchorDay <= 31 && IsRegular(anchorDay, t) && IsRegular(anchorDay, u)
    ensures ComputedPeriod(anchorDay, t) == ComputedPeriod(anchorDay, u)
      || !ComputedPeriod(anchorDay, t).Overlaps(ComputedPeriod(anchorDay, u))
  {
    ComputedIsTrueIffRegular(anchorDay, t);
    ComputedIsTrueIffRegular(anchorDay, u);
    TruePeriodsTile(anchorDay, t, u);
  }

  /** ... and the period computed at the end of a period starts there. */
  lemma RegularPeriodsMeet(anchorDay: int, t: int)
    requires 1 <= anchorDay <= 31 && IsRegular(anchorDay, t)
    requires IsRegular(anchorDay, ComputedPeriod(anchorDay, t).end)
    ensures ComputedPeriod(anchorDay, ComputedPeriod(anchorDay, t).end).start == ComputedPeriod(anchorDay, t).end
  {
    ComputedIsTrueIffRegular(anchorDay, t);
    ComputedIsTrueIffRegular(anchorDay, ComputedPeriod(anchorDay, t).end);
    TruePeriodsMeet(anchorDay, t);
  }

  /** A stretched period overlaps the different period computed at the boundary it skipped. */
  lemma StretchedOverlapsNext(anchorDay: int, now: int)
    requires 1 <= anchorDay <= 31 && !IsShortYear(Year(now)) && IsStretched(anchorDay, now)
    ensures var next := Boundary(LocalMonth(now), anchorDay);
      !IsShortYear(Year(next)) && ComputedPeriod(anchorDay, next) != ComputedPeriod(anchorDay, now)
      && ComputedPeriod(anchorDay, next).Overlaps(ComputedPeriod(anchorDay, now))
  {
    hide LocalMonth, Boundary, DateOf, ComputedPeriod;
    var n := LocalMonth(now);
    PeriodTrichotomy(anchorDay, now);
    MonthLengthsNeverRiseTwice(n);
    BoundaryInMonth(n, anchorDay);
    PeriodTrichotomy(anchorDay, Boundary(n, anchorDay));
    BoundaryMonotone(n - 1, n, anchorDay);
    BoundaryMonotone(n, n + 1, anchorDay);
  }

  /** Whether any two periods computed for an anchor day are identical or apart. */
  ghost predicate PeriodsTile(anchorDay: int) {
    forall t, u :: !IsShortYear(Year(t)) && !IsShortYear(Year(u)) ==>
      ComputedPeriod(anchorDay, t) == ComputedPeriod(anchorDay, u)
      || !ComputedPeriod(anchorDay, t).Overlaps(ComputedPeriod(anchorDay, u))
  }

  /** The periods of an anchor day tile time if and only if the day exists in every month. */
  lemma TilingIffAtMost28(anchorDay: int)
    requires 1 <= anchorDay <= 31
    ensures PeriodsTile(anchorDay) <==> anchorDay <= 28
  {
    if anchorDay <= 28 {
      forall t, u | !IsShortYear(Year(t)) && !IsShortYear(Year(u))
        ensures ComputedPeriod(anchorDay, t) == ComputedPeriod(anchorDay, u)
          || !ComputedPeriod(anchorDay, t).Overlaps(ComputedPeriod(anchorDay, u))
      {
        SmallAnchorsAreRegular(anchorDay, t);
        SmallAnchorsAreRegular(anchorDay, u);
        RegularPeriodsTile(anchorDay, t, u);
      }
    } else {
      var february := 12 * 2023 + 1;
      ShortMonthStretches(february, anchorDay);
      StretchedOverlapsNext(anchorDay, Midnight(february, 1));
    }
  }

  /** On the first day of a 28-day month, an anchor day that only the next month has stretches the period. */
  lemma ShortMonthStretches(n: int, anchorDay: int)
    requires n / 12 >= 100 && MonthLength(n) == 28 < MonthLength(n + 1)
    requires 29 <= anchorDay <= 31
    ensures IsStretched(anchorDay, Midnight(n, 1)) && !IsShortYear(Year(Midnight(n, 1)))
  {
    hide MonthLength, LocalMonth, DateOf, Day;
    MidnightFields(n, 1);
  }

  // ----- How the guard fails -----

  /** Computed periods tile even where some are empty: only a stretched one overlaps another. */
  lemma UnstretchedPeriodsTile(anchorDay: int, t: int, u: int)
    requires 1 <= anchorDay <= 31 && !IsShortYear(Year(t)) && !IsShortYear(Year(u))
    requires !IsStretched(anchorDay, t) && !IsStretched(anchorDay, u)
    ensures ComputedPeriod(anchorDay, t) == ComputedPeriod(anchorDay, u)
      || !ComputedPeriod(anchorDay, t).Overlaps(ComputedPeriod(anchorDay, u))
  {
    hide ComputedPeriod, TruePeriod, IsStretched, IsEmptied, Boundary, StartMonth;
    PeriodTrichotomy(anchorDay, t);
    PeriodTrichotomy(anchorDay, u);
    TruePeriodsTile(anchorDay, t, u);
  }

  /** Within one documented period the source computes one period exactly if both instants are of the same kind. */
  lemma ComputedAgreeIff(anchorDay: int, t: int, u: int)
    requires 1 <= anchorDay <= 31 && !IsShortYear(Year(t)) && !IsShortYear(Year(u))
    requires TruePeriod(anchorDay, t) == TruePeriod(anchorDay, u)
    ensures ComputedPeriod(anchorDay, t) == ComputedPeriod(anchorDay, u)
      <==> (IsEmptied(anchorDay, t) <==> IsEmptied(anchorDay, u)) && (IsStretched(anchorDay, t) <==> IsStretched(anchorDay, u))
  {
    hide ComputedPeriod, IsStretched, IsEmptied, Boundary, StartMonth;
    var i, j := StartMonth(anchorDay, t), StartMonth(anchorDay, u);
    if i < j {
      BoundaryMonotone(i, j, anchorDay);
    } else if j < i {
      BoundaryMonotone(j, i, anchorDay);
    }
    PeriodTrichotomy(anchorDay, t);
    PeriodTrichotomy(anchorDay, u);
    BoundaryMonotone(i, i + 1, anchorDay);
    BoundaryMonotone(i + 1, i + 2, anchorDay);
  }

  /** The documented period of an instant whose computed one is empty starts at a regular instant of the previous month. */
  lemma EmptiedStartsRegularly(anchorDay: int, now: int)
    requires 1 <= anchorDay <= 31 && !IsShortYear(Year(now)) && IsEmptied(anchorDay, now)
    ensures var t := TruePeriod(anchorDay, now).start;
      t <= now && IsRegular(anchorDay, t) && TruePeriod(anchorDay, t) == TruePeriod(anchorDay, now)
  {
    hide MonthLength;
    var n := LocalMonth(now);
    var t := Boundary(n - 1, anchorDay);
    if n % 12 == 0 {
      JanuaryStepsBack(n);
    }
    SameYear(n);
    TruePeriodContains(anchorDay, now);
    BoundaryInMonth(n - 1, anchorDay);
  }

  lemma SameYear(n: int)
    requires n % 12 != 0
    ensures (n - 1) / 12 == n / 12
  {
  }

  /** After every instant there is a February of 28 days, with January and March longer. */
  lemma LaterShortFebruary(t: int) returns (n: int)
    requires Year(t) >= 100
    ensures n / 12 >= 100 && MonthLength(n) == 28 < MonthLength(n + 1) && t < Midnight(n, 1)
  {
    var y := if IsLeapYear(Year(t) + 1) then Year(t) + 2 else Year(t) + 1;
    NoTwoLeapYears(Year(t) + 1);
    n := 12 * y + 1;
    assert n / 12 == y && n % 12 == 1 && (n + 1) % 12 == 2;
    LocalMonthBounds(t);
    assert LocalMonth(t) + 1 <= 12 * (Year(t) + 1) <= n;
    MonthStartMonotone(LocalMonth(t) + 1, n);
  }

  lemma NoTwoLeapYears(y: int)
    ensures !(IsLeapYear(y) && IsLeapYear(y + 1))
  {
  }

  /** On the first of the month after a 28-day month, an anchor day that only that month has empties the period. */
  lemma ShortMonthEmpties(n: int, anchorDay: int)
    requires n / 12 >= 100 && MonthLength(n) == 28 < MonthLength(n + 1)
    requires 29 <= anchorDay <= 31
    ensures IsEmptied(anchorDay, Midnight(n + 1, 1)) && Year(Midnight(n + 1, 1)) >= 100
  {
    hide MonthLength, LocalMonth, DateOf, Day;
    MidnightFields(n + 1, 1);
  }
}
